/** The client of the language model: locating the JSON in a reply, the
    sanitiser applied to a parsed extraction reply, and the order in which
    the forget check, the recall check and the extraction are consulted.
    Every model reply is a parameter (`Ok(text)`, or `Err(message)` when the
    call throws), and so is `JSON.parse` (`None` when it throws). */
module Gemini {
  import opened Js
  import opened Text
  import opened Coerce

  /** The last index of `c`. */
  function FindLast(s: string, c: char): (r: Option<nat>)
    ensures r.None? <==> c !in s
    ensures r.Some? ==> r.value < |s| && s[r.value] == c && c !in s[r.value + 1..]
    decreases |s|
  {
    if s == [] then None
    else if s[|s| - 1] == c then Some(|s| - 1)
    else
      var rest := FindLast(s[..|s| - 1], c);
      if rest.None? then None
      else
        assert s[rest.value + 1..] == s[..|s| - 1][rest.value + 1..] + [s[|s| - 1]];
        rest
  }

  /** The match of the greedy pattern `open [\s\S]* close`: from the first
      `open` to the last `close`, when a `close` follows the first `open`. */
  function Span(text: string, open: char, close: char): (r: Option<string>)
    requires open != close
    ensures r.Some? ==> |r.value| >= 2 && r.value[0] == open && r.value[|r.value| - 1] == close
  {
    match Find(text, open)
    case None => None
    case Some(i) =>
      match FindLast(text, close)
      case None => None
      case Some(j) => if i < j then Some(text[i..j + 1]) else None
  }

  /** `text[i..j + 1]` runs from an `open` to a later `close`, and every
      such stretch of `text` lies inside it. */
  predicate Widest(text: string, open: char, close: char, i: int, j: int)
  {
    && 0 <= i < j < |text| && text[i] == open && text[j] == close
    && forall a, b :: 0 <= a < b < |text| && text[a] == open && text[b] == close ==> i <= a && b <= j
  }

  /** A match exists exactly when some `close` comes after some `open`, and
      it is the widest such stretch. */
  lemma SpanWidest(text: string, open: char, close: char)
    requires open != close
    ensures Span(text, open, close).Some? <==>
      exists a, b :: 0 <= a < b < |text| && text[a] == open && text[b] == close
    ensures Span(text, open, close).Some? ==>
      exists i, j :: Widest(text, open, close, i, j) && Span(text, open, close).value == text[i..j + 1]
  {
    var fi, lj := Find(text, open), FindLast(text, close);
    if exists a, b :: 0 <= a < b < |text| && text[a] == open && text[b] == close {
      var a, b :| 0 <= a < b < |text| && text[a] == open && text[b] == close;
      assert text[a] in text && text[b] in text;
      assert fi.value < lj.value;
    }
    if fi.Some? && lj.Some? && fi.value < lj.value {
      var i, j := fi.value, lj.value;
      forall a, b | 0 <= a < b < |text| && text[a] == open && text[b] == close
        ensures i <= a && b <= j
      {
      }
      assert Widest(text, open, close, i, j);
    }
  }

  /** `Math.max(0, Math.min(1, Number(c) || 0.5))`. */
  function ConfidenceOf(c: JsValue): (r: real)
    ensures 0.0 <= r <= 1.0
    ensures NumberOf(c) == NaN || NumberOf(c) == Finite(0.0) ==> r == 0.5
    ensures NumberOf(c).Infinity? ==> r == if NumberOf(c).negative then 0.0 else 1.0
    ensures forall x :: NumberOf(c) == Finite(x) && x != 0.0 ==>
      (x < 0.0 ==> r == 0.0) && (0.0 < x <= 1.0 ==> r == x) && (x > 1.0 ==> r == 1.0)
  {
    match NumberOf(c)
    case NaN => 0.5
    case Infinity(negative) => if negative then 0.0 else 1.0
    case Finite(x) =>
      if x == 0.0 then 0.5 else if x > 1.0 then 1.0 else if x < 0.0 then 0.0 else x
  }

  /** `Array.isArray(v) ? v : []`. */
  function ArrayOr(v: JsValue): (r: JsValue)
    ensures r.Arr?
    ensures v.Arr? ==> r == v
  {
    if v.Arr? then v else Arr([])
  }

  predicate KnownSentiment(v: JsValue)
  {
    v == Str("positive") || v == Str("neutral") || v == Str("negative")
  }

  const DefaultResponse := "Thanks for sharing that with me!"

  /** The `TypeError` a property assignment on a primitive throws in strict
      code. */
  function PropertyError(v: JsValue): string
  {
    var kind := match v
      case Bool(_) => "boolean"
      case Num(_) => "number"
      case _ => "string";
    "Cannot create property 'people' on " + kind + " '" + ToText(v) + "'"
  }

  const ListKeys := {"people", "places", "events", "tags"}
  const CleanedKeys := ListKeys + {"sentiment", "confidence", "timestamp"}

  /** `g` is the memory data `f` after the clean-up: the four lists are
      arrays (kept when they already were), the sentiment is a known value
      (kept when it already was), the confidence lies in [0, 1], the time is
      stamped, and every other field is kept. */
  predicate Cleaned(f: Fields, g: Fields, nowIso: string)
  {
    && g.Keys == f.Keys + CleanedKeys
    && (forall k :: k in ListKeys ==> g[k] == ArrayOr(Get(f, k)))
    && g["sentiment"] == (if KnownSentiment(Get(f, "sentiment")) then Get(f, "sentiment") else Str("neutral"))
    && g["confidence"] == Num(ConfidenceOf(Get(f, "confidence")))
    && g["timestamp"] == Str(nowIso)
    && forall k :: k in f && k !in CleanedKeys ==> g[k] == f[k]
  }

  /** The four list fields of `f` overwritten, in order, by arrays. */
  lemma ListsFixed(f: Fields, g: Fields)
    requires g == f["people" := ArrayOr(Get(f, "people"))]["places" := ArrayOr(Get(f, "places"))]
                   ["events" := ArrayOr(Get(f, "events"))]["tags" := ArrayOr(Get(f, "tags"))]
    ensures g.Keys == f.Keys + ListKeys
    ensures forall k :: k in ListKeys ==> g[k] == ArrayOr(Get(f, k))
    ensures forall k :: k in f && k !in ListKeys ==> g[k] == f[k]
  {
  }

  /** The three scalar fields written after the lists leave the lists
      alone. */
  lemma ScalarsFixed(lists: Fields, g: Fields, sentiment: JsValue, confidence: real, nowIso: string)
    requires g == lists["sentiment" := sentiment]["confidence" := Num(confidence)]["timestamp" := Str(nowIso)]
    ensures g.Keys == lists.Keys + {"sentiment", "confidence", "timestamp"}
    ensures forall k :: k in lists && k !in CleanedKeys ==> g[k] == lists[k]
    ensures forall k :: k in ListKeys && k in lists ==> g[k] == lists[k]
  {
  }

  /** The in-place clean-up of the memory data, field by field. */
  method CleanMemoryData(f: Fields, nowIso: string) returns (g: Fields)
    ensures Cleaned(f, g, nowIso)
  {
    g := f;
    g := g["people" := ArrayOr(Get(g, "people"))];
    g := g["places" := ArrayOr(Get(g, "places"))];
    g := g["events" := ArrayOr(Get(g, "events"))];
    g := g["tags" := ArrayOr(Get(g, "tags"))];
    ListsFixed(f, g);
    ghost var lists := g;
    var sentiment := Get(g, "sentiment");
    if !KnownSentiment(sentiment) {
      sentiment := Str("neutral");
    }
    var confidence := ConfidenceOf(Get(g, "confidence"));
    assert Get(g, "sentiment") == Get(f, "sentiment") && Get(g, "confidence") == Get(f, "confidence");
    g := g["sentiment" := sentiment];
    g := g["confidence" := Num(confidence)];
    g := g["timestamp" := Str(nowIso)];
    ScalarsFixed(lists, g, sentiment, confidence, nowIso);
  }

  /** Whether the reply asks to save memory data that is a primitive, on
      which the first property assignment throws. */
  predicate Throws(reply: Fields)
  {
    var md := Get(reply, "memoryData");
    Get(reply, "shouldSave") == Bool(true) && Truthy(md) && !md.Obj? && !md.Arr?
  }

  /** `r` is the reply after the sanitiser: a non-boolean `shouldSave` is
      `false`, a falsy `response` is the default, the memory data of a reply
      to be saved is cleaned, and every other field is kept. */
  predicate Sanitized(reply: Fields, r: Fields, nowIso: string)
  {
    var save := if Get(reply, "shouldSave").Bool? then Get(reply, "shouldSave") else Bool(false);
    var md := Get(reply, "memoryData");
    && r.Keys == reply.Keys + {"shouldSave", "response"}
    && r["shouldSave"] == save
    && r["response"] == Or(Get(reply, "response"), Str(DefaultResponse))
    && (forall k :: k in reply && k != "shouldSave" && k != "response" && k != "memoryData" ==> r[k] == reply[k])
    && (if save == Bool(true) && md.Obj? then Get(r, "memoryData").Obj? && Cleaned(md.fields, Get(r, "memoryData").fields, nowIso)
        else Get(r, "memoryData") == md)
  }

  /** Writing the two header fields leaves every other field. */
  lemma HeaderFixed(reply: Fields, r: Fields, save: JsValue, response: JsValue)
    requires r == reply["shouldSave" := save]["response" := response]
    ensures r.Keys == reply.Keys + {"shouldSave", "response"}
    ensures r["shouldSave"] == save && r["response"] == response
    ensures forall k :: k in reply && k != "shouldSave" && k != "response" ==> r[k] == reply[k]
    ensures Get(r, "memoryData") == Get(reply, "memoryData")
  {
  }

  /** The sanitiser applied to a parsed extraction reply, overwriting its
      fields in turn; `thrown` is the error of an assignment on primitive
      memory data. */
  method Sanitize(reply: Fields, nowIso: string) returns (r: Fields, thrown: Option<string>)
    ensures thrown == if Throws(reply) then Some(PropertyError(Get(reply, "memoryData"))) else None
    ensures !Throws(reply) ==> Sanitized(reply, r, nowIso)
  {
    thrown := None;
    var save := Get(reply, "shouldSave");
    if !save.Bool? {
      save := Bool(false);
    }
    var response := Get(reply, "response");
    if !Truthy(response) {
      response := Str(DefaultResponse);
    }
    r := reply["shouldSave" := save]["response" := response];
    HeaderFixed(reply, r, save, response);
    var md := Get(reply, "memoryData");
    if save == Bool(true) && Truthy(md) {
      if !md.Obj? && !md.Arr? {
        thrown := Some(PropertyError(md));
        return;
      }
      if md.Obj? {
        var g := CleanMemoryData(md.fields, nowIso);
        ghost var header := r;
        r := r["memoryData" := Obj(g)];
        DataCleaned(reply, header, r, g, nowIso);
      }
    }
  }

  /** Writing the cleaned memory data into a sanitised header completes the
      sanitised reply. */
  lemma DataCleaned(reply: Fields, header: Fields, r: Fields, g: Fields, nowIso: string)
    requires Get(reply, "shouldSave") == Bool(true) && Get(reply, "memoryData").Obj?
    requires header.Keys == reply.Keys + {"shouldSave", "response"}
    requires header["shouldSave"] == Bool(true)
    requires header["response"] == Or(Get(reply, "response"), Str(DefaultResponse))
    requires forall k :: k in reply && k != "shouldSave" && k != "response" ==> header[k] == reply[k]
    requires Cleaned(Get(reply, "memoryData").fields, g, nowIso)
    requires r == header["memoryData" := Obj(g)]
    ensures Sanitized(reply, r, nowIso)
  {
  }

  /** `checkForgetCommand` / `checkRecallCommand`: the parsed JSON of the
      reply, or `{ <flag>: false, query: '' }` when the client is not
      configured, the call fails, no JSON is found or it does not parse. */
  function CheckCommand(flag: string, configured: bool, reply: Result<string>,
                        parse: string -> Option<Fields>): (r: Fields)
    ensures !configured || reply.Err? ==> r == map[flag := Bool(false), "query" := Str("")]
    ensures configured && reply.Ok? && Span(reply.value, '{', '}').None? ==>
      r == map[flag := Bool(false), "query" := Str("")]
    ensures configured && reply.Ok? && Span(reply.value, '{', '}').Some? ==>
      r == parse(Span(reply.value, '{', '}').value).GetOr(map[flag := Bool(false), "query" := Str("")])
  {
    var none := map[flag := Bool(false), "query" := Str("")];
    if !configured || reply.Err? then none
    else
      match Span(reply.value, '{', '}')
      case None => none
      case Some(json) => parse(json).GetOr(none)
  }

  /** The message thrown when no API key is configured. */
  const MissingKeyMessage := "VITE_GEMINI_API_KEY" + " is not configured." + " Please add it" + " to your .env file."

  /** A failure of the whole call: a message mentioning the API key gets the
      fixed error `'API key error'`, any other keeps its message. */
  function Failure(message: string): (r: Fields)
    ensures r.Keys == {"shouldSave", "response", "error"}
    ensures r["shouldSave"] == Bool(false)
    ensures r["error"] == Str(if Contains(message, "API key") then "API key error" else message)
  {
    var keyError := Contains(message, "API key");
    var response := if keyError then ConnectApology else ProcessApology;
    map["shouldSave" := Bool(false), "response" := Str(response),
        "error" := Str(if keyError then "API key error" else message)]
  }

  const ConnectApology := "I'm having trouble connecting to the AI service. Please check your Gemini API key configuration."
  const ProcessApology := "I'm having trouble processing your message right now. Please try again."

  /** The missing-key message spells `API_KEY`, so it is not one of the
      messages mapped to `'API key error'`. */
  lemma MissingKeyNotMapped()
    ensures Failure(MissingKeyMessage)["error"] == Str(MissingKeyMessage)
  {
    var a, b, c, d := "VITE_GEMINI_API_KEY", " is not configured.", " Please add it", " to your .env file.";
    assert Lacks(a, 'k') && Lacks(b, 'k') && Lacks(c, 'k') && Lacks(d, 'k');
    LacksConcat(a, b, 'k');
    LacksConcat(a + b, c, 'k');
    LacksConcat(a + b + c, d, 'k');
    LacksIn(MissingKeyMessage, 'k');
    KeptMessage(MissingKeyMessage);
  }

  /** A message without a `k` cannot mention the API key, so the failure
      keeps it. */
  lemma KeptMessage(message: string)
    requires 'k' !in message
    ensures Failure(message)["error"] == Str(message)
  {
    if Contains(message, "API key") {
      ContainsChar(message, "API key", 4);
      assert false;
    }
    var r := Failure(message);
    assert r["error"] == Str(if Contains(message, "API key") then "API key error" else message);
  }

  /** What `includes` finds, the string holds character by character. */
  lemma ContainsChar(s: string, t: string, m: nat)
    requires Contains(s, t) && m < |t|
    ensures t[m] in s
  {
    ContainsAt(s, t);
    var i :| 0 <= i <= |s| - |t| && StartsWith(s[i..], t);
    assert s[i + m] == t[m];
  }

  /** The outcome of the extraction call: a failed call is a failure, a
      reply without parseable JSON gets the fallback, and a parsed reply is
      sanitised, unless its memory data makes the sanitiser throw. */
  predicate Extracted(reply: Result<string>, parse: string -> Option<Fields>, nowIso: string, r: Fields)
  {
    match reply
    case Err(message) => r == Failure(message)
    case Ok(text) =>
      match Span(text, '{', '}')
      case None => r == ParseFallback
      case Some(json) =>
        match parse(json)
        case None => r == ParseFallback
        case Some(parsed) =>
          if Throws(parsed) then r == Failure(PropertyError(Get(parsed, "memoryData")))
          else Sanitized(parsed, r, nowIso)
  }

  /** The extraction step of `processWithGemini`. */
  method Extract(reply: Result<string>, parse: string -> Option<Fields>, nowIso: string) returns (r: Fields)
    ensures Extracted(reply, parse, nowIso, r)
  {
    if reply.Err? {
      return Failure(reply.error);
    }
    var json := Span(reply.value, '{', '}');
    if json.None? || parse(json.value).None? {
      return ParseFallback;
    }
    var thrown;
    r, thrown := Sanitize(parse(json.value).value, nowIso);
    if thrown.Some? {
      r := Failure(thrown.value);
    }
  }

  /** The reply to a recognised forget or recall command. */
  function CommandReply(flag: string, response: string, query: JsValue): Fields
  {
    map["shouldSave" := Bool(false), "response" := Str(response), flag := Bool(true), "query" := query]
  }

  /** `processWithGemini`: a forget command wins over a recall command,
      which wins over extraction, and none of them saves anything. */
  method ProcessWithGemini(configured: bool, forgetReply: Result<string>, recallReply: Result<string>,
                           extractReply: Result<string>, parse: string -> Option<Fields>, nowIso: string)
    returns (r: Fields)
    ensures !configured ==> r == Failure(MissingKeyMessage)
    ensures var forget := CheckCommand("isForgetCommand", configured, forgetReply, parse);
      var query := Get(forget, "query");
      configured && Truthy(Get(forget, "isForgetCommand")) ==>
        r == CommandReply("isForgetCommand", "I'll help you forget memories about \"" + ToText(query)
                                             + "\". Let me search and remove them.", query)
    ensures var forget := CheckCommand("isForgetCommand", configured, forgetReply, parse);
      var recall := CheckCommand("isRecallCommand", configured, recallReply, parse);
      var query := Get(recall, "query");
      configured && !Truthy(Get(forget, "isForgetCommand")) && Truthy(Get(recall, "isRecallCommand")) ==>
        r == CommandReply("isRecallCommand", "Let me search for memories about \"" + ToText(query) + "\".", query)
    ensures var forget := CheckCommand("isForgetCommand", configured, forgetReply, parse);
      var recall := CheckCommand("isRecallCommand", configured, recallReply, parse);
      configured && !Truthy(Get(forget, "isForgetCommand")) && !Truthy(Get(recall, "isRecallCommand")) ==>
        Extracted(extractReply, parse, nowIso, r)
  {
    if !configured {
      return Failure(MissingKeyMessage);
    }
    var forget := CheckCommand("isForgetCommand", configured, forgetReply, parse);
    if Truthy(Get(forget, "isForgetCommand")) {
      var query := Get(forget, "query");
      return CommandReply("isForgetCommand", "I'll help you forget memories about \"" + ToText(query)
                                             + "\". Let me search and remove them.", query);
    }
    var recall := CheckCommand("isRecallCommand", configured, recallReply, parse);
    if Truthy(Get(recall, "isRecallCommand")) {
      var query := Get(recall, "query");
      return CommandReply("isRecallCommand", "Let me search for memories about \"" + ToText(query) + "\".", query);
    }
    r := Extract(extractReply, parse, nowIso);
  }

  /** The reply when the extraction reply holds no parseable JSON. */
  const ParseFallback: Fields := map["shouldSave" := Bool(false),
    "response" := Str("I received your message! Could you tell me more about what happened?"),
    "error" := Str("Failed to parse AI response")]

  /** `generateInsights`: the parsed JSON array of the reply, or `[]` when
      the call fails, no array is found or it does not parse. */
  function GenerateInsights(configured: bool, reply: Result<string>, parse: string -> Option<JsValue>): (r: JsValue)
    ensures !configured || reply.Err? ==> r == Arr([])
    ensures configured && reply.Ok? && Span(reply.value, '[', ']').None? ==> r == Arr([])
    ensures configured && reply.Ok? && Span(reply.value, '[', ']').Some? ==>
      r == parse(Span(reply.value, '[', ']').value).GetOr(Arr([]))
  {
    if !configured || reply.Err? then Arr([])
    else
      match Span(reply.value, '[', ']')
      case None => Arr([])
      case Some(json) => parse(json).GetOr(Arr([]))
  }

  /** `enhanceMemoryContent`: the trimmed reply, or the content unchanged when
      the call fails. */
  function EnhanceMemoryContent(content: string, configured: bool, reply: Result<string>): (r: string)
    ensures !configured || reply.Err? ==> r == content
    ensures configured && reply.Ok? ==> r == Trim(reply.value)
  {
    if configured && reply.Ok? then Trim(reply.value) else content
  }

  /** `summarizeMemories`: the trimmed reply, or a count of the memories when
      the call fails. */
  function SummarizeMemories(count: nat, timeframe: string, configured: bool, reply: Result<string>): (r: string)
    ensures configured && reply.Ok? ==> r == Trim(reply.value)
    ensures !(configured && reply.Ok?) ==>
      r == "You had " + NatToString(count) + " memorable moments during " + timeframe + "."
  {
    if configured && reply.Ok? then Trim(reply.value)
    else "You had " + NatToString(count) + " memorable moments during " + timeframe + "."
  }
}
