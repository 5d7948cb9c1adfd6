/** The chat store: the message log, the processing flag and error, the
    voice-input state, and the three conversations it runs (an ordinary
    message, a forget command and a recall command). The AI call, the memory
    store's replies, the clock, `Math.random` and the locale date format are
    parameters; a thrown error is an `Err`. */
module Chat {
  import opened Js
  import opened Text
  import opened Records
  import MemoryStore

  /** The id and ISO time a message is stamped with when it is added. */
  datatype Stamp = Stamp(id: real, iso: string)

  /** `{ id, timestamp, ...message }`: the message's own fields come after
      the stamp and win over it. */
  function Stamped(message: Fields, stamp: Stamp): (m: Fields)
    ensures m.Keys == message.Keys + {"id", "timestamp"}
    ensures forall k :: k in message ==> m[k] == message[k]
    ensures "id" !in message ==> m["id"] == Num(stamp.id)
    ensures "timestamp" !in message ==> m["timestamp"] == Str(stamp.iso)
  {
    map["id" := Num(stamp.id), "timestamp" := Str(stamp.iso)] + message
  }

  function UserMessage(content: string, messageType: string): Fields
  {
    map["type" := Str("user"), "content" := Str(content), "messageType" := Str(messageType)]
  }

  function AssistantMessage(content: JsValue): Fields
  {
    map["type" := Str("assistant"), "content" := content, "messageType" := Str("text")]
  }

  const ErrorApology := "Sorry, I encountered an error processing your message."
    + " Please check your Gemini API key and try again."
  const UnexpectedApology := "Sorry, I encountered an unexpected error. Please try again."
  const ForgetApology := "Sorry, I encountered an error while trying to forget. Please try again."
  const RecallApology := "Sorry, I encountered an error while searching memories. Please try again."
  const NoSpeech := "Speech recognition is not supported in this browser"

  // ---------------------------------------------------------------------
  // sendMessage

  /** The assistant's reply to an AI result: the unexpected-error apology
      when the call threw, the API-key apology when the result carries a
      truthy `error`, and the `response` otherwise. */
  function ReplyContent(ai: Result<Fields>): JsValue
  {
    match ai
    case Err(_) => Str(UnexpectedApology)
    case Ok(r) => if Truthy(Get(r, "error")) then Str(ErrorApology) else Get(r, "response")
  }

  /** The store error after `sendMessage`: the thrown message, the result's
      `error`, or null. */
  function ErrorAfter(ai: Result<Fields>): JsValue
  {
    match ai
    case Err(m) => Str(m)
    case Ok(r) => if Truthy(Get(r, "error")) then Get(r, "error") else Null
  }

  /** The memory data handed to `saveMemory`, if any: only for a result
      without error whose `shouldSave` and `memoryData` are both truthy. */
  function SaveRequest(ai: Result<Fields>): Option<JsValue>
  {
    match ai
    case Err(_) => None
    case Ok(r) =>
      if !Truthy(Get(r, "error")) && Truthy(Get(r, "shouldSave")) && Truthy(Get(r, "memoryData"))
      then Some(Get(r, "memoryData"))
      else None
  }

  /** The `try`/`catch` of `sendMessage`: the error to record, the reply to
      show and the memory data to save, as the outcome of the AI call
      decides them. */
  method Respond(ai: Result<Fields>) returns (failure: JsValue, reply: JsValue, save: Option<JsValue>)
    ensures failure == ErrorAfter(ai)
    ensures reply == ReplyContent(ai)
    ensures save == SaveRequest(ai)
  {
    failure, save := Null, None;
    match ai {
      case Err(m) =>
        failure := Str(m);
        reply := Str(UnexpectedApology);
      case Ok(r) =>
        if Truthy(Get(r, "error")) {
          failure := Get(r, "error");
          reply := Str(ErrorApology);
        } else {
          reply := Get(r, "response");
          if Truthy(Get(r, "shouldSave")) && Truthy(Get(r, "memoryData")) {
            save := Some(Get(r, "memoryData"));
          }
        }
    }
  }

  /** An error is recorded exactly when the assistant apologises, and a
      memory is saved only from a result whose reply was shown and which
      left the error cleared. */
  lemma SendOutcomes(ai: Result<Fields>)
    ensures ErrorAfter(ai) != Null ==> ReplyContent(ai) == Str(UnexpectedApology) || ReplyContent(ai) == Str(ErrorApology)
    ensures ErrorAfter(ai) == Null ==> ai.Ok? && ReplyContent(ai) == Get(ai.value, "response")
    ensures SaveRequest(ai).Some? ==>
      && ErrorAfter(ai) == Null && ReplyContent(ai) == Get(ai.value, "response")
      && Truthy(SaveRequest(ai).value) && SaveRequest(ai).value == Get(ai.value, "memoryData")
    ensures ai.Ok? && ErrorAfter(ai) == Null ==>
      (SaveRequest(ai).Some? <==> Truthy(Get(ai.value, "shouldSave")) && Truthy(Get(ai.value, "memoryData")))
  {
    if ai.Ok? && Truthy(Get(ai.value, "error")) {
      assert Get(ai.value, "error") != Null;
    }
  }

  // ---------------------------------------------------------------------
  // Commands

  /** The assistant's reply to a forget command: the number forgotten, the
      not-found text for any failure the memory store reports, or the
      apology when it threw. */
  function ForgetReply(query: string, outcome: Result<MemoryStore.Outcome>): string
  {
    match outcome
    case Err(_) => ForgetApology
    case Ok(o) =>
      if o.Forgot? then
        "I've forgotten " + NatToString(o.deletedCount) + " memories matching your request: \"" + query + "\""
      else "I couldn't find any memories matching: \"" + query + "\""
  }

  /** One line of the recall listing: a bullet, the content and the date in
      parentheses. */
  function RecallLine(m: Memory, localeDate: Option<int> -> string): string
  {
    "• " + m.content + " (" + localeDate(m.createdAt) + ")"
  }

  function RecallLines(found: seq<Memory>, localeDate: Option<int> -> string): (lines: seq<string>)
    ensures |lines| == |found|
    ensures forall i :: 0 <= i < |found| ==> lines[i] == RecallLine(found[i], localeDate)
  {
    if found == [] then [] else [RecallLine(found[0], localeDate)] + RecallLines(found[1..], localeDate)
  }

  /** The listing of the found memories, one per line. */
  function MemoryList(found: seq<Memory>, localeDate: Option<int> -> string): string
  {
    Join(RecallLines(found, localeDate), "\n")
  }

  /** The assistant's reply to a recall command. */
  function RecallReply(query: string, found: Result<seq<Memory>>, localeDate: Option<int> -> string): string
  {
    match found
    case Err(_) => RecallApology
    case Ok(ms) =>
      if |ms| > 0 then "Here's what I remember about \"" + query + "\":\n\n" + MemoryList(ms, localeDate)
      else "I don't have any memories matching: \"" + query + "\""
  }

  /** When no content or date holds a line break, the listing splits back
      into exactly one bulleted line per found memory, in order. */
  lemma RecallListing(found: seq<Memory>, localeDate: Option<int> -> string)
    requires found != []
    requires forall i :: 0 <= i < |found| ==> Lacks(found[i].content, '\n') && Lacks(localeDate(found[i].createdAt), '\n')
    ensures Split(MemoryList(found, localeDate), '\n') == RecallLines(found, localeDate)
    ensures |Split(MemoryList(found, localeDate), '\n')| == |found|
  {
    var lines := RecallLines(found, localeDate);
    forall i | 0 <= i < |lines|
      ensures '\n' !in lines[i]
    {
      var m := found[i];
      var date := localeDate(m.createdAt);
      assert Lacks("• ", '\n') && Lacks(" (", '\n') && Lacks(")", '\n');
      LacksConcat("• ", m.content, '\n');
      LacksConcat("• " + m.content, " (", '\n');
      LacksConcat("• " + m.content + " (", date, '\n');
      LacksConcat("• " + m.content + " (" + date, ")", '\n');
      LacksIn(lines[i], '\n');
    }
    SplitJoin(lines, '\n');
  }

  // ---------------------------------------------------------------------
  // The store

  class Store {
    var messages: seq<Fields>
    var currentMessage: string
    var isTyping: bool
    var isProcessing: bool
    var error: JsValue
    var isListening: bool
    /** Whether `speechRecognition` holds a recogniser (it is null
        otherwise). */
    var hasRecognition: bool

    constructor()
      ensures messages == [] && currentMessage == "" && !isTyping && !isProcessing
      ensures error == Null && !isListening && !hasRecognition
    {
      messages := [];
      currentMessage := "";
      isTyping := false;
      isProcessing := false;
      error := Null;
      isListening := false;
      hasRecognition := false;
    }

    /** `addMessage(message)`: appends the stamped message. */
    method AddMessage(message: Fields, stamp: Stamp)
      modifies this
      ensures messages == old(messages) + [Stamped(message, stamp)]
      ensures currentMessage == old(currentMessage) && isTyping == old(isTyping)
      ensures isProcessing == old(isProcessing) && error == old(error)
      ensures isListening == old(isListening) && hasRecognition == old(hasRecognition)
    {
      messages := messages + [Stamped(message, stamp)];
    }

    /** `clearMessages()`. */
    method ClearMessages()
      modifies this
      ensures messages == []
      ensures currentMessage == old(currentMessage) && isTyping == old(isTyping)
      ensures isProcessing == old(isProcessing) && error == old(error)
      ensures isListening == old(isListening) && hasRecognition == old(hasRecognition)
    {
      messages := [];
    }

    /** `sendMessage(content, type)`: the user's message, then exactly one
        assistant message; the error as the result decides; the memory data
        to save, if any; and the processing flag cleared on every path. */
    method SendMessage(content: string, messageType: string, ai: Result<Fields>,
                       userStamp: Stamp, replyStamp: Stamp)
      returns (saveRequest: Option<JsValue>)
      modifies this
      ensures messages == old(messages)
        + [Stamped(UserMessage(content, messageType), userStamp)]
        + [Stamped(AssistantMessage(ReplyContent(ai)), replyStamp)]
      ensures error == ErrorAfter(ai)
      ensures saveRequest == SaveRequest(ai)
      ensures !isProcessing
      ensures currentMessage == old(currentMessage) && isTyping == old(isTyping)
      ensures isListening == old(isListening) && hasRecognition == old(hasRecognition)
    {
      isProcessing := true;
      error := Null;
      AddMessage(UserMessage(content, messageType), userStamp);
      var failure, reply;
      failure, reply, saveRequest := Respond(ai);
      error := failure;
      AddMessage(AssistantMessage(reply), replyStamp);
      isProcessing := false;
    }

    /** `handleForgetCommand(query)`: the query as a `forget` message, then
        the reply to the memory store's outcome; the error is not touched. */
    method HandleForgetCommand(query: string, outcome: Result<MemoryStore.Outcome>,
                               userStamp: Stamp, replyStamp: Stamp)
      modifies this
      ensures messages == old(messages)
        + [Stamped(UserMessage(query, "forget"), userStamp)]
        + [Stamped(AssistantMessage(Str(ForgetReply(query, outcome))), replyStamp)]
      ensures !isProcessing && error == old(error)
      ensures currentMessage == old(currentMessage) && isTyping == old(isTyping)
      ensures isListening == old(isListening) && hasRecognition == old(hasRecognition)
    {
      isProcessing := true;
      AddMessage(UserMessage(query, "forget"), userStamp);
      AddMessage(AssistantMessage(Str(ForgetReply(query, outcome))), replyStamp);
      isProcessing := false;
    }

    /** `handleRecallCommand(query)`: the query as a `recall` message, then
        the listing of what the search found. */
    method HandleRecallCommand(query: string, found: Result<seq<Memory>>, localeDate: Option<int> -> string,
                               userStamp: Stamp, replyStamp: Stamp)
      modifies this
      ensures messages == old(messages)
        + [Stamped(UserMessage(query, "recall"), userStamp)]
        + [Stamped(AssistantMessage(Str(RecallReply(query, found, localeDate))), replyStamp)]
      ensures !isProcessing && error == old(error)
      ensures currentMessage == old(currentMessage) && isTyping == old(isTyping)
      ensures isListening == old(isListening) && hasRecognition == old(hasRecognition)
    {
      isProcessing := true;
      AddMessage(UserMessage(query, "recall"), userStamp);
      AddMessage(AssistantMessage(Str(RecallReply(query, found, localeDate))), replyStamp);
      isProcessing := false;
    }

    /** `startListening()`: without browser support only the error is set;
        otherwise a recogniser is created and started. */
    method StartListening(supported: bool)
      modifies this
      ensures !supported ==> error == Str(NoSpeech) && hasRecognition == old(hasRecognition)
      ensures supported ==> error == old(error) && hasRecognition
      ensures messages == old(messages) && isListening == old(isListening)
      ensures currentMessage == old(currentMessage) && isProcessing == old(isProcessing)
      ensures isTyping == old(isTyping)
    {
      if !supported {
        error := Str(NoSpeech);
        return;
      }
      hasRecognition := true;
    }

    /** The recogniser's `onstart`. */
    method OnStart()
      modifies this
      ensures isListening && error == Null
      ensures messages == old(messages) && hasRecognition == old(hasRecognition)
      ensures currentMessage == old(currentMessage) && isProcessing == old(isProcessing)
      ensures isTyping == old(isTyping)
    {
      isListening := true;
      error := Null;
    }

    /** The recogniser's `onresult`: the transcript becomes the current
        message. */
    method OnResult(transcript: string)
      modifies this
      ensures currentMessage == transcript
      ensures messages == old(messages) && error == old(error)
      ensures isListening == old(isListening) && hasRecognition == old(hasRecognition)
      ensures isTyping == old(isTyping) && isProcessing == old(isProcessing)
    {
      currentMessage := transcript;
    }

    /** The recogniser's `onerror`. */
    method OnError(reason: string)
      modifies this
      ensures !isListening && error == Str("Speech recognition error: " + reason)
      ensures messages == old(messages) && hasRecognition == old(hasRecognition)
      ensures currentMessage == old(currentMessage)
      ensures isTyping == old(isTyping) && isProcessing == old(isProcessing)
    {
      isListening := false;
      error := Str("Speech recognition error: " + reason);
    }

    /** The recogniser's `onend`. */
    method OnEnd()
      modifies this
      ensures !isListening && !hasRecognition
      ensures messages == old(messages) && error == old(error)
      ensures currentMessage == old(currentMessage)
      ensures isTyping == old(isTyping) && isProcessing == old(isProcessing)
    {
      isListening := false;
      hasRecognition := false;
    }

    /** `stopListening()`: stops the recogniser if there is one, and always
        ends with no recogniser and not listening. */
    method StopListening() returns (stopped: bool)
      modifies this
      ensures stopped == old(hasRecognition)
      ensures !isListening && !hasRecognition
      ensures messages == old(messages) && error == old(error)
      ensures currentMessage == old(currentMessage) && isProcessing == old(isProcessing)
      ensures isTyping == old(isTyping)
    {
      stopped := hasRecognition;
      isListening := false;
      hasRecognition := false;
    }
  }
}
