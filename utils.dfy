/** The general helpers of the application: relative-time wording,
    truncation, the e-mail pattern, reading time, the sentiment colour and
    emoji maps, and the array and object helpers `groupBy`, `pick` and
    `omit` (`unique` is `Seqs.Unique`). The clock is a parameter: times are
    milliseconds since the epoch. */
module Utils {
  import opened Js
  import opened Seqs
  import opened Text

  // ---------------------------------------------------------------------
  // Relative time

  datatype TimeUnit = Minute | Hour | Day | Week | Month | Year

  /** The choice `formatRelativeTime` makes: "just now", or a count of one
      unit. */
  datatype Relative = JustNow | Ago(count: nat, unit: TimeUnit)

  /** Whole seconds from `pastMs` to `nowMs`, rounded down (negative for a
      time in the future). */
  function ElapsedSeconds(nowMs: int, pastMs: int): int
  {
    (nowMs - pastMs) / 1000
  }

  /** The cascade of `formatRelativeTime`: each unit is the previous one
      divided and rounded down, except that months and years are counted
      from the days. */
  function RelativeOf(nowMs: int, pastMs: int): Relative
  {
    var seconds := ElapsedSeconds(nowMs, pastMs);
    if seconds < 60 then JustNow
    else
      var minutes := seconds / 60;
      if minutes < 60 then Ago(minutes, Minute)
      else
        var hours := minutes / 60;
        if hours < 24 then Ago(hours, Hour)
        else
          var days := hours / 24;
          if days < 7 then Ago(days, Day)
          else
            var weeks := days / 7;
            if weeks < 4 then Ago(weeks, Week)
            else
              var months := days / 30;
              if months < 12 then Ago(months, Month)
              else Ago(days / 365, Year)
  }

  function UnitName(u: TimeUnit): string
  {
    match u
    case Minute => "minute"
    case Hour => "hour"
    case Day => "day"
    case Week => "week"
    case Month => "month"
    case Year => "year"
  }

  /** The length of one unit in seconds (a month is 30 days, a year 365). */
  function UnitSeconds(u: TimeUnit): nat
  {
    match u
    case Minute => 60
    case Hour => 3600
    case Day => 86400
    case Week => 604800
    case Month => 2592000
    case Year => 31536000
  }

  /** `formatRelativeTime(date)`, where `past` is the time of
      `new Date(date)` in milliseconds, or `None` for an invalid date. An
      invalid date fails every comparison of the cascade, so its count is
      `NaN` years. */
  function FormatRelativeTime(nowMs: int, past: Option<int>): (r: string)
    ensures past.None? ==> r == "NaN years ago"
    ensures past.Some? ==> (r == "just now" <==> RelativeOf(nowMs, past.value) == JustNow)
    ensures past.Some? && RelativeOf(nowMs, past.value).Ago? ==>
      var a := RelativeOf(nowMs, past.value);
      r == NatToString(a.count) + " " + UnitName(a.unit) + (if a.count == 1 then "" else "s") + " ago"
  {
    match past
    case None => "NaN years ago"
    case Some(pastMs) =>
      match RelativeOf(nowMs, pastMs)
      case JustNow => "just now"
      case Ago(n, u) =>
        var text := NatToString(n) + " " + UnitName(u) + (if n == 1 then "" else "s") + " ago";
        assert text[0] == NatToString(n)[0] != 'j';
        text
  }

  /** The unit is picked by fixed thresholds on the elapsed seconds (anything
      under a minute, the future included, is "just now"; months start at 28
      days and years at 360), and the count is the elapsed time in that unit,
      rounded down. */
  lemma RelativeThresholds(nowMs: int, pastMs: int)
    ensures var d, r := ElapsedSeconds(nowMs, pastMs), RelativeOf(nowMs, pastMs);
      && (r == JustNow <==> d < 60)
      && (r.Ago? && r.unit == Minute <==> 60 <= d < 3600)
      && (r.Ago? && r.unit == Hour <==> 3600 <= d < 86400)
      && (r.Ago? && r.unit == Day <==> 86400 <= d < 604800)
      && (r.Ago? && r.unit == Week <==> 604800 <= d < 2419200)
      && (r.Ago? && r.unit == Month <==> 2419200 <= d < 31104000)
      && (r.Ago? && r.unit == Year <==> 31104000 <= d)
      && (r.Ago? ==> r.count == d / UnitSeconds(r.unit))
  {
    var d := ElapsedSeconds(nowMs, pastMs);
    if d >= 60 {
      assert d / 60 / 60 == d / 3600;
      assert d / 60 / 60 / 24 == d / 86400;
      assert d / 86400 / 7 == d / 604800;
      assert d / 86400 / 30 == d / 2592000;
      assert d / 86400 / 365 == d / 31536000;
    }
  }

  /** Because weeks stop at four and months start from the days, 28 and 29
      days read "0 months ago"; because months stop at twelve thirty-day
      months, 360 to 364 days read "0 years ago". No other count is zero. */
  lemma ZeroCounts(nowMs: int, pastMs: int)
    ensures var d, r := ElapsedSeconds(nowMs, pastMs), RelativeOf(nowMs, pastMs);
      r.Ago? && r.count == 0 <==> 2419200 <= d < 2592000 || 31104000 <= d < 31536000
  {
    RelativeThresholds(nowMs, pastMs);
  }

  /** The unit is written in the plural exactly when the count is not one. */
  lemma PluralUnlessOne(nowMs: int, pastMs: int)
    requires RelativeOf(nowMs, pastMs).Ago?
    ensures var r, text := RelativeOf(nowMs, pastMs), FormatRelativeTime(nowMs, Some(pastMs));
      |text| >= 5 && (text[|text| - 5..] == "s ago" <==> r.count != 1)
  {
    var r := RelativeOf(nowMs, pastMs);
    var head := NatToString(r.count) + " " + UnitName(r.unit);
    var text := FormatRelativeTime(nowMs, Some(pastMs));
    assert head[|head| - 1] != 's';
    if r.count == 1 {
      assert text == head + " ago";
      assert text[|text| - 5] == head[|head| - 1];
    } else {
      assert text == head + "s" + " ago";
      assert text[|text| - 5..] == "s" + " ago";
    }
  }

  // ---------------------------------------------------------------------
  // Truncation

  /** `truncateText(text, maxLength)`: text within the limit is returned as
      it is; longer text is cut to `maxLength` characters (none when the
      limit is negative), trimmed, and followed by `...`. */
  function TruncateText(text: string, maxLength: int): (r: string)
    ensures |text| <= maxLength ==> r == text
  {
    if |text| <= maxLength then text
    else
      var cut := if maxLength < 0 then 0 else maxLength;
      Trim(text[..cut]) + "..."
  }

  /** A truncated text is its first `maxLength` characters, trimmed of the
      white space at both ends (so a slice of the text between white-space
      runs, as `Text.TrimBounds` states), followed by the three dots; it is at
      most three characters longer than the limit. */
  lemma TruncatedShape(text: string, maxLength: int)
    requires |text| > maxLength
    ensures var r, cut := TruncateText(text, maxLength), if maxLength < 0 then 0 else maxLength;
      && r == Trim(text[..cut]) + "..."
      && |r| <= cut + 3
      && (|r| > 3 ==> !IsSpace(r[0]) && !IsSpace(r[|r| - 4]))
  {
    var cut := if maxLength < 0 then 0 else maxLength;
    var body := Trim(text[..cut]);
    var r := TruncateText(text, maxLength);
    assert r == body + "...";
    if body != [] {
      assert r[0] == body[0] && r[|r| - 4] == body[|body| - 1];
    }
  }

  // ---------------------------------------------------------------------
  // E-mail addresses

  /** A character of the class `[^\s@]`. */
  predicate EmailChar(c: char)
  {
    !IsSpace(c) && c != '@'
  }

  predicate AllEmailChars(s: string)
  {
    forall i :: 0 <= i < |s| ==> EmailChar(s[i])
  }

  /** The domain has a dot that is neither its first nor its last
      character. */
  predicate HasInnerDot(domain: string)
  {
    exists k :: 0 < k < |domain| - 1 && domain[k] == '.'
  }

  /** `isValidEmail(email)`: the whole text matches `^[^\s@]+@[^\s@]+\.[^\s@]+$`,
      that is, it is three non-empty runs of `[^\s@]` joined by an `@` and a
      dot. Equivalently: no white space, exactly one `@` with a non-empty
      local part before it, and a dot inside the domain after it. */
  function IsValidEmail(s: string): (r: bool)
    ensures r <==>
      var parts := Split(s, '@');
      && (forall i :: 0 <= i < |s| ==> !IsSpace(s[i]))
      && |parts| == 2 && parts[0] != "" && HasInnerDot(parts[1])
  {
    EmailPatternIff(s);
    exists a, d :: 0 < a < |s| && a + 1 < d < |s| - 1 && EmailMatchAt(s, a, d)
  }

  /** The pattern matched with the `@` at `a` and the dot at `d`. */
  predicate EmailMatchAt(s: string, a: int, d: int)
    requires 0 < a < |s| && a + 1 < d < |s| - 1
  {
    && s[a] == '@' && s[d] == '.'
    && AllEmailChars(s[..a]) && AllEmailChars(s[a + 1..d]) && AllEmailChars(s[d + 1..])
  }

  lemma EmailPatternIff(s: string)
    ensures (exists a, d :: 0 < a < |s| && a + 1 < d < |s| - 1 && EmailMatchAt(s, a, d)) <==>
      var parts := Split(s, '@');
      && (forall i :: 0 <= i < |s| ==> !IsSpace(s[i]))
      && |parts| == 2 && parts[0] != "" && HasInnerDot(parts[1])
  {
    if exists a, d :: 0 < a < |s| && a + 1 < d < |s| - 1 && EmailMatchAt(s, a, d) {
      var a, d :| 0 < a < |s| && a + 1 < d < |s| - 1 && EmailMatchAt(s, a, d);
      EmailMatchFacts(s, a, d);
    }
    if EmailShape(s) {
      EmailShapeMatches(s);
    }
  }

  /** No white space, one `@` after a non-empty local part, and a domain
      with an inner dot. */
  predicate EmailShape(s: string)
  {
    var parts := Split(s, '@');
    && (forall i :: 0 <= i < |s| ==> !IsSpace(s[i]))
    && |parts| == 2 && parts[0] != "" && HasInnerDot(parts[1])
  }

  /** An address of that shape matches, at its `@` and its inner dot. */
  lemma EmailShapeMatches(s: string)
    requires EmailShape(s)
    ensures exists a, d :: 0 < a < |s| && a + 1 < d < |s| - 1 && EmailMatchAt(s, a, d)
  {
    var parts := Split(s, '@');
    JoinSplit(s, '@');
    var k :| 0 < k < |parts[1]| - 1 && parts[1][k] == '.';
    var a, d := |parts[0]|, |parts[0]| + 1 + k;
    assert s == parts[0] + "@" + parts[1];
    EmailSplitMatch(s, parts[0], parts[1], k);
    assert EmailMatchAt(s, a, d);
  }

  /** A match splits at its `@` into the local part and a domain with an
      inner dot, and holds no white space. */
  lemma EmailMatchFacts(s: string, a: int, d: int)
    requires 0 < a < |s| && a + 1 < d < |s| - 1 && EmailMatchAt(s, a, d)
    ensures var parts := Split(s, '@');
      && (forall i :: 0 <= i < |s| ==> !IsSpace(s[i]))
      && |parts| == 2 && parts[0] != "" && HasInnerDot(parts[1])
  {
    var local, domain := s[..a], s[a + 1..];
    assert s == local + ['@'] + domain;
    forall i | 0 <= i < |s|
      ensures !IsSpace(s[i])
    {
      if i < a {
        assert s[i] == local[i];
      } else if a < i < d {
        assert s[i] == s[a + 1..d][i - a - 1];
      } else if d < i {
        assert s[i] == s[d + 1..][i - d - 1];
      }
    }
    assert '@' !in local by {
      forall i | 0 <= i < |local|
        ensures local[i] != '@'
      {
        assert EmailChar(local[i]);
      }
    }
    assert '@' !in domain by {
      forall i | 0 <= i < |domain|
        ensures domain[i] != '@'
      {
        if i < d - a - 1 {
          assert domain[i] == s[a + 1..d][i];
        } else if i > d - a - 1 {
          assert domain[i] == s[d + 1..][i - (d - a)];
        }
      }
    }
    SplitPiece(local, '@', domain);
    SplitNone(domain, '@');
    assert domain[d - a - 1] == '.';
  }

  /** The converse: a local part, an `@` and a domain with a dot at `k`,
      none holding an `@` and the whole holding no white space, match the
      pattern. */
  lemma EmailSplitMatch(s: string, local: string, domain: string, k: int)
    requires s == local + "@" + domain && local != []
    requires '@' !in local && '@' !in domain
    requires 0 < k < |domain| - 1 && domain[k] == '.'
    requires forall i :: 0 <= i < |s| ==> !IsSpace(s[i])
    ensures 0 < |local| < |s| && |local| + 1 < |local| + 1 + k < |s| - 1
    ensures EmailMatchAt(s, |local|, |local| + 1 + k)
  {
    var a, d := |local|, |local| + 1 + k;
    assert s[..a] == local;
    assert s[a + 1..d] == domain[..k];
    assert s[d + 1..] == domain[k + 1..];
    var mid, tail := s[a + 1..d], s[d + 1..];
    forall i | 0 <= i < a
      ensures EmailChar(local[i])
    {
      assert s[i] == local[i];
    }
    forall i | 0 <= i < |mid|
      ensures EmailChar(mid[i])
    {
      assert s[a + 1 + i] == mid[i] == domain[i];
    }
    forall i | 0 <= i < |tail|
      ensures EmailChar(tail[i])
    {
      assert s[d + 1 + i] == tail[i] == domain[k + 1 + i];
    }
  }

  // ---------------------------------------------------------------------
  // Reading time

  /** `Math.ceil(text.split(' ').length / 200)`. */
  function ReadingMinutes(text: string): (n: nat)
    ensures n >= 1
    ensures 200 * (n - 1) < |Split(text, ' ')| <= 200 * n
  {
    (|Split(text, ' ')| + 199) / 200
  }

  /** A split on a character has one piece more than the text has of that
      character. */
  lemma {:induction false} SplitCount(s: string, c: char)
    ensures |Split(s, c)| == Count(s, c) + 1
    decreases |s|
  {
    if s != [] {
      SplitCount(s[1..], c);
    }
  }

  /** `calculateReadingTime(text)`: both branches of the source write the
      number followed by " min read", so the one-minute special case gives
      the same text as the general one. */
  function CalculateReadingTime(text: string): (r: string)
    ensures r == NatToString(ReadingMinutes(text)) + " min read"
  {
    var n := ReadingMinutes(text);
    if n == 1 then
      assert NatToString(1) == "1";
      "1 min read"
    else NatToString(n) + " min read"
  }

  /** The minutes count the spaces: one minute per started block of 200
      words, a word being a piece between single spaces; the text is
      `"1 min read"` exactly for one minute. */
  lemma ReadingTimeFacts(text: string)
    ensures var n := ReadingMinutes(text);
      200 * (n - 1) < Count(text, ' ') + 1 <= 200 * n
    ensures CalculateReadingTime(text) == "1 min read" <==> ReadingMinutes(text) == 1
  {
    SplitCount(text, ' ');
    MinReadOne(ReadingMinutes(text));
  }

  lemma MinReadOne(n: nat)
    ensures NatToString(n) + " min read" == "1 min read" <==> n == 1
  {
    NatToStringOne(n);
    var digits := NatToString(n);
    if digits + " min read" == "1 min read" {
      assert |digits| == 1;
      assert digits == (digits + " min read")[..1];
    }
  }

  // ---------------------------------------------------------------------
  // Sentiment maps

  const PositiveColor := "text-green-600 bg-green-50 border-green-200"
  const NegativeColor := "text-red-600 bg-red-50 border-red-200"
  const NeutralColor := "text-gray-600 bg-gray-50 border-gray-200"

  /** `getSentimentColor(sentiment)`. */
  function SentimentColor(sentiment: JsValue): (r: string)
    ensures sentiment == Str("positive") ==> r == PositiveColor
    ensures sentiment == Str("negative") ==> r == NegativeColor
  {
    match sentiment
    case Str(s) =>
      if s == "positive" then PositiveColor
      else if s == "negative" then NegativeColor
      else NeutralColor
    case _ => NeutralColor
  }

  /** The emoji literals as the source file spells them: the UTF-8 bytes of
      a smiling, a pensive and a neutral face read back as Windows-1252
      text. The neutral face's last byte has no Windows-1252 character, so
      its literal is only the three characters the other two start with. */
  const PositiveEmoji := "\U{F0}\U{178}\U{2DC}\U{160}"
  const NegativeEmoji := "\U{F0}\U{178}\U{2DC}\U{201D}"
  const NeutralEmoji := "\U{F0}\U{178}\U{2DC}"

  /** `getSentimentEmoji(sentiment)`. */
  function SentimentEmoji(sentiment: JsValue): (r: string)
    ensures sentiment == Str("positive") ==> r == PositiveEmoji
    ensures sentiment == Str("negative") ==> r == NegativeEmoji
  {
    match sentiment
    case Str(s) =>
      if s == "positive" then PositiveEmoji
      else if s == "negative" then NegativeEmoji
      else NeutralEmoji
    case _ => NeutralEmoji
  }

  /** Only the two strings `positive` and `negative` get their own colour
      and emoji; every other value, `neutral`, other strings and
      non-strings alike, gets the neutral pair, and the two maps agree on
      which values those are. */
  lemma SentimentFallback(sentiment: JsValue)
    ensures var named := sentiment == Str("positive") || sentiment == Str("negative");
      && (SentimentColor(sentiment) == NeutralColor <==> !named)
      && (SentimentEmoji(sentiment) == NeutralEmoji <==> !named)
  {
    assert PositiveColor[5] == 'g' && NegativeColor[5] == 'r' && NeutralColor[5] == 'g';
    assert PositiveColor[6] == 'r' && NeutralColor[6] == 'r' && PositiveColor[7] == 'e' && NeutralColor[7] == 'a';
    assert |PositiveEmoji| != |NeutralEmoji| && |NegativeEmoji| != |NeutralEmoji|;
  }

  // ---------------------------------------------------------------------
  // groupBy, pick and omit

  /** The value each item holds under `key` (`undefined` when missing). */
  function KeyValues(items: seq<Fields>, key: string): (vs: seq<JsValue>)
    ensures |vs| == |items| && forall i :: 0 <= i < |items| ==> vs[i] == Get(items[i], key)
  {
    seq(|items|, i requires 0 <= i < |items| => Get(items[i], key))
  }

  /** Whether an item holds `v` under `key`. */
  function Holds(key: string, v: JsValue): Fields -> bool
  {
    (x: Fields) => Get(x, key) == v
  }

  /** The groups with `item` pushed onto the group of `v`, which is created
      empty when missing. */
  function Pushed(groups: map<JsValue, seq<Fields>>, v: JsValue, item: Fields): map<JsValue, seq<Fields>>
  {
    groups[v := (if v in groups then groups[v] else []) + [item]]
  }

  /** The groups `reduce` builds, item by item from the left. */
  function Grouped(items: seq<Fields>, key: string): map<JsValue, seq<Fields>>
    decreases |items|
  {
    if items == [] then map[]
    else
      var last := items[|items| - 1];
      Pushed(Grouped(items[..|items| - 1], key), Get(last, key), last)
  }

  /** `groupBy(array, key)`: each item is pushed onto the group of its
      value. */
  method GroupBy(items: seq<Fields>, key: string) returns (groups: map<JsValue, seq<Fields>>)
    ensures groups == Grouped(items, key)
  {
    groups := map[];
    var i := 0;
    while i < |items|
      invariant 0 <= i <= |items|
      invariant groups == Grouped(items[..i], key)
    {
      var item := items[i];
      var v := Get(item, key);
      if v !in groups {
        groups := groups[v := []];
      }
      groups := groups[v := groups[v] + [item]];
      assert items[..i + 1][..i] == items[..i];
      i := i + 1;
    }
    assert items[..|items|] == items;
  }

  /** No item of a sequence satisfies `p`: filtering gives nothing. */
  lemma FilterNone<T(!new)>(s: seq<T>, p: T -> bool)
    requires forall i :: 0 <= i < |s| ==> !p(s[i])
    ensures Filter(s, p) == []
  {
  }

  /** There is one group per value found under `key`, and it holds exactly
      the items with that value, in input order. */
  lemma {:induction false} GroupedIsFilter(items: seq<Fields>, key: string)
    ensures forall v :: v in Grouped(items, key) <==> v in KeyValues(items, key)
    ensures forall v :: v in Grouped(items, key) ==> Grouped(items, key)[v] == Filter(items, Holds(key, v))
    decreases |items|
  {
    if items != [] {
      var front, last := items[..|items| - 1], items[|items| - 1];
      var v := Get(last, key);
      GroupedIsFilter(front, key);
      var g, g' := Grouped(front, key), Grouped(items, key);
      assert items == front + [last];
      assert KeyValues(items, key) == KeyValues(front, key) + [v];
      forall w | w in g'
        ensures g'[w] == Filter(items, Holds(key, w))
      {
        FilterAppend(front, [last], Holds(key, w));
        if w == v && v !in g {
          forall i | 0 <= i < |front|
            ensures !Holds(key, v)(front[i])
          {
            assert KeyValues(front, key)[i] == Get(front[i], key);
          }
          FilterNone(front, Holds(key, v));
        }
      }
    }
  }

  /** Every item is in the group of its value. */
  lemma GroupedCovers(items: seq<Fields>, key: string)
    ensures var g := Grouped(items, key);
      forall i :: 0 <= i < |items| ==> Get(items[i], key) in g && items[i] in g[Get(items[i], key)]
  {
    GroupedIsFilter(items, key);
    var g := Grouped(items, key);
    forall i | 0 <= i < |items|
      ensures Get(items[i], key) in g && items[i] in g[Get(items[i], key)]
    {
      assert KeyValues(items, key)[i] == Get(items[i], key);
    }
  }

  /** Every group is non-empty, keeps the input order, and holds only items
      with the group's value. */
  lemma GroupedMembers(items: seq<Fields>, key: string)
    ensures var g := Grouped(items, key);
      forall v :: v in g ==> g[v] != [] && IsSubseq(g[v], items) && forall x :: x in g[v] ==> Get(x, key) == v
  {
    GroupedIsFilter(items, key);
    var g := Grouped(items, key);
    forall v | v in g
      ensures g[v] != [] && IsSubseq(g[v], items) && forall x :: x in g[v] ==> Get(x, key) == v
    {
      var group := Filter(items, Holds(key, v));
      assert g[v] == group;
      var i :| 0 <= i < |items| && KeyValues(items, key)[i] == v;
      assert items[i] in group;
      forall x | x in group
        ensures Get(x, key) == v
      {
        assert Holds(key, v)(x);
      }
    }
  }

  /** The keys of `obj` listed in `keys`, with their values. */
  function Picked(obj: Fields, keys: seq<string>): Fields
  {
    map k | k in obj && k in keys :: obj[k]
  }

  /** The keys of `obj` not listed in `keys`, with their values. */
  function Omitted(obj: Fields, keys: seq<string>): Fields
  {
    map k | k in obj && k !in keys :: obj[k]
  }

  /** `pick(obj, keys)`: copies each listed key the object has. */
  method Pick(obj: Fields, keys: seq<string>) returns (picked: Fields)
    ensures picked == Picked(obj, keys)
  {
    picked := map[];
    var i := 0;
    while i < |keys|
      invariant 0 <= i <= |keys|
      invariant picked == Picked(obj, keys[..i])
    {
      var key := keys[i];
      assert keys[..i + 1] == keys[..i] + [key];
      if key in obj {
        picked := picked[key := obj[key]];
      }
      i := i + 1;
    }
    assert keys[..|keys|] == keys;
  }

  /** `omit(obj, keys)`: deletes each listed key from a copy; the object
      itself, a value here, is not changed. */
  method Omit(obj: Fields, keys: seq<string>) returns (result: Fields)
    ensures result == Omitted(obj, keys)
  {
    result := obj;
    var i := 0;
    while i < |keys|
      invariant 0 <= i <= |keys|
      invariant result == Omitted(obj, keys[..i])
    {
      var key := keys[i];
      assert keys[..i + 1] == keys[..i] + [key];
      result := result - {key};
      i := i + 1;
    }
    assert keys[..|keys|] == keys;
  }

  /** `pick` and `omit` with the same keys split the object: their key sets
      are disjoint and together they give the object back. Omitting nothing
      copies the object, and picking nothing gives the empty object. */
  lemma PickOmitSplit(obj: Fields, keys: seq<string>)
    ensures Picked(obj, keys).Keys !! Omitted(obj, keys).Keys
    ensures Picked(obj, keys) + Omitted(obj, keys) == obj
    ensures Omitted(obj, []) == obj && Picked(obj, []) == map[]
  {
    var both := Picked(obj, keys) + Omitted(obj, keys);
    assert both.Keys == obj.Keys;
  }
}
