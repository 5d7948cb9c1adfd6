/** Post-processing of OCR results: the chain of regular-expression
    replacements that cleans recognised text, the ordered quality check, the
    input checks before recognition, the decision of the image-to-memory
    step, and the supported image types. The OCR engine itself is a
    parameter: its reply, or the error it throws. Regular expressions are
    written out as functions over the characters; `\s` and `\w` are the
    character classes of `Text`. */
module Ocr {
  import opened Js
  import opened Seqs
  import opened Text

  // ---------------------------------------------------------------------
  // The cleanup chain

  /** The punctuation the artifact filter keeps besides `\w` and `\s`. */
  predicate KeptPunctuation(c: char)
  {
    c == '.' || c == ',' || c == '!' || c == '?' || c == ';' || c == ':' || c == '(' || c == ')'
    || c == '-' || c == '\'' || c == '"' || c == '@' || c == '#' || c == '$' || c == '%' || c == '&'
    || c == '*' || c == '+' || c == '=' || c == '<' || c == '>' || c == '[' || c == ']' || c == '{'
    || c == '}' || c == '/'
  }

  /** A character the artifact filter keeps. */
  predicate Kept(c: char)
  {
    IsWordChar(c) || IsSpace(c) || KeptPunctuation(c)
  }

  /** The class `[.,!?;:]`. */
  predicate Stop(c: char)
  {
    c == '.' || c == ',' || c == '!' || c == '?' || c == ';' || c == ':'
  }

  /** Every white-space character is a plain space and no two spaces are
      adjacent. */
  predicate SingleSpaced(s: string)
  {
    && (forall i :: 0 <= i < |s| && IsSpace(s[i]) ==> s[i] == ' ')
    && (forall i, j :: 0 <= i < |s| && 0 <= j < |s| && j == i + 1 ==> !(s[i] == ' ' && s[j] == ' '))
  }

  /** The text without its leading run of white space. */
  function SkipSpace(s: string): (r: string)
    ensures |r| <= |s| && r == s[|s| - |r|..]
    ensures r != [] ==> !IsSpace(r[0])
    ensures s != [] && IsSpace(s[0]) ==> |r| < |s|
  {
    if s != [] && IsSpace(s[0]) then SkipSpace(s[1..]) else s
  }

  /** `.replace(/\s+/g, ' ')`: every run of white space becomes one space. */
  function CollapseSpace(s: string): (r: string)
    ensures r == [] <==> s == []
    ensures r != [] ==> (r[0] == ' ' <==> IsSpace(s[0])) && (IsSpace(r[0]) <==> IsSpace(s[0]))
    ensures SingleSpaced(r)
    ensures forall c :: c in r ==> c == ' ' || (c in s && !IsSpace(c))
    decreases |s|
  {
    if s == [] then []
    else if IsSpace(s[0]) then
      var rest := SkipSpace(s[1..]);
      assert forall c :: c in rest ==> c in s;
      var tail := CollapseSpace(rest);
      SpacedCons(' ', tail);
      [' '] + tail
    else
      var rest := CollapseSpace(s[1..]);
      SpacedCons(s[0], rest);
      [s[0]] + rest
  }

  /** A character that is not white space. */
  predicate NonSpace(c: char) { !IsSpace(c) }

  /** Skipping white space leaves the other characters as they were. */
  lemma {:induction false} SkipSpaceKeepsText(s: string)
    ensures Filter(SkipSpace(s), NonSpace) == Filter(s, NonSpace)
    decreases |s|
  {
    if s != [] && IsSpace(s[0]) {
      SkipSpaceKeepsText(s[1..]);
    }
  }

  /** Collapsing white space keeps every other character, in order: with the
      white space removed, the result and the text are the same. */
  lemma {:induction false} CollapseKeepsText(s: string)
    ensures Filter(CollapseSpace(s), NonSpace) == Filter(s, NonSpace)
    decreases |s|
  {
    if s == [] {
    } else if IsSpace(s[0]) {
      var rest := SkipSpace(s[1..]);
      SkipSpaceKeepsText(s[1..]);
      CollapseKeepsText(rest);
      assert CollapseSpace(s) == [' '] + CollapseSpace(rest);
    } else {
      CollapseKeepsText(s[1..]);
      assert CollapseSpace(s) == [s[0]] + CollapseSpace(s[1..]);
    }
  }

  /** A character in front of single-spaced text keeps it single-spaced
      unless it makes a second space or is other white space. */
  lemma SpacedCons(c: char, s: string)
    requires SingleSpaced(s)
    requires IsSpace(c) ==> c == ' ' && (s == [] || s[0] != ' ')
    ensures SingleSpaced([c] + s)
  {
    var r := [c] + s;
    forall i, j | 0 <= i && j == i + 1 && j < |r|
      ensures !(r[i] == ' ' && r[j] == ' ')
    {
      if i > 0 {
        assert r[i] == s[i - 1] && r[j] == s[i];
      }
    }
  }

  /** `.replace(/[^\w\s.,!?;:()\-'"@#$%&*+=<>[\]{}\/]/g, '')`: only the kept
      characters remain, in order. */
  function RemoveArtifacts(s: string): (r: string)
    ensures forall c :: c in r <==> c in s && Kept(c)
  {
    Filter(s, Kept)
  }

  /** `\b` on both sides of position `i`, which holds a word character. */
  predicate Standalone(s: string, i: int)
    requires 0 <= i < |s|
  {
    (i == 0 || !IsWordChar(s[i - 1])) && (i == |s| - 1 || !IsWordChar(s[i + 1]))
  }

  /** `.replace(/\bd\b/g, into)` for a single character `d`: every `d` that
      stands alone becomes `into`. */
  function ReplaceStandalone(s: string, d: char, into: char): (r: string)
    ensures |r| == |s|
    ensures forall i :: 0 <= i < |s| ==> r[i] == if s[i] == d && Standalone(s, i) then into else s[i]
  {
    seq(|s|, i requires 0 <= i < |s| => if s[i] == d && Standalone(s, i) then into else s[i])
  }

  /** `r` directly followed by `n` at position `i`. */
  predicate RnAt(s: string, i: int)
  {
    0 <= i && i + 1 < |s| && s[i] == 'r' && s[i + 1] == 'n'
  }

  /** `.replace(/rn/g, 'm')`, left to right without overlap: no `rn` is
      left, and text without one is unchanged. */
  function ReplaceRn(s: string): (r: string)
    ensures forall c :: c in r ==> c in s || c == 'm'
    ensures (s == []) == (r == [])
    ensures r != [] && r[0] == 'n' ==> s[0] == 'n'
    ensures forall i :: !RnAt(r, i)
    ensures (forall i :: !RnAt(s, i)) ==> r == s
    decreases |s|
  {
    if s == [] then []
    else if |s| >= 2 && s[0] == 'r' && s[1] == 'n' then
      var tail := ReplaceRn(s[2..]);
      assert RnAt(s, 0);
      assert forall i :: RnAt(['m'] + tail, i) ==> i > 0 && RnAt(tail, i - 1);
      ['m'] + tail
    else
      var tail := ReplaceRn(s[1..]);
      assert forall i :: RnAt(s[1..], i) ==> RnAt(s, i + 1);
      assert forall i :: RnAt([s[0]] + tail, i) ==> i > 0 && RnAt(tail, i - 1);
      [s[0]] + tail
  }

  /** `.replace(/\|/g, 'l')`. */
  function ReplacePipe(s: string): (r: string)
    ensures |r| == |s|
    ensures forall i :: 0 <= i < |s| ==> r[i] == if s[i] == '|' then 'l' else s[i]
  {
    seq(|s|, i requires 0 <= i < |s| => if s[i] == '|' then 'l' else s[i])
  }

  /** The text without its leading run of `[.,!?;:]`. */
  function SkipStops(s: string): (r: string)
    ensures |r| <= |s| && forall c :: c in r ==> c in s
    ensures r != [] ==> !Stop(r[0])
  {
    if s != [] && Stop(s[0]) then SkipStops(s[1..]) else s
  }

  predicate NotStop(c: char) { !Stop(c) }

  /** Skipping stops keeps every other character. */
  lemma {:induction false} SkipStopsKeepsText(s: string)
    ensures Filter(SkipStops(s), NotStop) == Filter(s, NotStop)
    decreases |s|
  {
    if s != [] && Stop(s[0]) {
      SkipStopsKeepsText(s[1..]);
    }
  }

  /** `.replace(/[.,!?;:]{2,}/g, m => m[0])`: every run of stops keeps only
      its first character, and every other character is kept in order. */
  function DedupStops(s: string): (r: string)
    ensures forall c :: c in r ==> c in s
    ensures Filter(r, NotStop) == Filter(s, NotStop)
    ensures forall i, j :: 0 <= i && j == i + 1 && j < |r| ==> !(Stop(r[i]) && Stop(r[j]))
    ensures s == [] ==> r == []
    ensures s != [] ==> r != [] && r[0] == s[0]
    decreases |s|
  {
    if s == [] then []
    else if Stop(s[0]) then
      var rest := SkipStops(s[1..]);
      var tail := DedupStops(rest);
      assert forall c :: c in tail ==> c in s;
      SkipStopsKeepsText(s[1..]);
      assert ([s[0]] + tail)[1..] == tail;
      [s[0]] + tail
    else
      var tail := DedupStops(s[1..]);
      assert ([s[0]] + tail)[1..] == tail;
      [s[0]] + tail
  }

  predicate NotPlainSpace(c: char) { c != ' ' }

  /** A stop directly followed by a word character at position `i`. */
  predicate StopBeforeWord(s: string, i: int)
  {
    0 <= i && i + 1 < |s| && Stop(s[i]) && IsWordChar(s[i + 1])
  }

  /** `.replace(/([.,!?;:])(\w)/g, '$1 $2')`: a space between a stop and a
      word character that follows it. Only spaces are added;
      `SpaceAfterStopsFacts` states that no other character is lost and
      that afterwards no stop is directly followed by a word character. */
  function SpaceAfterStops(s: string): (r: string)
    ensures forall c :: c in r ==> c in s || c == ' '
    ensures (s == []) == (r == []) && (r != [] ==> r[0] == s[0])
    decreases |s|
  {
    if s == [] then []
    else if |s| >= 2 && Stop(s[0]) && IsWordChar(s[1]) then
      [s[0], ' ', s[1]] + SpaceAfterStops(s[2..])
    else
      [s[0]] + SpaceAfterStops(s[1..])
  }

  /** The spacing pass keeps every character other than a space, in order,
      and leaves no stop directly followed by a word character. */
  lemma {:induction false} SpaceAfterStopsFacts(s: string)
    ensures Filter(SpaceAfterStops(s), NotPlainSpace) == Filter(s, NotPlainSpace)
    ensures forall i :: !StopBeforeWord(SpaceAfterStops(s), i)
    decreases |s|
  {
    if s == [] {
    } else if |s| >= 2 && Stop(s[0]) && IsWordChar(s[1]) {
      var tail := SpaceAfterStops(s[2..]);
      SpaceAfterStopsFacts(s[2..]);
      assert s == [s[0], s[1]] + s[2..];
      SpacedPairKeepsText(s[0], s[1], tail, s[2..]);
      SpacedPairSeparates(s[0], s[1], tail);
    } else {
      var tail := SpaceAfterStops(s[1..]);
      SpaceAfterStopsFacts(s[1..]);
      ConsSeparates(s[0], tail);
      assert ([s[0]] + tail)[1..] == tail;
    }
  }

  /** A character in front of text with no stop before a word character
      keeps it so, unless it is a stop and the text starts with a word
      character. */
  lemma ConsSeparates(a: char, t: string)
    requires forall i :: !StopBeforeWord(t, i)
    requires t != [] ==> !(Stop(a) && IsWordChar(t[0]))
    ensures forall i :: !StopBeforeWord([a] + t, i)
  {
    var r := [a] + t;
    forall i
      ensures !StopBeforeWord(r, i)
    {
      if i >= 1 && i + 1 < |r| {
        assert r[i] == t[i - 1] && r[i + 1] == t[i];
        assert !StopBeforeWord(t, i - 1);
      }
    }
  }

  /** Putting a space between two characters that are not spaces leaves
      the text without spaces as it was. */
  lemma SpacedPairKeepsText(a: char, b: char, t: string, u: string)
    requires a != ' ' && b != ' '
    requires Filter(t, NotPlainSpace) == Filter(u, NotPlainSpace)
    ensures Filter([a, ' ', b] + t, NotPlainSpace) == Filter([a, b] + u, NotPlainSpace)
  {
    FilterAppend([a, ' ', b], t, NotPlainSpace);
    FilterAppend([a, b], u, NotPlainSpace);
    assert [a, ' ', b][1..][1..] == [b];
    assert [a, b][1..] == [b];
  }

  /** A stop, a space and a word character in front of text with no stop
      before a word character keep it so. */
  lemma SpacedPairSeparates(a: char, b: char, t: string)
    requires IsWordChar(b)
    requires forall i :: !StopBeforeWord(t, i)
    ensures forall i :: !StopBeforeWord([a, ' ', b] + t, i)
  {
    var r := [a, ' ', b] + t;
    forall i
      ensures !StopBeforeWord(r, i)
    {
      if i >= 3 && i + 1 < |r| {
        assert r[i] == t[i - 3] && r[i + 1] == t[i - 2];
        assert !StopBeforeWord(t, i - 3);
      } else if i == 2 {
        assert r[2] == b;
      }
    }
  }

  /** A letter matched by `/\b[a-z]\b/gi` that the callback removes: every
      lone letter except `i` and `a` in either case. */
  predicate Stray(s: string, i: int)
    requires 0 <= i < |s|
  {
    IsAsciiLetter(s[i]) && Standalone(s, i) && LowerChar(s[i]) != 'i' && LowerChar(s[i]) != 'a'
  }

  /** For each position of `s`, whether its character survives the
      stray-letter pass. */
  function KeepMask(s: string): (m: seq<bool>)
    ensures |m| == |s|
    ensures forall k :: 0 <= k < |s| ==> (m[k] <==> !Stray(s, k))
  {
    seq(|s|, k => 0 <= k < |s| && !Stray(s, k))
  }

  /** The characters from position `i` on that are not stray letters: the
      positions from `i` on selected by the keep mask. */
  function DropStrayFrom(s: string, i: nat): (r: string)
    requires i <= |s|
    ensures forall c :: c in r ==> c in s
    ensures r == Select(s[i..], KeepMask(s)[i..])
    decreases |s| - i
  {
    if i == |s| then []
    else
      var rest := DropStrayFrom(s, i + 1);
      assert s[i..][1..] == s[i + 1..] && KeepMask(s)[i..][1..] == KeepMask(s)[i + 1..];
      (if Stray(s, i) then [] else [s[i]]) + rest
  }

  /** `.replace(/\b[a-z]\b/gi, ...)`: the lone letters other than `i` and
      `a` are removed, and exactly those: the result is the text without
      its `Stray` positions, in order. */
  function DropStrayLetters(s: string): (r: string)
    ensures forall c :: c in r ==> c in s
    ensures r == Select(s, KeepMask(s))
  {
    assert s[0..] == s && KeepMask(s)[0..] == KeepMask(s);
    DropStrayFrom(s, 0)
  }

  /** Text without stray letters passes unchanged. */
  lemma NoStrayUnchanged(s: string)
    requires forall k :: 0 <= k < |s| ==> !Stray(s, k)
    ensures DropStrayLetters(s) == s
  {
    SelectAll(s, KeepMask(s));
  }

  /** The replacements between the two white-space passes, in order. */
  function FixMistakes(s: string): string
  {
    var zeros := ReplaceStandalone(s, '0', 'O');
    var ones := ReplaceStandalone(zeros, '1', 'I');
    DropStrayLetters(SpaceAfterStops(DedupStops(ReplacePipe(ReplaceRn(ones)))))
  }

  /** `cleanupOcrText(rawText)`; a falsy (empty) text gives `''`. */
  function CleanupOcrText(raw: string): string
  {
    if raw == "" then ""
    else Trim(CollapseSpace(FixMistakes(RemoveArtifacts(Trim(CollapseSpace(raw))))))
  }

  /** A character that may appear in cleaned text. */
  predicate CleanChar(c: char)
  {
    IsWordChar(c) || c == ' ' || KeptPunctuation(c)
  }

  /** The fixes only ever insert `O`, `I`, `m`, `l` and spaces, so text of
      kept characters stays so. */
  lemma FixesKeep(s: string)
    requires forall c :: c in s ==> Kept(c)
    ensures forall c :: c in FixMistakes(s) ==> Kept(c)
  {
    var zeros := ReplaceStandalone(s, '0', 'O');
    assert forall c :: c in zeros ==> Kept(c) by {
      forall c | c in zeros
        ensures Kept(c)
      {
        var i :| 0 <= i < |zeros| && zeros[i] == c;
        assert s[i] in s;
      }
    }
    var ones := ReplaceStandalone(zeros, '1', 'I');
    assert forall c :: c in ones ==> Kept(c) by {
      forall c | c in ones
        ensures Kept(c)
      {
        var i :| 0 <= i < |ones| && ones[i] == c;
        assert zeros[i] in zeros;
      }
    }
    var pipes := ReplacePipe(ReplaceRn(ones));
    assert forall c :: c in pipes ==> Kept(c) by {
      forall c | c in pipes
        ensures Kept(c)
      {
        var i :| 0 <= i < |pipes| && pipes[i] == c;
        assert ReplaceRn(ones)[i] in ReplaceRn(ones);
      }
    }
  }

  /** Trimmed text neither starts nor ends with a space. */
  lemma TrimEnds(s: string)
    ensures var r := Trim(s); r != [] ==> r[0] != ' ' && r[|r| - 1] != ' '
  {
    assert IsSpace(' ');
  }

  /** Trimming keeps text single-spaced and draws its characters from the
      text. */
  lemma TrimKeeps(s: string)
    requires SingleSpaced(s)
    ensures SingleSpaced(Trim(s))
    ensures forall c :: c in Trim(s) ==> c in s
  {
    var i, j := TrimBounds(s);
    SliceKeeps(s, i, j);
  }

  /** A slice of single-spaced text is single-spaced. */
  lemma SliceKeeps(s: string, i: nat, j: nat)
    requires SingleSpaced(s) && i <= j <= |s|
    ensures SingleSpaced(s[i..j])
    ensures forall c :: c in s[i..j] ==> c in s
  {
    var r := s[i..j];
    forall k, l | 0 <= k && l == k + 1 && l < |r|
      ensures !(r[k] == ' ' && r[l] == ' ')
    {
      assert r[k] == s[i + k] && r[l] == s[i + l];
    }
  }

  /** Cleaned text has no white space at either end and its only white
      space is single spaces. */
  lemma CleanupSpacing(raw: string)
    ensures TrimmedSpacing(CleanupOcrText(raw))
  {
    if raw == "" {
      assert CleanupOcrText(raw) == [];
    } else {
      var fixed := CleanupUnfold(raw);
      TrimSpacing(CollapseSpace(fixed));
    }
  }

  /** No space at either end, and single spaces only. */
  predicate TrimmedSpacing(r: string)
  {
    && (r != [] ==> r[0] != ' ' && r[|r| - 1] != ' ')
    && SingleSpaced(r)
  }

  /** The last white-space pass of the cleanup, on the fixed text. */
  lemma CleanupUnfold(raw: string) returns (fixed: string)
    requires raw != ""
    ensures fixed == FixMistakes(RemoveArtifacts(Trim(CollapseSpace(raw))))
    ensures CleanupOcrText(raw) == Trim(CollapseSpace(fixed))
  {
    fixed := FixMistakes(RemoveArtifacts(Trim(CollapseSpace(raw))));
  }

  /** Trimming single-spaced text gives text with no space at either end
      that is still single-spaced. */
  lemma TrimSpacing(s: string)
    requires SingleSpaced(s)
    ensures TrimmedSpacing(Trim(s))
  {
    TrimKeeps(s);
    TrimEnds(s);
  }

  /** A kept character that is not white space may appear in cleaned text
      and is not a pipe. */
  lemma KeptIsClean(c: char)
    requires Kept(c) && !IsSpace(c)
    ensures CleanChar(c) && c != '|'
  {
  }

  /** Every character of cleaned text is a word character, a space or kept
      punctuation; in particular no `|` survives. */
  lemma CleanupCharacters(raw: string)
    ensures forall c :: c in CleanupOcrText(raw) ==> CleanChar(c) && c != '|'
  {
    if raw != "" {
      var kept := RemoveArtifacts(Trim(CollapseSpace(raw)));
      FixesKeep(kept);
      var collapsed := CollapseSpace(FixMistakes(kept));
      TrimKeeps(collapsed);
      forall c | c in CleanupOcrText(raw)
        ensures CleanChar(c) && c != '|'
      {
        assert c in collapsed;
        if c != ' ' {
          KeptIsClean(c);
        }
      }
    }
  }

  /** Both white-space passes leave a single non-space character alone. */
  lemma SpacesOneChar(c: char)
    requires !IsSpace(c)
    ensures Trim(CollapseSpace([c])) == [c]
  {
    assert [c][1..] == [];
    assert CollapseSpace([c]) == [c];
    assert TrimStart([c]) == [c];
  }

  /** The passes before the fixes leave a single kept, non-space character
      alone. */
  lemma PrepareOneChar(c: char)
    requires Kept(c) && !IsSpace(c)
    ensures RemoveArtifacts(Trim(CollapseSpace([c]))) == [c]
  {
    SpacesOneChar(c);
    assert Kept([c][0]);
    FilterAll([c], Kept);
  }

  /** The fixes on a single character `d`: a lone `0` becomes `O`, a lone
      `1` becomes `I`, a lone stray letter is dropped. */
  lemma FixOneChar(c: char)
    requires c == '0' || c == '1'
    ensures FixMistakes([c]) == if c == '0' then [] else ['I']
  {
    var zeros := ReplaceStandalone([c], '0', 'O');
    assert zeros == if c == '0' then ['O'] else [c];
    var ones := ReplaceStandalone(zeros, '1', 'I');
    var l := if c == '0' then 'O' else 'I';
    assert ones == [l];
    assert ReplaceRn(ones) == [l];
    assert ReplacePipe([l]) == [l];
    assert DedupStops([l]) == [l];
    assert SpaceAfterStops([l]) == [l];
    assert DropStrayFrom([l], 1) == [];
    assert DropStrayLetters([l]) == if c == '0' then [] else [l];
  }

  /** The passes before the white-space clean-up, on a lone digit. */
  lemma FixedOneDigit(c: char)
    requires c == '0' || c == '1'
    ensures FixMistakes(RemoveArtifacts(Trim(CollapseSpace([c])))) == if c == '0' then [] else ['I']
  {
    PrepareOneChar(c);
    FixOneChar(c);
  }

  /** The digit fixes and the stray-letter pass interact: a lone `0` is
      read as `O` and then dropped as a stray letter, while a lone `1`
      becomes `I` and stays. */
  lemma LoneDigit(c: char)
    requires c == '0' || c == '1'
    ensures CleanupOcrText([c]) == if c == '0' then [] else ['I']
  {
    FixedOneDigit(c);
    var fixed := CleanupUnfold([c]);
    if c == '0' {
      assert CollapseSpace(fixed) == [];
    } else {
      var l := fixed[0];
      assert fixed == [l];
      SpacesOneChar(l);
    }
  }

  // ---------------------------------------------------------------------
  // Words and the quality check

  /** The leading run of non-white-space characters. */
  function TakeWord(s: string): (w: string)
    ensures |w| <= |s| && w == s[..|w|]
    ensures forall i :: 0 <= i < |w| ==> !IsSpace(w[i])
    ensures |w| < |s| ==> IsSpace(s[|w|])
  {
    if s == [] || IsSpace(s[0]) then [] else [s[0]] + TakeWord(s[1..])
  }

  /** A non-empty run of non-white-space characters. */
  predicate IsWord(w: string)
  {
    w != [] && forall i :: 0 <= i < |w| ==> !IsSpace(w[i])
  }

  /** `text.split(/\s+/).filter(word => word.length > 0)`: the maximal runs
      of non-white-space characters, in order. */
  function Words(s: string): seq<string>
    decreases |s|
  {
    var t := SkipSpace(s);
    if t == [] then []
    else
      var w := TakeWord(t);
      [w] + Words(t[|w|..])
  }

  /** Every word is a non-empty run of non-white-space characters. */
  lemma {:induction false} WordsAreWords(s: string)
    ensures forall w :: w in Words(s) ==> IsWord(w)
    decreases |s|
  {
    var t := SkipSpace(s);
    if t != [] {
      var w := TakeWord(t);
      assert IsWord(w);
      WordsAreWords(t[|w|..]);
      assert Words(s) == [w] + Words(t[|w|..]);
    }
  }

  /** A text that starts a word and has no white space is one word. */
  lemma WordsWhole(s: string)
    requires s != [] && TakeWord(s) == s
    ensures Words(s) == [s]
  {
    assert SkipSpace(s) == s;
    assert s[|s|..] == [];
  }

  /** A word followed by one space and more text: the word, then the words
      of the rest. */
  lemma WordsStep(s: string, k: nat)
    requires s != [] && !IsSpace(s[0]) && k == |TakeWord(s)|
    requires k + 1 < |s| && s[k] == ' ' && !IsSpace(s[k + 1])
    ensures Words(s) == [TakeWord(s)] + Words(s[k + 1..])
  {
    assert SkipSpace(s) == s;
    var t := s[k..];
    assert t[1..] == s[k + 1..];
    assert SkipSpace(t) == SkipSpace(s[k + 1..]) == s[k + 1..];
  }

  /** Joining the text before a space to the pieces that join to the text
      after it gives the whole text. */
  lemma JoinStep(s: string, k: nat, ws: seq<string>)
    requires k < |s| && s[k] == ' ' && ws != [] && Join(ws, " ") == s[k + 1..]
    ensures Join([s[..k]] + ws, " ") == s
  {
    assert ([s[..k]] + ws)[1..] == ws;
    assert s[k..] == " " + s[k + 1..];
    assert s == s[..k] + s[k..];
  }

  /** In a trimmed, single-spaced text whose first word is not all of it,
      the word is followed by exactly one space and a trimmed, single-spaced
      rest. */
  lemma WordGap(s: string)
    requires SingleSpaced(s) && s != [] && s[0] != ' ' && s[|s| - 1] != ' '
    requires |TakeWord(s)| < |s|
    ensures var k := |TakeWord(s)|;
      && k + 1 < |s| && s[k] == ' ' && !IsSpace(s[0]) && !IsSpace(s[k + 1])
      && SingleSpaced(s[k + 1..]) && s[k + 1..][0] != ' ' && s[|s| - 1] != ' '
  {
    var k := |TakeWord(s)|;
    assert s[k] == ' ';
    SliceKeeps(s, k + 1, |s|);
    assert s[k + 1..|s|] == s[k + 1..];
  }

  /** The words of a trimmed, single-spaced text, joined by single spaces,
      give the text back. */
  lemma {:induction false} JoinWords(s: string)
    requires SingleSpaced(s)
    requires s != [] ==> s[0] != ' ' && s[|s| - 1] != ' '
    ensures Join(Words(s), " ") == s
    decreases |s|
  {
    if s != [] {
      var w := TakeWord(s);
      if |w| == |s| {
        WordsWhole(s);
      } else {
        var k := |w|;
        WordGap(s);
        var rest := s[k + 1..];
        WordsStep(s, k);
        JoinWords(rest);
        JoinStep(s, k, Words(rest));
      }
    }
  }

  /** Characters of the class `[a-zA-Z0-9]`. */
  function AlnumCount(s: string): (n: nat)
    ensures n <= |s|
  {
    |Filter(s, IsAlnum)|
  }

  /** What `extractTextFromImage` returns: on success the cleaned text, the
      engine's confidence and the counts of words, lines and paragraphs
      (`?.length || 0`); on failure the error, `''` and confidence 0. */
  datatype OcrOutcome = OcrOutcome(
    success: bool, error: string, text: string, confidence: real,
    words: nat, lines: nat, paragraphs: nat)

  /** The outcomes of the quality check, in the order it tries them. */
  datatype Reason = NoText | TooShort | LowConfidence | TooFewWords | TooManySpecial | Valid

  /** The `reason` text of each outcome. */
  function ReasonText(r: Reason): string
  {
    match r
    case NoText => "No text extracted"
    case TooShort => "Text too short"
    case LowConfidence => "Low confidence"
    case TooFewWords => "Too few words"
    case TooManySpecial => "Too many special characters"
    case Valid => "Text appears valid"
  }

  /** The result of `validateOcrText`; `wordCount` and `characterCount` are
      present only on valid text. */
  datatype Validation = Validation(isValid: bool, reason: Reason, confidence: real,
                                   wordCount: Option<nat>, characterCount: Option<nat>)

  /** `validateOcrText(ocrResult)`: the first failing check decides the
      reason. */
  function ValidateOcrText(o: OcrOutcome): (v: Validation)
    ensures v.isValid <==> v.reason == Valid
  {
    if !o.success || o.text == "" then Validation(false, NoText, 0.0, None, None)
    else if |o.text| < 3 then Validation(false, TooShort, o.confidence, None, None)
    else if o.confidence < 30.0 then Validation(false, LowConfidence, o.confidence, None, None)
    else
      var words := Words(o.text);
      if |words| < 2 then Validation(false, TooFewWords, o.confidence, None, None)
      else if (AlnumCount(o.text) as real) / (|o.text| as real) < 0.6 then
        Validation(false, TooManySpecial, o.confidence, None, None)
      else Validation(true, Valid, o.confidence, Some(|words|), Some(|o.text|))
  }

  /** The ratio check in whole numbers. */
  lemma RatioCheck(alnum: nat, length: nat)
    requires length > 0
    ensures (alnum as real) / (length as real) < 0.6 <==> 5 * alnum < 3 * length
  {
    var a, n := alnum as real, length as real;
    DivCompare(a, n, 0.6);
    assert a < 0.6 * n <==> 5.0 * a < 3.0 * n;
  }

  /** The checks run in order and the first failure decides the reason: no
      text (with confidence 0), then length under 3, confidence under 30,
      fewer than two words, and `5 * alphanumerics < 3 * length`; valid text
      passed every check and carries its word and character counts. */
  lemma ValidationOrder(o: OcrOutcome)
    ensures var v := ValidateOcrText(o);
      var present := o.success && o.text != "";
      var long := present && |o.text| >= 3;
      var sure := long && o.confidence >= 30.0;
      var wordy := sure && |Words(o.text)| >= 2;
      && (v.reason == NoText <==> !present)
      && (!present ==> v.confidence == 0.0)
      && (v.reason == TooShort <==> present && |o.text| < 3)
      && (v.reason == LowConfidence <==> long && o.confidence < 30.0)
      && (v.reason == TooFewWords <==> sure && |Words(o.text)| < 2)
      && (v.reason == TooManySpecial <==> wordy && 5 * AlnumCount(o.text) < 3 * |o.text|)
      && (v.isValid <==> wordy && 5 * AlnumCount(o.text) >= 3 * |o.text|)
      && (v.isValid ==> v.wordCount == Some(|Words(o.text)|) && v.characterCount == Some(|o.text|)
                        && v.confidence == o.confidence)
  {
    if o.success && o.text != "" {
      RatioCheck(AlnumCount(o.text), |o.text|);
    }
  }

  // ---------------------------------------------------------------------
  // Recognition and the image-to-memory step

  /** The image file as the browser gives it. */
  datatype ImageFile = ImageFile(mimeType: string, size: int, name: string)

  /** What the engine recognised. */
  datatype OcrData = OcrData(text: string, confidence: real, words: nat, lines: nat, paragraphs: nat)

  const MaxImageSize: int := 10 * 1024 * 1024

  /** `extractTextFromImage(imageFile)`, where `recognized` is the engine's
      reply or the message of the error it threw: a missing file or one
      whose type is not `image/...` is invalid, a file over 10 MiB is too
      large, both before recognition. */
  function ExtractTextFromImage(file: Option<ImageFile>, recognized: Result<OcrData>): (r: OcrOutcome)
    ensures !r.success ==> r.text == "" && r.confidence == 0.0
    ensures file.None? || !StartsWith(file.value.mimeType, "image/") ==>
      r == Failed("Invalid image file provided")
    ensures file.Some? && StartsWith(file.value.mimeType, "image/") && file.value.size > MaxImageSize ==>
      r == Failed("Image file is too large. Maximum size is 10MB.")
    ensures r.success <==> file.Some? && StartsWith(file.value.mimeType, "image/")
                             && file.value.size <= MaxImageSize && recognized.Ok?
    ensures r.success ==> r.text == CleanupOcrText(recognized.value.text)
                          && r.confidence == recognized.value.confidence
  {
    if file.None? || !StartsWith(file.value.mimeType, "image/") then Failed("Invalid image file provided")
    else if file.value.size > MaxImageSize then Failed("Image file is too large. Maximum size is 10MB.")
    else
      match recognized
      case Err(message) => Failed(message)
      case Ok(data) =>
        OcrOutcome(true, "", CleanupOcrText(data.text), data.confidence, data.words, data.lines, data.paragraphs)
  }

  /** The failure object of the extraction. */
  function Failed(message: string): OcrOutcome
  {
    OcrOutcome(false, message, "", 0.0, 0, 0, 0)
  }

  /** The result of `processImageForMemory`. */
  datatype ImageMemory =
    | ImageFailed(error: string, text: string, failedConfidence: Option<real>)
    | ImageText(text: string, confidence: real, validation: Validation,
                words: nat, lines: nat, paragraphs: nat, fileSize: int, fileName: string)

  /** `processImageForMemory(imageFile)`: a failed extraction is passed on
      with no text; text that fails validation is reported with the reason
      and kept; valid text comes with its validation and the file's size
      and name. */
  function ProcessImageForMemory(file: Option<ImageFile>, recognized: Result<OcrData>): (r: ImageMemory)
    ensures var o := ExtractTextFromImage(file, recognized);
      && (!o.success ==> r == ImageFailed(o.error, "", None))
      && (o.success && !ValidateOcrText(o).isValid ==>
            r == ImageFailed("OCR validation failed: " + ReasonText(ValidateOcrText(o).reason), o.text,
                             Some(ValidateOcrText(o).confidence)))
      && (r.ImageText? <==> o.success && ValidateOcrText(o).isValid)
  {
    var o := ExtractTextFromImage(file, recognized);
    if !o.success then ImageFailed(o.error, "", None)
    else
      var v := ValidateOcrText(o);
      if !v.isValid then ImageFailed("OCR validation failed: " + ReasonText(v.reason), o.text, Some(v.confidence))
      else ImageText(o.text, o.confidence, v, o.words, o.lines, o.paragraphs, file.value.size, file.value.name)
  }

  /** A memory made from an image carries cleaned text that passed every
      quality check. */
  lemma ImageTextIsClean(file: Option<ImageFile>, recognized: Result<OcrData>)
    requires ProcessImageForMemory(file, recognized).ImageText?
    ensures var r := ProcessImageForMemory(file, recognized);
      && recognized.Ok? && r.text == CleanupOcrText(recognized.value.text)
      && |r.text| >= 3 && r.confidence >= 30.0 && |Words(r.text)| >= 2
      && Join(Words(r.text), " ") == r.text
  {
    var o := ExtractTextFromImage(file, recognized);
    ImageFromValid(file, recognized);
    ValidMeans(o);
    CleanupJoinsWords(recognized.value.text);
  }

  /** Cleaned text is its words joined by single spaces. */
  lemma CleanupJoinsWords(raw: string)
    ensures Join(Words(CleanupOcrText(raw)), " ") == CleanupOcrText(raw)
  {
    CleanupSpacing(raw);
    JoinWords(CleanupOcrText(raw));
  }

  /** An image memory holds the text and confidence of a successful
      extraction that passed validation. */
  lemma ImageFromValid(file: Option<ImageFile>, recognized: Result<OcrData>)
    requires ProcessImageForMemory(file, recognized).ImageText?
    ensures var r, o := ProcessImageForMemory(file, recognized), ExtractTextFromImage(file, recognized);
      && o.success && ValidateOcrText(o).isValid && r.text == o.text && r.confidence == o.confidence
      && recognized.Ok? && o.text == CleanupOcrText(recognized.value.text)
  {
  }

  /** Text that passed validation met every threshold. */
  lemma ValidMeans(o: OcrOutcome)
    requires ValidateOcrText(o).isValid
    ensures |o.text| >= 3 && o.confidence >= 30.0 && |Words(o.text)| >= 2
  {
  }

  /** `getSupportedImageFormats()`. */
  const SupportedImageFormats: seq<string> :=
    ["image/jpeg", "image/jpg", "image/png", "image/gif", "image/bmp", "image/webp", "image/tiff"]

  /** `isSupportedImageFile(file)`. */
  predicate IsSupportedImageFile(file: Option<ImageFile>)
  {
    file.Some? && file.value.mimeType in SupportedImageFormats
  }

  /** A supported file passes the type check of the extraction. */
  lemma SupportedIsImage(file: Option<ImageFile>)
    requires IsSupportedImageFile(file)
    ensures StartsWith(file.value.mimeType, "image/")
  {
  }
}
