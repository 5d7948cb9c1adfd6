/** Frequency tables as the stores build them: a JavaScript object used as a
    counter (`t[k] = (t[k] || 0) + 1`), kept as an association list in key
    insertion order. */
module Tallies {
  import opened Seqs

  type Table = seq<(string, nat)>

  function Keys(t: Table): (r: seq<string>)
    ensures |r| == |t|
    ensures forall i :: 0 <= i < |t| ==> r[i] == t[i].0
  {
    if t == [] then [] else [t[0].0] + Keys(t[1..])
  }

  /** `t[k]`, where a missing key reads as 0. */
  function Lookup(t: Table, k: string): nat
  {
    if t == [] then 0 else if t[0].0 == k then t[0].1 else Lookup(t[1..], k)
  }

  /** `t[k] = (t[k] || 0) + 1`: an existing key is incremented in place, a new
      key is added last with count 1. */
  function Bump(t: Table, k: string): (r: Table)
    ensures |r| == if k in Keys(t) then |t| else |t| + 1
  {
    if t == [] then [(k, 1)]
    else if t[0].0 == k then [(k, t[0].1 + 1)] + t[1..]
    else [t[0]] + Bump(t[1..], k)
  }

  /** Bumps every element of `xs`, left to right. */
  function BumpAll(t: Table, xs: seq<string>): Table
    decreases |xs|
  {
    if xs == [] then t else Bump(BumpAll(t, xs[..|xs| - 1]), xs[|xs| - 1])
  }

  /** The frequency table of `xs`. */
  function Frequencies(xs: seq<string>): Table
  {
    BumpAll([], xs)
  }

  /** For each key, in the given order, its number of occurrences in `xs`. */
  function Tally(keys: seq<string>, xs: seq<string>): (r: Table)
    ensures |r| == |keys|
    ensures forall i :: 0 <= i < |keys| ==> r[i] == (keys[i], Count(xs, keys[i]))
  {
    if keys == [] then [] else [(keys[0], Count(xs, keys[0]))] + Tally(keys[1..], xs)
  }

  function SumCounts(t: Table): nat
  {
    if t == [] then 0 else t[0].1 + SumCounts(t[1..])
  }

  lemma {:induction false} BumpAllAppend(t: Table, a: seq<string>, b: seq<string>)
    ensures BumpAll(t, a + b) == BumpAll(BumpAll(t, a), b)
    decreases |b|
  {
    if b == [] {
      assert a + b == a;
    } else {
      assert (a + b)[..|a + b| - 1] == a + b[..|b| - 1];
      BumpAllAppend(t, a, b[..|b| - 1]);
    }
  }

  lemma {:induction false} KeysTally(keys: seq<string>, xs: seq<string>)
    ensures Keys(Tally(keys, xs)) == keys
  {
  }

  /** Appending a value that is not a key leaves the tally unchanged. */
  lemma {:induction false} TallyIgnores(keys: seq<string>, xs: seq<string>, x: string)
    requires x !in keys
    ensures Tally(keys, xs + [x]) == Tally(keys, xs)
    decreases |keys|
  {
    if keys != [] {
      CountAppend(xs, [x], keys[0]);
      TallyIgnores(keys[1..], xs, x);
    }
  }

  /** One bump of `x` on the exact tally of `xs` gives the exact tally of
      `xs + [x]`: an existing key is counted once more in place, a new key
      comes last with count 1. */
  lemma BumpTally(keys: seq<string>, xs: seq<string>, x: string)
    requires Distinct(keys)
    requires x !in keys ==> x !in xs
    ensures Bump(Tally(keys, xs), x) == Tally(if x in keys then keys else keys + [x], xs + [x])
  {
    if x in keys {
      BumpTallyKnown(keys, xs, x);
    } else {
      BumpTallyNew(keys, xs, x);
    }
  }

  lemma {:induction false} BumpTallyKnown(keys: seq<string>, xs: seq<string>, x: string)
    requires Distinct(keys) && x in keys
    ensures Bump(Tally(keys, xs), x) == Tally(keys, xs + [x])
    decreases |keys|
  {
    var k, rest := keys[0], keys[1..];
    CountAppend(xs, [x], x);
    if x == k {
      assert x !in rest;
      TallyIgnores(rest, xs, x);
    } else {
      assert x in rest;
      BumpTallyKnown(rest, xs, x);
      CountAppend(xs, [x], k);
      BumpStep(keys, xs, x, rest);
    }
  }

  lemma {:induction false} BumpTallyNew(keys: seq<string>, xs: seq<string>, x: string)
    requires x !in keys && x !in xs
    ensures Bump(Tally(keys, xs), x) == Tally(keys + [x], xs + [x])
    decreases |keys|
  {
    if keys == [] {
      CountAppend(xs, [x], x);
      assert keys + [x] == [x];
    } else {
      var k, rest := keys[0], keys[1..];
      BumpTallyNew(rest, xs, x);
      CountAppend(xs, [x], k);
      BumpStep(keys, xs, x, rest + [x]);
      ConsSnoc(keys, x);
    }
  }

  /** The step of both inductions: a first key other than `x` keeps its
      count and the bump goes to the rest. */
  lemma BumpStep(keys: seq<string>, xs: seq<string>, x: string, after: seq<string>)
    requires keys != [] && x != keys[0]
    requires Count(xs + [x], keys[0]) == Count(xs, keys[0])
    requires Bump(Tally(keys[1..], xs), x) == Tally(after, xs + [x])
    ensures Bump(Tally(keys, xs), x) == Tally([keys[0]] + after, xs + [x])
  {
    var t := Tally(keys, xs);
    assert t == [(keys[0], Count(xs, keys[0]))] + Tally(keys[1..], xs);
    assert t[1..] == Tally(keys[1..], xs);
    assert ([keys[0]] + after)[1..] == after;
  }

  /** The table built by bumping is the exact tally: every distinct element
      once, in first-occurrence order, with its number of occurrences. */
  lemma {:induction false} FrequenciesTally(xs: seq<string>)
    ensures Frequencies(xs) == Tally(Unique(xs), xs)
    decreases |xs|
  {
    if xs != [] {
      var init := xs[..|xs| - 1];
      var x := xs[|xs| - 1];
      assert xs == init + [x];
      FrequenciesTally(init);
      UniqueFacts(init);
      BumpTally(Unique(init), init, x);
    }
  }

  lemma {:induction false} LookupTally(keys: seq<string>, xs: seq<string>, k: string)
    requires k in keys || k !in xs
    ensures Lookup(Tally(keys, xs), k) == Count(xs, k)
    decreases |keys|
  {
    if keys != [] && keys[0] != k {
      LookupTally(keys[1..], xs, k);
    }
  }

  /** Each value's entry counts its occurrences; a value that never occurs
      reads as 0. */
  lemma FrequenciesCount(xs: seq<string>, k: string)
    ensures Lookup(Frequencies(xs), k) == Count(xs, k)
    ensures k in Keys(Frequencies(xs)) <==> k in xs
  {
    FrequenciesTally(xs);
    UniqueFacts(xs);
    LookupTally(Unique(xs), xs, k);
    KeysTally(Unique(xs), xs);
  }

  /** The counts of a frequency table sum to the number of elements. */
  lemma FrequenciesSum(xs: seq<string>)
    ensures SumCounts(Frequencies(xs)) == |xs|
  {
    FrequenciesTally(xs);
    TallyUnique(xs);
  }

  /** Tallying every distinct value accounts for every element once. */
  lemma {:induction false} TallyUnique(xs: seq<string>)
    ensures SumCounts(Tally(Unique(xs), xs)) == |xs|
    decreases |xs|
  {
    if xs != [] {
      var init := xs[..|xs| - 1];
      var x := xs[|xs| - 1];
      assert xs == init + [x];
      TallyUnique(init);
      var d := Unique(init);
      UniqueFacts(init);
      TallyStep(d, init, x);
      if x !in d {
        assert Unique(xs) == d + [x];
        TallyAppendKey(d, xs, x);
        CountAppend(init, [x], x);
      }
    }
  }

  /** Appending `x` raises the tally of `x` by one and no other. */
  lemma {:induction false} TallyStep(keys: seq<string>, xs: seq<string>, x: string)
    requires Distinct(keys)
    ensures SumCounts(Tally(keys, xs + [x])) == SumCounts(Tally(keys, xs)) + (if x in keys then 1 else 0)
    decreases |keys|
  {
    if keys != [] {
      CountAppend(xs, [x], keys[0]);
      TallyStep(keys[1..], xs, x);
      assert x in keys <==> x == keys[0] || x in keys[1..];
    }
  }

  lemma {:induction false} TallyAppendKey(keys: seq<string>, xs: seq<string>, x: string)
    ensures SumCounts(Tally(keys + [x], xs)) == SumCounts(Tally(keys, xs)) + Count(xs, x)
    decreases |keys|
  {
    if keys != [] {
      assert (keys + [x])[1..] == keys[1..] + [x];
      TallyAppendKey(keys[1..], xs, x);
    }
  }

  /** `forEach(x => t[x] = (t[x] || 0) + 1)`. */
  method BumpEach(t: Table, xs: seq<string>) returns (r: Table)
    ensures r == BumpAll(t, xs)
  {
    r := t;
    for j := 0 to |xs|
      invariant r == BumpAll(t, xs[..j])
    {
      assert xs[..j + 1][..j] == xs[..j];
      r := Bump(r, xs[j]);
    }
    assert xs[..|xs|] == xs;
  }

  /** A `sentimentBreakdown` object: the three known counters, and the keys
      outside them, which the unguarded `++` turns into `NaN`
      entries, in first-occurrence order. */
  datatype Breakdown = Breakdown(positive: nat, neutral: nat, negative: nat, nanKeys: seq<string>)

  predicate Known(key: string)
  {
    key == "positive" || key == "neutral" || key == "negative"
  }

  /** `sentimentBreakdown[key]++`. */
  function CountSentiment(b: Breakdown, key: string): Breakdown
  {
    if key == "positive" then b.(positive := b.positive + 1)
    else if key == "neutral" then b.(neutral := b.neutral + 1)
    else if key == "negative" then b.(negative := b.negative + 1)
    else if key in b.nanKeys then b
    else b.(nanKeys := b.nanKeys + [key])
  }

  /** The breakdown after counting each key in turn. */
  function BreakdownOf(keys: seq<string>): Breakdown
    decreases |keys|
  {
    if keys == [] then Breakdown(0, 0, 0, [])
    else CountSentiment(BreakdownOf(keys[..|keys| - 1]), keys[|keys| - 1])
  }

  /** The unknown keys, in order. */
  function Unknown(keys: seq<string>): (r: seq<string>)
    ensures forall k :: k in r <==> k in keys && !Known(k)
    decreases |keys|
  {
    if keys == [] then []
    else Unknown(keys[..|keys| - 1]) + (if Known(keys[|keys| - 1]) then [] else [keys[|keys| - 1]])
  }

  /** Each known counter counts its key; the `NaN` keys are the unknown keys,
      each once in first-occurrence order; and every key lands in exactly one
      of the two. */
  lemma BreakdownCounts(keys: seq<string>)
    ensures var b := BreakdownOf(keys);
      b.positive == Count(keys, "positive") && b.neutral == Count(keys, "neutral")
      && b.negative == Count(keys, "negative")
      && b.nanKeys == Unique(Unknown(keys))
      && b.positive + b.neutral + b.negative + |Unknown(keys)| == |keys|
  {
    BreakdownKnown(keys);
    BreakdownTotal(keys);
    BreakdownNaN(keys);
  }

  lemma {:induction false} BreakdownKnown(keys: seq<string>)
    ensures var b := BreakdownOf(keys);
      b.positive == Count(keys, "positive") && b.neutral == Count(keys, "neutral")
      && b.negative == Count(keys, "negative")
    decreases |keys|
  {
    if keys != [] {
      var init, k := keys[..|keys| - 1], keys[|keys| - 1];
      assert keys == init + [k];
      BreakdownKnown(init);
      CountAppend(init, [k], "positive");
      CountAppend(init, [k], "neutral");
      CountAppend(init, [k], "negative");
    }
  }

  lemma {:induction false} BreakdownTotal(keys: seq<string>)
    ensures var b := BreakdownOf(keys);
      b.positive + b.neutral + b.negative + |Unknown(keys)| == |keys|
    decreases |keys|
  {
    if keys != [] {
      BreakdownTotal(keys[..|keys| - 1]);
    }
  }

  lemma {:induction false} BreakdownNaN(keys: seq<string>)
    ensures BreakdownOf(keys).nanKeys == Unique(Unknown(keys))
    decreases |keys|
  {
    if keys != [] {
      var init, k := keys[..|keys| - 1], keys[|keys| - 1];
      assert keys == init + [k];
      BreakdownNaN(init);
      UniqueIntoAppend([], Unknown(init), if Known(k) then [] else [k]);
    }
  }

}
