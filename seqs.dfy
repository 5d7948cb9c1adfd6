/** Sequence helpers shared by the stores: the models of JavaScript's
    Array.prototype.filter and map, of `[...new Set(xs)]`, and of counting. */
module Seqs {

  /** `b` contains the elements of `a` in the same relative order. */
  ghost predicate IsSubseq<T>(a: seq<T>, b: seq<T>)
    decreases |b|
  {
    if a == [] then true
    else if b == [] then false
    else if a[0] == b[0] then IsSubseq(a[1..], b[1..])
    else IsSubseq(a, b[1..])
  }

  /** Dropping the head of `a` keeps it a subsequence. */
  lemma {:induction false} IsSubseqTail<T>(a: seq<T>, b: seq<T>)
    requires a != [] && IsSubseq(a, b)
    ensures IsSubseq(a[1..], b)
    decreases |b|, 1
  {
    if a[0] == b[0] {
      IsSubseqWeaken(a[1..], b);
    } else {
      IsSubseqTail(a, b[1..]);
      IsSubseqWeaken(a[1..], b);
    }
  }

  /** A subsequence of the tail is a subsequence of the whole. */
  lemma {:induction false} IsSubseqWeaken<T>(a: seq<T>, b: seq<T>)
    requires b != [] && IsSubseq(a, b[1..])
    ensures IsSubseq(a, b)
    decreases |b|, 0
  {
    if a != [] && a[0] == b[0] {
      IsSubseqTail(a, b[1..]);
    }
  }

  lemma {:induction false} IsSubseqTrans<T>(a: seq<T>, b: seq<T>, c: seq<T>)
    requires IsSubseq(a, b) && IsSubseq(b, c)
    ensures IsSubseq(a, c)
    decreases |c|
  {
    if a != [] {
      if b[0] == c[0] {
        if a[0] == b[0] {
          IsSubseqTrans(a[1..], b[1..], c[1..]);
        } else {
          IsSubseqTrans(a, b[1..], c[1..]);
          IsSubseqWeaken(a, c);
        }
      } else {
        IsSubseqTrans(a, b, c[1..]);
        IsSubseqWeaken(a, c);
      }
    }
  }

  /** Array.prototype.filter: keeps, in order, the elements satisfying `p`. */
  function Filter<T(!new)>(s: seq<T>, p: T -> bool): (r: seq<T>)
    ensures |r| <= |s|
    ensures forall x :: x in r <==> x in s && p(x)
    ensures forall i :: 0 <= i < |r| ==> p(r[i])
    ensures IsSubseq(r, s)
  {
    if s == [] then []
    else if p(s[0]) then [s[0]] + Filter(s[1..], p)
    else Filter(s[1..], p)
  }

  lemma {:induction false} FilterAppend<T(!new)>(a: seq<T>, b: seq<T>, p: T -> bool)
    ensures Filter(a + b, p) == Filter(a, p) + Filter(b, p)
  {
    if a == [] {
      assert a + b == b;
    } else {
      assert (a + b)[1..] == a[1..] + b;
      FilterAppend(a[1..], b, p);
    }
  }

  /** When every element passes, filtering changes nothing. */
  lemma {:induction false} FilterAll<T(!new)>(s: seq<T>, p: T -> bool)
    requires forall i :: 0 <= i < |s| ==> p(s[i])
    ensures Filter(s, p) == s
  {
    if s != [] {
      FilterAll(s[1..], p);
    }
  }

  /** The elements of `s` at the positions where `keep` is true, in order. */
  function Select<T>(s: seq<T>, keep: seq<bool>): (r: seq<T>)
    requires |keep| == |s|
    ensures |r| <= |s|
  {
    if s == [] then []
    else (if keep[0] then [s[0]] else []) + Select(s[1..], keep[1..])
  }

  /** Selecting every position keeps the whole sequence. */
  lemma {:induction false} SelectAll<T>(s: seq<T>, keep: seq<bool>)
    requires |keep| == |s| && forall i :: 0 <= i < |keep| ==> keep[i]
    ensures Select(s, keep) == s
  {
    if s != [] {
      SelectAll(s[1..], keep[1..]);
    }
  }

  lemma ConsSnoc<T>(s: seq<T>, x: T)
    requires s != []
    ensures s + [x] == [s[0]] + (s[1..] + [x])
  {
  }

  lemma AppendAssoc<T>(a: seq<T>, b: seq<T>, c: seq<T>)
    ensures (a + b) + c == a + (b + c)
  {
  }

  /** Array.prototype.map. */
  function Map<T, U>(s: seq<T>, f: T -> U): (r: seq<U>)
    ensures |r| == |s|
    ensures forall i :: 0 <= i < |s| ==> r[i] == f(s[i])
  {
    if s == [] then [] else [f(s[0])] + Map(s[1..], f)
  }

  /** Number of occurrences of `x` in `s`. */
  function Count<T(==)>(s: seq<T>, x: T): (n: nat)
    ensures n <= |s|
    ensures n == 0 <==> x !in s
  {
    if s == [] then 0 else (if s[0] == x then 1 else 0) + Count(s[1..], x)
  }

  lemma {:induction false} CountAppend<T>(a: seq<T>, b: seq<T>, x: T)
    ensures Count(a + b, x) == Count(a, x) + Count(b, x)
  {
    if a == [] {
      assert a + b == b;
    } else {
      assert (a + b)[1..] == a[1..] + b;
      CountAppend(a[1..], b, x);
    }
  }

  /** Filtering keeps every passing element as often as it occurs and drops
      every other one entirely. */
  lemma {:induction false} FilterCount<T(!new)>(s: seq<T>, p: T -> bool, x: T)
    ensures Count(Filter(s, p), x) == if p(x) then Count(s, x) else 0
  {
    if s != [] {
      FilterCount(s[1..], p, x);
      if p(s[0]) {
        assert Filter(s, p) == [s[0]] + Filter(s[1..], p);
        assert ([s[0]] + Filter(s[1..], p))[1..] == Filter(s[1..], p);
      }
    }
  }

  /** Number of elements satisfying `p`. */
  function CountIf<T>(s: seq<T>, p: T -> bool): (n: nat)
    ensures n <= |s|
  {
    if s == [] then 0 else (if p(s[0]) then 1 else 0) + CountIf(s[1..], p)
  }

  lemma {:induction false} CountIfAppend<T>(a: seq<T>, b: seq<T>, p: T -> bool)
    ensures CountIf(a + b, p) == CountIf(a, p) + CountIf(b, p)
  {
    if a == [] {
      assert a + b == b;
    } else {
      assert (a + b)[1..] == a[1..] + b;
      CountIfAppend(a[1..], b, p);
    }
  }

  /** A predicate implied by another is satisfied at least as often. */
  lemma {:induction false} CountIfMono<T>(s: seq<T>, p: T -> bool, q: T -> bool)
    requires forall x :: p(x) ==> q(x)
    ensures CountIf(s, p) <= CountIf(s, q)
  {
    if s != [] {
      CountIfMono(s[1..], p, q);
    }
  }

  /** The elements of `s` are pairwise distinct. */
  ghost predicate Distinct<T>(s: seq<T>)
  {
    forall i, j :: 0 <= i < j < |s| ==> s[i] != s[j]
  }

  /** Index of the first occurrence of `x` in `s`. */
  function IndexOf<T(==)>(s: seq<T>, x: T): (i: nat)
    requires x in s
    ensures i < |s| && s[i] == x
    ensures forall j :: 0 <= j < i ==> s[j] != x
  {
    if s[0] == x then 0 else 1 + IndexOf(s[1..], x)
  }

  /** `[...new Set(acc ++ xs)]` computed left to right: `xs` is appended to
      `acc`, skipping every element already present. */
  function UniqueInto<T(==)>(acc: seq<T>, xs: seq<T>): (r: seq<T>)
    decreases |xs|
  {
    if xs == [] then acc
    else
      var d := UniqueInto(acc, xs[..|xs| - 1]);
      if xs[|xs| - 1] in d then d else d + [xs[|xs| - 1]]
  }

  /** `[...new Set(xs)]`. */
  function Unique<T(==)>(xs: seq<T>): seq<T>
  {
    UniqueInto([], xs)
  }

  lemma {:induction false} UniqueIntoAppend<T>(acc: seq<T>, a: seq<T>, b: seq<T>)
    ensures UniqueInto(acc, a + b) == UniqueInto(UniqueInto(acc, a), b)
    decreases |b|
  {
    if b == [] {
      assert a + b == a;
    } else {
      assert (a + b)[..|a + b| - 1] == a + b[..|b| - 1];
      assert (a + b)[|a + b| - 1] == b[|b| - 1];
      UniqueIntoAppend(acc, a, b[..|b| - 1]);
    }
  }

  /** The accumulator stays a prefix, the element set is the union, and no
      duplicate is introduced. */
  lemma {:induction false} UniqueIntoFacts<T(!new)>(acc: seq<T>, xs: seq<T>)
    requires Distinct(acc)
    ensures var r := UniqueInto(acc, xs);
      && Distinct(r)
      && |acc| <= |r| && r[..|acc|] == acc
      && (forall x :: x in r <==> x in acc || x in xs)
    decreases |xs|
  {
    if xs != [] {
      UniqueIntoFacts(acc, xs[..|xs| - 1]);
      var d := UniqueInto(acc, xs[..|xs| - 1]);
      var x := xs[|xs| - 1];
      assert xs == xs[..|xs| - 1] + [x];
      if x !in d {
        assert (d + [x])[..|acc|] == d[..|acc|];
      }
    }
  }

  /** `Unique` keeps each element once, with the same element set. */
  lemma UniqueFacts<T(!new)>(xs: seq<T>)
    ensures Distinct(Unique(xs))
    ensures forall x :: x in Unique(xs) <==> x in xs
    ensures |Unique(xs)| <= |xs|
  {
    UniqueIntoFacts([], xs);
    UniqueLength([], xs);
  }

  lemma {:induction false} UniqueLength<T>(acc: seq<T>, xs: seq<T>)
    ensures |UniqueInto(acc, xs)| <= |acc| + |xs|
    decreases |xs|
  {
    if xs != [] {
      UniqueLength(acc, xs[..|xs| - 1]);
    }
  }

  /** First-occurrence order: an element placed earlier by `Unique` occurs
      for the first time earlier in the input. */
  lemma {:induction false} UniqueFirstOccurrenceOrder<T(!new)>(xs: seq<T>, i: nat, j: nat)
    requires i < j < |Unique(xs)|
    ensures Unique(xs)[i] in xs && Unique(xs)[j] in xs
    ensures IndexOf(xs, Unique(xs)[i]) < IndexOf(xs, Unique(xs)[j])
    decreases |xs|
  {
    UniqueFacts(xs);
    var u := Unique(xs);
    var x := xs[|xs| - 1];
    var init := xs[..|xs| - 1];
    UniqueFacts(init);
    var d := Unique(init);
    assert xs == init + [x];
    if x in d {
      assert u == d;
      UniqueFirstOccurrenceOrder(init, i, j);
      IndexOfPrefix(init, x, u[i]);
      IndexOfPrefix(init, x, u[j]);
    } else {
      assert u == d + [x];
      if j < |d| {
        UniqueFirstOccurrenceOrder(init, i, j);
        IndexOfPrefix(init, x, u[i]);
        IndexOfPrefix(init, x, u[j]);
      } else {
        assert u[j] == x && x !in init;
        assert u[i] == d[i] && d[i] in d;
        IndexOfPrefix(init, x, u[i]);
        assert IndexOf(xs, u[i]) < |init|;
        IndexOfLast(init, x);
      }
    }
  }

  lemma {:induction false} IndexOfPrefix<T>(init: seq<T>, x: T, y: T)
    requires y in init
    ensures y in init + [x] && IndexOf(init + [x], y) == IndexOf(init, y)
  {
    if init[0] != y {
      assert (init + [x])[1..] == init[1..] + [x];
      IndexOfPrefix(init[1..], x, y);
    }
  }

  lemma {:induction false} IndexOfLast<T>(init: seq<T>, x: T)
    requires x !in init
    ensures IndexOf(init + [x], x) == |init|
  {
    if init != [] {
      assert (init + [x])[1..] == init[1..] + [x];
      IndexOfLast(init[1..], x);
    }
  }

  /** Sum of a sequence of naturals. */
  function Sum(s: seq<nat>): nat
  {
    if s == [] then 0 else s[0] + Sum(s[1..])
  }
}
