/** Array operations the site's code uses through `Array.prototype`: `filter`,
    `findIndex`/`find`, and the subsequence relation their results obey. */
module Seqs {
  import opened Wrappers

  /** `xs.filter(p)`: the elements satisfying `p`, in their original order. */
  function Filter<T>(xs: seq<T>, p: T -> bool): (r: seq<T>)
    ensures |r| <= |xs|
    ensures forall i :: 0 <= i < |r| ==> p(r[i])
    ensures forall i :: 0 <= i < |r| ==> r[i] in xs
    ensures forall i :: 0 <= i < |xs| && p(xs[i]) ==> xs[i] in r
  {
    if |xs| == 0 then []
    else if p(xs[0]) then [xs[0]] + Filter(xs[1..], p)
    else Filter(xs[1..], p)
  }

  /** `a` can be obtained from `b` by deleting elements. */
  predicate IsSubsequence<T(==)>(a: seq<T>, b: seq<T>)
    decreases |b|
  {
    |a| == 0 ||
    (|b| > 0 &&
     ((a[0] == b[0] && IsSubsequence(a[1..], b[1..])) || IsSubsequence(a, b[1..])))
  }

  lemma {:induction false} IsSubsequenceOfItself<T>(xs: seq<T>)
    ensures IsSubsequence(xs, xs)
    decreases |xs|
  {
    if |xs| > 0 {
      IsSubsequenceOfItself(xs[1..]);
    }
  }

  /** A filter keeps the relative order of what it keeps. */
  lemma {:induction false} FilterIsSubsequence<T>(xs: seq<T>, p: T -> bool)
    ensures IsSubsequence(Filter(xs, p), xs)
    decreases |xs|
  {
    if |xs| > 0 {
      FilterIsSubsequence(xs[1..], p);
      var r := Filter(xs, p);
      if p(xs[0]) {
        assert r[0] == xs[0] && r[1..] == Filter(xs[1..], p);
      }
    }
  }

  /** A filter keeps every occurrence of a kept value and no occurrence of a
      dropped one. */
  lemma {:induction false} FilterCount<T>(xs: seq<T>, p: T -> bool, x: T)
    ensures multiset(Filter(xs, p))[x] == if p(x) then multiset(xs)[x] else 0
    decreases |xs|
  {
    if |xs| > 0 {
      FilterCount(xs[1..], p, x);
      assert xs == [xs[0]] + xs[1..];
    }
  }

  /** Everything a filter promises: its result keeps the order of its input,
      and holds each value exactly as often as the input does if the value
      passes, and never if it does not. */
  lemma FilterFacts<T>(xs: seq<T>, p: T -> bool)
    ensures IsSubsequence(Filter(xs, p), xs)
    ensures forall x :: multiset(Filter(xs, p))[x] == if p(x) then multiset(xs)[x] else 0
  {
    FilterIsSubsequence(xs, p);
    forall x ensures multiset(Filter(xs, p))[x] == if p(x) then multiset(xs)[x] else 0 {
      FilterCount(xs, p, x);
    }
  }

  /** Filtering a concatenation filters each part. */
  lemma {:induction false} FilterAppend<T>(xs: seq<T>, ys: seq<T>, p: T -> bool)
    ensures Filter(xs + ys, p) == Filter(xs, p) + Filter(ys, p)
    decreases |xs|
  {
    if |xs| == 0 {
      assert xs + ys == ys;
    } else {
      var zs := xs + ys;
      assert zs[1..] == xs[1..] + ys;
      FilterAppend(xs[1..], ys, p);
    }
  }

  /** Filtering a list whose elements all pass changes nothing. */
  lemma {:induction false} FilterAllKept<T>(xs: seq<T>, p: T -> bool)
    requires forall i :: 0 <= i < |xs| ==> p(xs[i])
    ensures Filter(xs, p) == xs
    decreases |xs|
  {
    if |xs| > 0 {
      FilterAllKept(xs[1..], p);
    }
  }

  /** A filter that drops something is shorter than its input. */
  lemma {:induction false} FilterShorter<T>(xs: seq<T>, p: T -> bool, i: nat)
    requires i < |xs| && !p(xs[i])
    ensures |Filter(xs, p)| < |xs|
    decreases |xs|
  {
    if i > 0 {
      FilterShorter(xs[1..], p, i - 1);
    }
  }

  /** A filter keeps the whole list exactly when every element passes. */
  lemma FilterKeepsAllIff<T>(xs: seq<T>, p: T -> bool)
    ensures |Filter(xs, p)| == |xs| <==> forall i :: 0 <= i < |xs| ==> p(xs[i])
  {
    if forall i :: 0 <= i < |xs| ==> p(xs[i]) {
      FilterAllKept(xs, p);
    } else {
      var i :| 0 <= i < |xs| && !p(xs[i]);
      FilterShorter(xs, p, i);
    }
  }

  /** `xs.findIndex(p)`: the first index whose element satisfies `p`. */
  function FirstIndex<T>(xs: seq<T>, p: T -> bool): (r: Option<nat>)
    ensures r.Some? ==> r.value < |xs| && p(xs[r.value])
    ensures r.Some? ==> forall j :: 0 <= j < r.value ==> !p(xs[j])
    ensures r.None? <==> forall j :: 0 <= j < |xs| ==> !p(xs[j])
  {
    if |xs| == 0 then None
    else if p(xs[0]) then Some(0)
    else match FirstIndex(xs[1..], p)
      case None => None
      case Some(i) => Some(i + 1)
  }

  /** No value occurs twice. */
  predicate NoDuplicates<T(==)>(xs: seq<T>) {
    forall i, j :: 0 <= i < j < |xs| ==> xs[i] != xs[j]
  }

  /** The values of a list, as a set. */
  function Elements<T>(xs: seq<T>): set<T> {
    set x | x in xs
  }

  /** Walks `xs` from the left and keeps each value not met before, counting
      `seen` as met: the order in which a JS `Set` built from `xs` yields its
      values. */
  function DedupFrom<T(==)>(xs: seq<T>, seen: set<T>): (r: seq<T>)
    ensures forall i :: 0 <= i < |r| ==> r[i] in xs && r[i] !in seen
    ensures forall i :: 0 <= i < |xs| && xs[i] !in seen ==> xs[i] in r
    ensures NoDuplicates(r)
  {
    if |xs| == 0 then []
    else if xs[0] in seen then DedupFrom(xs[1..], seen)
    else [xs[0]] + DedupFrom(xs[1..], seen + {xs[0]})
  }

  /** `Array.from(new Set(xs))`. */
  function Dedup<T(==)>(xs: seq<T>): (r: seq<T>)
    ensures NoDuplicates(r)
    ensures Elements(r) == Elements(xs)
  {
    DedupFrom(xs, {})
  }

  /** Reference definition built from the other end: the values of `xs` whose
      earlier part does not already hold them. */
  function FirstOccurrences<T(==)>(xs: seq<T>): seq<T> {
    if |xs| == 0 then []
    else
      var init := xs[..|xs| - 1];
      FirstOccurrences(init) + (if xs[|xs| - 1] in init then [] else [xs[|xs| - 1]])
  }

  /** De-duplicating a concatenation: the second part only contributes what
      the first did not already. */
  lemma {:induction false} DedupFromAppend<T>(a: seq<T>, b: seq<T>, seen: set<T>)
    ensures DedupFrom(a + b, seen) == DedupFrom(a, seen) + DedupFrom(b, seen + Elements(a))
    decreases |a|
  {
    if |a| == 0 {
      assert a + b == b;
      assert seen + Elements(a) == seen;
      assert DedupFrom(a, seen) == [];
    } else {
      assert (a + b)[1..] == a[1..] + b;
      assert Elements(a) == {a[0]} + Elements(a[1..]);
      if a[0] in seen {
        DedupFromAppend(a[1..], b, seen);
        assert seen + Elements(a) == seen + Elements(a[1..]);
      } else {
        DedupFromAppend(a[1..], b, seen + {a[0]});
        assert seen + {a[0]} + Elements(a[1..]) == seen + Elements(a);
      }
    }
  }

  /** The de-duplicated list is the list of first occurrences. */
  lemma {:induction false} DedupIsFirstOccurrences<T>(xs: seq<T>)
    ensures Dedup(xs) == FirstOccurrences(xs)
    decreases |xs|
  {
    if |xs| > 0 {
      var init := xs[..|xs| - 1];
      var last := xs[|xs| - 1];
      assert xs == init + [last];
      DedupFromAppend(init, [last], {});
      DedupIsFirstOccurrences(init);
      assert {} + Elements(init) == Elements(init);
    }
  }

  /** A list without repeats survives de-duplication as the head of the result. */
  lemma {:induction false} DedupKeepsDistinctPrefix<T>(a: seq<T>, b: seq<T>)
    requires NoDuplicates(a)
    ensures |Dedup(a + b)| >= |a| && Dedup(a + b)[..|a|] == a
    decreases |a|
  {
    DedupFromAppend(a, b, {});
    DedupFromDistinct(a, {});
  }

  lemma {:induction false} DedupFromDistinct<T>(a: seq<T>, seen: set<T>)
    requires NoDuplicates(a)
    requires forall i :: 0 <= i < |a| ==> a[i] !in seen
    ensures DedupFrom(a, seen) == a
    decreases |a|
  {
    if |a| > 0 {
      DedupFromDistinct(a[1..], seen + {a[0]});
    }
  }
}
