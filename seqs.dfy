/** Sequence helpers: the element-wise image of a sequence (JavaScript's
    `Array.prototype.map`) and how it commutes with concatenation and
    reordering. */
module Seqs {

  function Map<T, U>(f: T -> U, xs: seq<T>): (ys: seq<U>)
    ensures |ys| == |xs|
  {
    if xs == [] then [] else Map(f, xs[..|xs| - 1]) + [f(xs[|xs| - 1])]
  }

  /** Element p of the image is the image of element p. */
  lemma {:induction false} MapAt<T, U>(f: T -> U, xs: seq<T>, p: int)
    requires 0 <= p < |xs|
    ensures Map(f, xs)[p] == f(xs[p])
    decreases |xs|
  {
    var n := |xs| - 1;
    if p < n {
      MapAt(f, xs[..n], p);
    }
  }

  lemma MapAppend<T, U>(f: T -> U, a: seq<T>, b: seq<T>)
    ensures Map(f, a + b) == Map(f, a) + Map(f, b)
  {
    var l, r := Map(f, a + b), Map(f, a) + Map(f, b);
    forall p | 0 <= p < |l|
      ensures l[p] == r[p]
    {
      MapAt(f, a + b, p);
      if p < |a| {
        assert (a + b)[p] == a[p];
        MapAt(f, a, p);
      } else {
        assert (a + b)[p] == b[p - |a|];
        MapAt(f, b, p - |a|);
      }
    }
  }

  /** Where the last element of a lies in a permutation b of it. */
  lemma PermutationSplit<T>(a: seq<T>, b: seq<T>) returns (p: nat)
    requires multiset(a) == multiset(b) && a != []
    ensures p < |b| && b[p] == a[|a| - 1] && b == b[..p] + [b[p]] + b[p + 1..]
    ensures multiset(a[..|a| - 1]) == multiset(b[..p] + b[p + 1..])
  {
    var n := |a| - 1;
    var x := a[n];
    assert a == a[..n] + [x];
    assert x in multiset(b);
    var q :| 0 <= q < |b| && b[q] == x;
    p := q;
    var b1, b2 := b[..p], b[p + 1..];
    assert b == b1 + [x] + b2;
    calc {
      multiset(a[..n]);
      multiset(a) - multiset{x};
      multiset(b) - multiset{x};
      multiset(b1) + multiset{x} + multiset(b2) - multiset{x};
      multiset(b1 + b2);
    }
  }

  /** Reordering a sequence reorders its image. */
  lemma {:induction false} MapPermutation<T, U>(f: T -> U, a: seq<T>, b: seq<T>)
    requires multiset(a) == multiset(b)
    ensures multiset(Map(f, a)) == multiset(Map(f, b))
    decreases |a|
  {
    if a == [] {
      assert |b| == |multiset(b)| == 0;
    } else {
      var n := |a| - 1;
      var p := PermutationSplit(a, b);
      var b1, b2 := b[..p], b[p + 1..];
      MapPermutation(f, a[..n], b1 + b2);
      assert a == a[..n] + [a[n]];
      MapAppend(f, a[..n], [a[n]]);
      MapAppend(f, b1, [a[n]]);
      MapAppend(f, b1 + [a[n]], b2);
      MapAppend(f, b1, b2);
    }
  }

  /** The last element: `xs[xs.length - 1]`. */
  function Last<T>(xs: seq<T>): T
    requires xs != []
  {
    xs[|xs| - 1]
  }

  /** The elements are in non-decreasing order of rank. */
  predicate SortedBy<T>(ys: seq<T>, rank: T -> int) {
    forall a, b :: 0 <= a < b < |ys| ==> rank(ys[a]) <= rank(ys[b])
  }

  /** x inserted into ys after every element of no greater rank. */
  function InsertBy<T>(x: T, ys: seq<T>, rank: T -> int): seq<T> {
    if ys == [] || rank(ys[|ys| - 1]) <= rank(x) then ys + [x]
    else InsertBy(x, ys[..|ys| - 1], rank) + [ys[|ys| - 1]]
  }

  /** `Array.prototype.sort` with the comparator `(a, b) => rank(a) - rank(b)`:
      a stable sort by rank, here insertion sort. */
  function SortBy<T>(xs: seq<T>, rank: T -> int): seq<T> {
    if xs == [] then [] else InsertBy(xs[|xs| - 1], SortBy(xs[..|xs| - 1], rank), rank)
  }

  lemma {:induction false} InsertByPermutation<T>(x: T, ys: seq<T>, rank: T -> int)
    ensures multiset(InsertBy(x, ys, rank)) == multiset(ys) + multiset{x}
    decreases |ys|
  {
    if !(ys == [] || rank(ys[|ys| - 1]) <= rank(x)) {
      var n := |ys| - 1;
      InsertByPermutation(x, ys[..n], rank);
      assert ys == ys[..n] + [ys[n]];
    }
  }

  lemma {:induction false} InsertBySorted<T>(x: T, ys: seq<T>, rank: T -> int)
    requires SortedBy(ys, rank)
    ensures SortedBy(InsertBy(x, ys, rank), rank)
    decreases |ys|
  {
    if !(ys == [] || rank(ys[|ys| - 1]) <= rank(x)) {
      var n := |ys| - 1;
      var zs := InsertBy(x, ys[..n], rank);
      InsertBySorted(x, ys[..n], rank);
      InsertByPermutation(x, ys[..n], rank);
      forall a | 0 <= a < |zs|
        ensures rank(zs[a]) <= rank(ys[n])
      {
        RankBelow(zs, ys[..n], x, ys[n], rank, a);
      }
      SnocSorted(zs, ys[n], rank);
    }
  }

  /** An element of a reordering of ys + [x] has rank at most y's when the
      elements of ys and x do. */
  lemma RankBelow<T>(zs: seq<T>, ys: seq<T>, x: T, y: T, rank: T -> int, a: int)
    requires multiset(zs) == multiset(ys) + multiset{x} && 0 <= a < |zs|
    requires rank(x) <= rank(y) && forall q :: 0 <= q < |ys| ==> rank(ys[q]) <= rank(y)
    ensures rank(zs[a]) <= rank(y)
  {
    assert zs[a] in multiset(zs);
    if zs[a] != x {
      assert zs[a] in multiset(ys);
      var q :| 0 <= q < |ys| && ys[q] == zs[a];
    }
  }

  lemma SnocSorted<T>(zs: seq<T>, y: T, rank: T -> int)
    requires SortedBy(zs, rank) && forall a :: 0 <= a < |zs| ==> rank(zs[a]) <= rank(y)
    ensures SortedBy(zs + [y], rank)
  {
  }

  /** The sorted sequence is in order of rank ... */
  lemma {:induction false} SortBySorted<T>(xs: seq<T>, rank: T -> int)
    ensures SortedBy(SortBy(xs, rank), rank)
    decreases |xs|
  {
    if xs != [] {
      SortBySorted(xs[..|xs| - 1], rank);
      InsertBySorted(xs[|xs| - 1], SortBy(xs[..|xs| - 1], rank), rank);
    }
  }

  /** ... and a reordering of the input. */
  lemma {:induction false} SortByPermutation<T>(xs: seq<T>, rank: T -> int)
    ensures multiset(SortBy(xs, rank)) == multiset(xs)
    decreases |xs|
  {
    if xs != [] {
      var n := |xs| - 1;
      SortByPermutation(xs[..n], rank);
      InsertByPermutation(xs[n], SortBy(xs[..n], rank), rank);
      assert xs == xs[..n] + [xs[n]];
    }
  }
}
