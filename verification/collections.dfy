/** The sequence operations the engine borrows from numpy and pandas:
    `np.unique` (sorted distinct values), pandas `unique` (distinct values in
    order of first appearance) and boolean-mask selection. */
module Collections {

  predicate StrictlyIncreasing(xs: seq<int>) {
    forall m, n :: 0 <= m < n < |xs| ==> xs[m] < xs[n]
  }

  predicate Distinct<T(==)>(xs: seq<T>) {
    forall m, n :: 0 <= m < n < |xs| ==> xs[m] != xs[n]
  }

  /** Inserts `x` into a strictly increasing sequence, unless already there. */
  function Insert(xs: seq<int>, x: int): (r: seq<int>)
    requires StrictlyIncreasing(xs)
    ensures StrictlyIncreasing(r)
    ensures forall y :: y in r <==> y in xs || y == x
  {
    if xs == [] then [x]
    else if x < xs[0] then
      IncreasingSplits(xs);
      PrependIncreasing(x, xs);
      [x] + xs
    else if x == xs[0] then xs
    else
      IncreasingSplits(xs);
      var rest := Insert(xs[1..], x);
      PrependIncreasing(xs[0], rest);
      assert xs == [xs[0]] + xs[1..];
      [xs[0]] + rest
  }

  /** The tail of a strictly increasing sequence is strictly increasing and
      lies above its head. */
  lemma IncreasingSplits(xs: seq<int>)
    requires StrictlyIncreasing(xs) && xs != []
    ensures StrictlyIncreasing(xs[1..])
    ensures forall y :: y in xs[1..] ==> xs[0] < y
  {
  }

  /** A head below every element of a strictly increasing tail gives a
      strictly increasing sequence. */
  lemma PrependIncreasing(h: int, rest: seq<int>)
    requires StrictlyIncreasing(rest)
    requires forall y :: y in rest ==> h < y
    ensures StrictlyIncreasing([h] + rest)
  {
    forall m, n | 0 <= m < n < |[h] + rest|
      ensures ([h] + rest)[m] < ([h] + rest)[n]
    {
      assert rest[n - 1] in rest;
    }
  }

  /** `np.unique`: the distinct values of `xs`, in increasing order. */
  function SortedUnique(xs: seq<int>): (r: seq<int>)
    ensures StrictlyIncreasing(r)
    ensures forall y :: y in r <==> y in xs
  {
    if xs == [] then [] else Insert(SortedUnique(xs[..|xs| - 1]), xs[|xs| - 1])
  }

  /** A strictly increasing sequence is determined by its elements, so
      `SortedUnique` is the only answer `np.unique` could give. */
  lemma {:induction false} IncreasingWithSameElements(xs: seq<int>, ys: seq<int>)
    requires StrictlyIncreasing(xs) && StrictlyIncreasing(ys)
    requires forall y :: y in xs <==> y in ys
    ensures xs == ys
  {
    if xs != [] {
      assert xs[0] in xs;
    }
    if ys != [] {
      assert ys[0] in ys;
    }
    if xs != [] && ys != [] {
      // the heads are both the least element
      assert xs[0] == ys[0] by {
        assert xs[0] in ys && ys[0] in xs;
      }
      forall y
        ensures y in xs[1..] <==> y in ys[1..]
      {
        if y in xs[1..] {
          assert y != xs[0] && y in ys;
        }
        if y in ys[1..] {
          assert y != ys[0] && y in xs;
        }
      }
      IncreasingWithSameElements(xs[1..], ys[1..]);
    }
  }

  /** The position at which `y` first appears in `xs`. */
  function FirstIndex<T(==)>(xs: seq<T>, y: T): (n: nat)
    requires y in xs
    ensures n < |xs| && xs[n] == y && y !in xs[..n]
  {
    if xs[0] == y then 0
    else
      var n := 1 + FirstIndex(xs[1..], y);
      assert xs[..n] == [xs[0]] + xs[1..][..n - 1];
      n
  }

  /** A value first appears in a prefix where it first appears in the whole
      sequence. */
  lemma FirstIndexPrefix<T>(xs: seq<T>, k: nat)
    requires k <= |xs|
    ensures forall y :: y in xs[..k] ==> y in xs && FirstIndex(xs, y) == FirstIndex(xs[..k], y)
  {
    forall y | y in xs[..k]
      ensures y in xs && FirstIndex(xs, y) == FirstIndex(xs[..k], y)
    {
      var i := FirstIndex(xs[..k], y);
      assert xs[i] == y;
    }
  }

  /** pandas `Series.unique`: the distinct values of `xs` in the order in
      which each first appears. */
  function Dedup<T(==, !new)>(xs: seq<T>): (r: seq<T>)
    ensures Distinct(r)
    ensures forall y :: y in r <==> y in xs
    ensures forall a, b :: 0 <= a < b < |r| ==> FirstIndex(xs, r[a]) < FirstIndex(xs, r[b])
  {
    if xs == [] then []
    else
      var n := |xs| - 1;
      var front := Dedup(xs[..n]);
      FirstIndexPrefix(xs, n);
      if xs[n] in front then front
      else
        assert FirstIndex(xs, xs[n]) == n by {
          assert xs[..n + 1] == xs;
        }
        front + [xs[n]]
  }

  /** Deduplication keeps a sequence that has no repeats as it is. */
  lemma {:induction false} DedupOfDistinct<T(!new)>(xs: seq<T>)
    requires Distinct(xs)
    ensures Dedup(xs) == xs
  {
    if xs != [] {
      var front := xs[..|xs| - 1];
      DedupOfDistinct(front);
      assert xs[|xs| - 1] !in front;
      assert front + [xs[|xs| - 1]] == xs;
    }
  }

  /** `xs[np.where(zs == s)]`: the entries of `xs` whose companion in `zs`
      equals `s`, in their original order. */
  function Select<T>(zs: seq<int>, xs: seq<T>, s: int): (r: seq<T>)
    requires |zs| == |xs|
    ensures |r| <= |xs|
  {
    if zs == [] then []
    else
      var front := Select(zs[..|zs| - 1], xs[..|xs| - 1], s);
      assert xs == xs[..|xs| - 1] + [xs[|xs| - 1]];
      if zs[|zs| - 1] == s then front + [xs[|xs| - 1]] else front
  }

  /** Selection only drops entries: what it keeps is a sub-multiset. */
  lemma {:induction false} SelectIsSubMultiset<T>(zs: seq<int>, xs: seq<T>, s: int)
    requires |zs| == |xs|
    ensures multiset(Select(zs, xs, s)) <= multiset(xs)
  {
    if zs != [] {
      var n := |zs| - 1;
      SelectIsSubMultiset(zs[..n], xs[..n], s);
      assert xs == xs[..n] + [xs[n]];
    }
  }

  /** The number of entries of `zs` equal to `s`. */
  function Count(zs: seq<int>, s: int): nat {
    if zs == [] then 0
    else Count(zs[..|zs| - 1], s) + (if zs[|zs| - 1] == s then 1 else 0)
  }

  /** Selection keeps as many entries as the label occurs. */
  lemma {:induction false} SelectLength<T>(zs: seq<int>, xs: seq<T>, s: int)
    requires |zs| == |xs|
    ensures |Select(zs, xs, s)| == Count(zs, s)
  {
    if zs != [] {
      SelectLength(zs[..|zs| - 1], xs[..|xs| - 1], s);
    }
  }

  /** `np.where(zs == s)`: the positions that hold `s`, in increasing order. */
  function Where(zs: seq<int>, s: int): (r: seq<int>)
    ensures StrictlyIncreasing(r)
    ensures forall t :: t in r <==> 0 <= t < |zs| && zs[t] == s
  {
    if zs == [] then []
    else
      var n := |zs| - 1;
      var front := Where(zs[..n], s);
      assert forall t :: t in front <==> 0 <= t < n && zs[t] == s by {
        assert forall t :: 0 <= t < n ==> zs[..n][t] == zs[t];
      }
      assert forall m :: 0 <= m < |front| ==> front[m] < n by {
        forall m | 0 <= m < |front|
          ensures front[m] < n
        {
          assert front[m] in front;
        }
      }
      if zs[n] == s then front + [n] else front
  }

  /** Selection keeps exactly the entries at the positions that carry the
      label, in their order: entry i is `xs` at the i-th such position. */
  lemma {:induction false} SelectIsWhere<T>(zs: seq<int>, xs: seq<T>, s: int)
    requires |zs| == |xs|
    ensures |Select(zs, xs, s)| == |Where(zs, s)|
    ensures forall i :: 0 <= i < |Where(zs, s)| ==>
      0 <= Where(zs, s)[i] < |xs| && Select(zs, xs, s)[i] == xs[Where(zs, s)[i]]
  {
    if zs != [] {
      var n := |zs| - 1;
      SelectIsWhere(zs[..n], xs[..n], s);
      var w, picked := Where(zs[..n], s), Select(zs[..n], xs[..n], s);
      assert Where(zs, s) == if zs[n] == s then w + [n] else w;
      assert Select(zs, xs, s) == if zs[n] == s then picked + [xs[n]] else picked;
      forall i | 0 <= i < |w|
        ensures 0 <= w[i] < n && picked[i] == xs[w[i]]
      {
        assert w[i] in w;
        assert xs[..n][w[i]] == xs[w[i]];
      }
    }
  }

  /** A label that does not occur selects nothing. */
  lemma {:induction false} SelectAbsent<T>(zs: seq<int>, xs: seq<T>, s: int)
    requires |zs| == |xs|
    requires s !in zs
    ensures Select(zs, xs, s) == []
  {
    if zs != [] {
      SelectAbsent(zs[..|zs| - 1], xs[..|xs| - 1], s);
    }
  }
}
