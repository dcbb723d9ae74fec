/** The pieces of the Fourier engine that work on the (i, j, k, site) index
    of the atom table: the levels of the index, the cyclic window of cells a
    lot covers, and the rows a lot or a cell selects. */
module Lots {

  import opened IntArith
  import opened Collections
  import Structures

  /** How many items Python's `xs[:m]` keeps of `n`. */
  function SliceLength(m: int, n: nat): (r: nat)
    ensures r <= n
  {
    if m >= 0 then (if m <= n then m else n)
    else if n + m >= 0 then n + m else 0
  }

  /** `np.roll(levels, shift)`: every entry moves `shift` places to the
      right, wrapping around. */
  function Roll(levels: seq<int>, shift: int): (r: seq<int>)
    ensures |r| == |levels|
  {
    seq(|levels|, t requires 0 <= t < |levels| => levels[(t - shift) % |levels|])
  }

  /** Entry `t` of the levels lands at position `(t + shift) mod n`. */
  lemma RollMovesEachLevel(levels: seq<int>, shift: int, t: int)
    requires 0 <= t < |levels|
    ensures 0 <= (t + shift) % |levels| < |levels|
    ensures Roll(levels, shift)[(t + shift) % |levels|] == levels[t]
  {
    var n := |levels|;
    var u := (t + shift) % n;
    var q := (t + shift) / n;
    assert u - shift == t + (-q) * n;
    ModShift(t, -q, n);
    DivModUnique(t, n, 0, t);
  }

  /** Two different positions below `n` never share a residue. */
  lemma ResiduesDiffer(a: int, b: int, shift: int, n: int)
    requires 0 <= a < b < n
    ensures (a - shift) % n != (b - shift) % n
  {
    var k := (b - shift) / n - (a - shift) / n;
    assert b - a == k * n + ((b - shift) % n - (a - shift) % n);
    MulAtLeast(k, n);
  }

  /** Rolling keeps the same levels, and keeps them distinct. */
  lemma RollKeepsLevels(levels: seq<int>, shift: int)
    ensures forall y :: y in Roll(levels, shift) <==> y in levels
    ensures Distinct(levels) ==> Distinct(Roll(levels, shift))
  {
    var r := Roll(levels, shift);
    forall y | y in levels
      ensures y in r
    {
      var t :| 0 <= t < |levels| && levels[t] == y;
      RollMovesEachLevel(levels, shift, t);
    }
    forall a, b | 0 <= a < b < |r|
      ensures Distinct(levels) ==> r[a] != r[b]
    {
      ResiduesDiffer(a, b, shift, |levels|);
    }
  }

  /** `np.roll(levels, shift)[:m]`: the first `m` entries of the rolled
      levels, as a slice counts them. A lot's range along one axis: the
      cyclic run of levels that starts `shift` places from the end, as long
      as the slice says, made of distinct levels, and all of them when the
      lot is at least as wide as the structure. */
  function Window(levels: seq<int>, shift: int, m: int): (r: seq<int>)
    ensures |r| == SliceLength(m, |levels|)
    ensures forall t :: 0 <= t < |r| ==> r[t] == levels[(t - shift) % |levels|]
    ensures 0 <= m <= |levels| ==> |r| == m
    ensures forall y :: y in r ==> y in levels
    ensures Distinct(levels) ==> Distinct(r)
    ensures m >= |levels| ==> forall y :: y in levels ==> y in r
  {
    RollKeepsLevels(levels, shift);
    var rolled := Roll(levels, shift);
    var r := rolled[..SliceLength(m, |levels|)];
    assert forall y :: y in r ==> y in rolled;
    assert m >= |levels| ==> r == rolled;
    r
  }

  /** One of the three cell indices of a key. */
  function CellIndex(key: Structures.AtomKey, axis: nat): int {
    if axis == 0 then key.i else if axis == 1 then key.j else key.k
  }

  /** `atoms.index.levels[axis]`: the values the table uses along that axis,
      sorted and without repeats. */
  function Level(rows: seq<Structures.AtomRow>, axis: nat): (r: seq<int>)
    ensures StrictlyIncreasing(r)
    ensures forall y :: y in r <==> exists t :: 0 <= t < |rows| && CellIndex(rows[t].key, axis) == y
  {
    var column := seq(|rows|, t requires 0 <= t < |rows| => CellIndex(rows[t].key, axis));
    assert forall y :: y in column <==> exists t :: 0 <= t < |rows| && CellIndex(rows[t].key, axis) == y by {
      forall y | y in column
        ensures exists t :: 0 <= t < |rows| && CellIndex(rows[t].key, axis) == y
      {
        var t :| 0 <= t < |column| && column[t] == y;
      }
      forall y | exists t :: 0 <= t < |rows| && CellIndex(rows[t].key, axis) == y
        ensures y in column
      {
        var t :| 0 <= t < |rows| && CellIndex(rows[t].key, axis) == y;
        assert column[t] == y;
      }
    }
    SortedUnique(column)
  }

  /** Whether a key's cell lies in the ranges `ri`, `rj`, `rk`. */
  predicate InRanges(key: Structures.AtomKey, ri: seq<int>, rj: seq<int>, rk: seq<int>) {
    key.i in ri && key.j in rj && key.k in rk
  }

  /** `.loc[ri, rj, rk, :]`: the entries of `xs` whose row's cell lies in the
      ranges, in table order. */
  function Keep<T>(rows: seq<Structures.AtomRow>, xs: seq<T>, ri: seq<int>, rj: seq<int>, rk: seq<int>): (r: seq<T>)
    requires |rows| == |xs|
    ensures |r| <= |xs|
  {
    if rows == [] then []
    else
      var n := |rows| - 1;
      var front := Keep(rows[..n], xs[..n], ri, rj, rk);
      if InRanges(rows[n].key, ri, rj, rk) then front + [xs[n]] else front
  }

  /** Masking two columns of the same table with the same ranges keeps as
      many entries from each. */
  lemma {:induction false} KeepSameLength<T, U>(rows: seq<Structures.AtomRow>, xs: seq<T>, ys: seq<U>,
                                                ri: seq<int>, rj: seq<int>, rk: seq<int>)
    requires |rows| == |xs| == |ys|
    ensures |Keep(rows, xs, ri, rj, rk)| == |Keep(rows, ys, ri, rj, rk)|
  {
    if rows != [] {
      var n := |rows| - 1;
      KeepSameLength(rows[..n], xs[..n], ys[..n], ri, rj, rk);
    }
  }

  /** A lot keeps exactly the rows whose cell lies in its ranges. */
  lemma {:induction false} KeepSelectsRanges(rows: seq<Structures.AtomRow>, ri: seq<int>, rj: seq<int>, rk: seq<int>)
    ensures forall row :: row in Keep(rows, rows, ri, rj, rk) <==> row in rows && InRanges(row.key, ri, rj, rk)
  {
    if rows != [] {
      var n := |rows| - 1;
      KeepSelectsRanges(rows[..n], ri, rj, rk);
      assert rows == rows[..n] + [rows[n]];
    }
  }

  /** `atoms.loc[i, j, k, :]`: the rows of one cell. */
  function CellRows(rows: seq<Structures.AtomRow>, i: int, j: int, k: int): seq<Structures.AtomRow> {
    Keep(rows, rows, [i], [j], [k])
  }

  /** The `(i, j, k)` triples of the rows, each once, in order of first
      appearance: `index.droplevel(3).drop_duplicates()`. */
  function CellsOf(rows: seq<Structures.AtomRow>): (r: seq<(int, int, int)>)
    ensures Distinct(r)
    ensures forall c :: c in r <==> exists t :: 0 <= t < |rows| && (rows[t].key.i, rows[t].key.j, rows[t].key.k) == c
  {
    var triples := seq(|rows|, t requires 0 <= t < |rows| => (rows[t].key.i, rows[t].key.j, rows[t].key.k));
    assert forall c :: c in triples <==> exists t :: 0 <= t < |rows| && (rows[t].key.i, rows[t].key.j, rows[t].key.k) == c by {
      forall c | c in triples
        ensures exists t :: 0 <= t < |rows| && (rows[t].key.i, rows[t].key.j, rows[t].key.k) == c
      {
        var t :| 0 <= t < |triples| && triples[t] == c;
      }
      forall c | exists t :: 0 <= t < |rows| && (rows[t].key.i, rows[t].key.j, rows[t].key.k) == c
        ensures c in triples
      {
        var t :| 0 <= t < |rows| && (rows[t].key.i, rows[t].key.j, rows[t].key.k) == c;
        assert triples[t] == c;
      }
    }
    Dedup(triples)
  }

  /** `range(n)` as a sequence: empty when `n` is not positive. */
  function Range(n: int): (r: seq<int>)
    ensures forall y :: y in r <==> 0 <= y < n
  {
    if n <= 0 then [] else Range(n - 1) + [n - 1]
  }
}
