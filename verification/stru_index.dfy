/** The index generator of the `.stru` reader. With a site count of zero it
    places every atom in cell (0, 0, 0) and numbers the sites 0, 1, 2, ...
    without end; otherwise it runs through k, then j, then i, then the site,
    the site varying fastest, and stops after the last combination. */
module StruIndex {

  import opened Structures
  import opened IntArith

  /** `i_no, j_no, k_no, atom_sites` from an `ncell` line. */
  datatype CellCounts = CellCounts(ni: int, nj: int, nk: int, sites: int)

  predicate Bounded(c: CellCounts) {
    c.ni > 0 && c.nj > 0 && c.nk > 0 && c.sites > 0
  }

  /** The number of tuples a finite generator yields: `range` of a count
      that is not positive is empty. */
  function FiniteCount(c: CellCounts): nat {
    if Bounded(c) then ((c.nk * c.nj) * c.ni) * c.sites else 0
  }

  /** The position of a key in the k-j-i-site order. */
  function Pos(c: CellCounts, key: AtomKey): int {
    ((key.k * c.nj + key.j) * c.ni + key.i) * c.sites + key.site
  }

  /** The key at a position of the k-j-i-site order. */
  function Decode(c: CellCounts, n: nat): AtomKey
    requires Bounded(c)
  {
    var t := n / c.sites;
    var u := t / c.ni;
    AtomKey(t % c.ni, u % c.nj, u / c.nj, n % c.sites)
  }

  /** The key lies within the i, j and site ranges, with k not negative. */
  predicate InLayer(c: CellCounts, key: AtomKey) {
    0 <= key.i < c.ni && 0 <= key.j < c.nj && 0 <= key.site < c.sites && 0 <= key.k
  }

  /** The `n`-th tuple `gen_index` yields (counting from 0), if it yields
      that many. With a site count of zero the generator never stops and
      keeps to cell (0, 0, 0); otherwise it yields exactly `FiniteCount`
      tuples, each within the ranges of the `ncell` counts, the `n`-th at
      position `n` of the k-j-i-site order. */
  function NthIndex(c: CellCounts, n: nat): (r: Option<AtomKey>)
    ensures c.sites == 0 ==> r == Some(AtomKey(0, 0, 0, n))
    ensures c.sites != 0 ==> (r.Some? <==> n < FiniteCount(c))
    ensures c.sites != 0 && r.Some? ==> InLayer(c, r.value) && r.value.k < c.nk && Pos(c, r.value) == n
  {
    if c.sites == 0 then Some(AtomKey(0, 0, 0, n))
    else if n < FiniteCount(c) then
      PosDecode(c, n);
      PosBelowCount(c, Decode(c, n));
      Some(Decode(c, n))
    else None
  }

  /** One digit of a mixed-radix number: `lo` below `d`, `hi` below `h`
      gives a value below `h * d`; `hi` at least `h` gives one at least
      `h * d`. */
  lemma DigitBounds(hi: int, lo: int, d: int, h: int)
    requires d > 0 && 0 <= lo < d && 0 <= hi && 0 <= h
    ensures hi < h ==> hi * d + lo < h * d
    ensures hi >= h ==> hi * d + lo >= h * d
    ensures hi * d + lo >= 0
  {
    MulAtLeast(h - hi, d);
    MulNonNegative(hi - h, d);
    MulNonNegative(hi, d);
    assert (h - hi) * d == h * d - hi * d;
    assert (hi - h) * d == hi * d - h * d;
  }

  /** Decoding the position of a key gives the key back. */
  lemma DecodePos(c: CellCounts, key: AtomKey)
    requires Bounded(c) && InLayer(c, key)
    ensures Pos(c, key) >= 0 && Decode(c, Pos(c, key)) == key
  {
    var u := key.k * c.nj + key.j;
    var t := u * c.ni + key.i;
    DigitBounds(key.k, key.j, c.nj, 0);
    DigitBounds(u, key.i, c.ni, 0);
    DigitBounds(t, key.site, c.sites, 0);
    DivModUnique(Pos(c, key), c.sites, t, key.site);
    DivModUnique(t, c.ni, u, key.i);
    DivModUnique(u, c.nj, key.k, key.j);
  }

  /** Every position decodes to a key in the layer and encodes back. */
  lemma PosDecode(c: CellCounts, n: nat)
    requires Bounded(c)
    ensures InLayer(c, Decode(c, n)) && Pos(c, Decode(c, n)) == n
  {
    var t := n / c.sites;
    var u := t / c.ni;
    Recompose(n, c.sites);
    Recompose(t, c.ni);
    Recompose(u, c.nj);
    var key := Decode(c, n);
    assert key.k * c.nj + key.j == u;
    assert (key.k * c.nj + key.j) * c.ni + key.i == t;
    assert ((key.k * c.nj + key.j) * c.ni + key.i) * c.sites + key.site == n;
  }

  /** A key of the layer lies before the end exactly when its k is in range. */
  lemma PosBelowCount(c: CellCounts, key: AtomKey)
    requires Bounded(c) && InLayer(c, key)
    ensures key.k < c.nk <==> Pos(c, key) < FiniteCount(c)
  {
    var u := key.k * c.nj + key.j;
    var t := u * c.ni + key.i;
    DigitBounds(key.k, key.j, c.nj, c.nk);
    DigitBounds(u, key.i, c.ni, c.nk * c.nj);
    DigitBounds(t, key.site, c.sites, (c.nk * c.nj) * c.ni);
  }

  /** Two different positions give different tuples. */
  lemma NthIndexInjective(c: CellCounts, n: nat, m: nat)
    requires n != m && NthIndex(c, n).Some? && NthIndex(c, m).Some?
    ensures NthIndex(c, n) != NthIndex(c, m)
  {
    if c.sites != 0 {
      PosDecode(c, n);
      PosDecode(c, m);
    }
  }

  /** The odometer step of the nested loops: advance the site, carrying into
      i, then j, then k; `None` once k runs past its count. */
  function Successor(c: CellCounts, key: AtomKey): Option<AtomKey> {
    if key.site + 1 < c.sites then Some(key.(site := key.site + 1))
    else if key.i + 1 < c.ni then Some(key.(i := key.i + 1, site := 0))
    else if key.j + 1 < c.nj then Some(key.(j := key.j + 1, i := 0, site := 0))
    else if key.k + 1 < c.nk then Some(AtomKey(0, 0, key.k + 1, 0))
    else None
  }

  /** The step moves one position forward, or ends at the last key. */
  lemma SuccessorAdvances(c: CellCounts, key: AtomKey)
    requires Bounded(c) && InLayer(c, key) && key.k < c.nk
    ensures Successor(c, key).Some? ==>
      InLayer(c, Successor(c, key).value) && Successor(c, key).value.k < c.nk
      && Pos(c, Successor(c, key).value) == Pos(c, key) + 1
    ensures Successor(c, key).None? ==> Pos(c, key) + 1 == FiniteCount(c)
  {
    var s := c.sites;
    if key.site + 1 < s {
    } else if key.i + 1 < c.ni {
      assert (key.k * c.nj + key.j) * c.ni + key.i + 1 == (key.k * c.nj + key.j) * c.ni + (key.i + 1);
      assert ((key.k * c.nj + key.j) * c.ni + key.i) * s + s
          == ((key.k * c.nj + key.j) * c.ni + (key.i + 1)) * s;
    } else if key.j + 1 < c.nj {
      assert ((key.k * c.nj + key.j) * c.ni + key.i) * s + s
          == ((key.k * c.nj + key.j) * c.ni + c.ni) * s;
      assert (key.k * c.nj + key.j) * c.ni + c.ni == (key.k * c.nj + (key.j + 1)) * c.ni;
    } else {
      assert ((key.k * c.nj + key.j) * c.ni + key.i) * s + s
          == ((key.k * c.nj + key.j) * c.ni + c.ni) * s;
      assert (key.k * c.nj + key.j) * c.ni + c.ni == (key.k * c.nj + c.nj) * c.ni;
      assert key.k * c.nj + c.nj == (key.k + 1) * c.nj;
      assert ((key.k + 1) * c.nj) * c.ni * s == (((key.k + 1) * c.nj) * c.ni) * s;
    }
  }

  /** Consecutive tuples of a finite generator are related by the odometer
      step: this is the k-j-i-site loop order. */
  lemma NextIndexIsSuccessor(c: CellCounts, n: nat)
    requires c.sites != 0 && NthIndex(c, n).Some?
    ensures NthIndex(c, n + 1) == Successor(c, NthIndex(c, n).value)
  {
    var key := Decode(c, n);
    PosDecode(c, n);
    PosBelowCount(c, key);
    SuccessorAdvances(c, key);
    match Successor(c, key)
    case Some(next) =>
      DecodePos(c, next);
      PosBelowCount(c, next);
    case None =>
  }

  /** `gen_index` as a suspended generator: the loop counters of the nested
      loops, or the site counter of the endless loop. */
  class IndexGenerator {
    const counts: CellCounts
    var produced: nat
    var i: int
    var j: int
    var k: int
    var site: int
    var exhausted: bool

    /** The counters hold the next tuple to yield, or the generator is done. */
    predicate Valid()
      reads this
    {
      if exhausted then NthIndex(counts, produced).None?
      else NthIndex(counts, produced) == Some(AtomKey(i, j, k, site))
    }

    constructor(counts: CellCounts)
      ensures Valid() && this.counts == counts && produced == 0
    {
      this.counts := counts;
      produced := 0;
      i, j, k, site := 0, 0, 0, 0;
      exhausted := counts.sites != 0 && !Bounded(counts);
      new;
      if counts.sites != 0 && Bounded(counts) {
        DecodePos(counts, AtomKey(0, 0, 0, 0));
        PosBelowCount(counts, AtomKey(0, 0, 0, 0));
      }
    }

    /** `next(index_gen)`: the next tuple, or `None` where Python raises
        StopIteration. */
    method Next() returns (r: Option<AtomKey>)
      requires Valid()
      modifies this
      ensures Valid()
      ensures r == NthIndex(counts, old(produced))
      ensures produced == old(produced) + (if r.Some? then 1 else 0)
    {
      if exhausted {
        return None;
      }
      r := Some(AtomKey(i, j, k, site));
      if counts.sites == 0 {
        site := site + 1;
      } else {
        var key := AtomKey(i, j, k, site);
        NextIndexIsSuccessor(counts, produced);
        site := site + 1;
        if site == counts.sites {
          site := 0;
          i := i + 1;
          if i == counts.ni {
            i := 0;
            j := j + 1;
            if j == counts.nj {
              j := 0;
              k := k + 1;
              if k == counts.nk {
                exhausted := true;
              }
            }
          }
        }
        assert exhausted <==> Successor(counts, key).None?;
      }
      produced := produced + 1;
    }
  }
}
