/** The atom table of a crystal structure: one row per (i, j, k, site) key,
    with atomic number, symbol, fractional and Cartesian position. Rows are
    kept in insertion order; writing to an existing key overwrites that row
    in place. */
module Structures {

  import opened Geometry
  import opened RealArith
  import opened Text
  import opened Elements
  import opened Collections
  import UnitCells

  datatype Option<T> = None | Some(value: T)

  datatype StructureError =
    | NoSymbolOrNumber      // ValueError: symbol and/or Z number not given
    | UnknownNumber         // KeyError from the element table
    | UnknownSymbol         // ValueError from the element table
    | SymbolNumberMismatch  // ValueError: symbol and Z don't match
    | NoPosition            // ValueError: position not provided
    | NoUnitCell            // AttributeError on a structure without a cell
    | ZeroRotationAxis      // ValueError: rotation vector of zero length

  datatype Result<T> = Success(value: T) | Failure(error: StructureError)

  /** The cell indices i, j, k and the site number of an atom. */
  datatype AtomKey = AtomKey(i: int, j: int, k: int, site: int)

  datatype AtomRow = AtomRow(key: AtomKey, z: int, symbol: string, position: Vec3, cartn: Vec3)

  function Keys(rows: seq<AtomRow>): (r: seq<AtomKey>)
    ensures |r| == |rows|
    ensures forall n :: 0 <= n < |rows| ==> r[n] == rows[n].key
  {
    if rows == [] then [] else Keys(rows[..|rows| - 1]) + [rows[|rows| - 1].key]
  }

  /** The keys present in the table. */
  function KeySet(rows: seq<AtomRow>): (r: set<AtomKey>)
    ensures forall key :: key in r <==> exists n :: 0 <= n < |rows| && rows[n].key == key
  {
    if rows == [] then {}
    else
      var front := KeySet(rows[..|rows| - 1]);
      assert forall n :: 0 <= n < |rows| - 1 ==> rows[..|rows| - 1][n] == rows[n];
      front + {rows[|rows| - 1].key}
  }

  /** The first position holding `key`, if any. */
  function IndexOf(rows: seq<AtomRow>, key: AtomKey): (r: Option<nat>)
    ensures r.Some? ==> r.value < |rows| && rows[r.value].key == key
    ensures r.None? <==> key !in KeySet(rows)
  {
    if rows == [] then None
    else if rows[0].key == key then Some(0)
    else
      match IndexOf(rows[1..], key)
      case None =>
        assert forall n :: 0 < n < |rows| ==> rows[n] == rows[1..][n - 1];
        None
      case Some(n) => Some(n + 1)
  }

  /** The row a label lookup `atoms.loc[key]` finds. */
  function Lookup(rows: seq<AtomRow>, key: AtomKey): (r: Option<AtomRow>)
    ensures r.None? <==> key !in KeySet(rows)
    ensures r.Some? ==> r.value in rows && r.value.key == key
  {
    match IndexOf(rows, key)
    case None => None
    case Some(n) => Some(rows[n])
  }

  /** `atoms.loc[key] = row`: overwrite the row with that key, or append. */
  function Upsert(rows: seq<AtomRow>, row: AtomRow): (r: seq<AtomRow>)
    ensures |r| == |rows| + (if row.key in KeySet(rows) then 0 else 1)
    ensures row in r
  {
    match IndexOf(rows, row.key)
    case Some(n) =>
      assert rows[n := row][n] == row;
      rows[n := row]
    case None => rows + [row]
  }

  /** Every row after an upsert is the new row or the old row at the same
      place, and rows under other keys stay where they were. */
  lemma UpsertShape(rows: seq<AtomRow>, row: AtomRow)
    ensures forall n :: 0 <= n < |Upsert(rows, row)| ==>
      Upsert(rows, row)[n] == row || (n < |rows| && Upsert(rows, row)[n] == rows[n])
    ensures forall n :: 0 <= n < |rows| && rows[n].key != row.key ==> Upsert(rows, row)[n] == rows[n]
  {
  }

  /** Keys stay unique under upsert. */
  lemma UpsertKeepsKeysDistinct(rows: seq<AtomRow>, row: AtomRow)
    requires Distinct(Keys(rows))
    ensures Distinct(Keys(Upsert(rows, row)))
  {
    var r := Upsert(rows, row);
    match IndexOf(rows, row.key)
    case Some(n) =>
      assert r == rows[n := row];
      assert Keys(r) == Keys(rows);
    case None =>
      assert r == rows + [row];
      forall m, l | 0 <= m < l < |r|
        ensures Keys(r)[m] != Keys(r)[l]
      {
        if l == |rows| {
          assert rows[m].key in KeySet(rows);
        } else {
          assert Keys(rows)[m] != Keys(rows)[l];
        }
      }
  }

  /** Among rows with unique keys a key can only sit at one position. */
  lemma UniquePosition(rows: seq<AtomRow>, m: nat, key: AtomKey)
    requires Distinct(Keys(rows))
    requires m < |rows| && rows[m].key == key
    ensures IndexOf(rows, key) == Some(m)
  {
    var n := IndexOf(rows, key).value;
    assert Keys(rows)[n] == Keys(rows)[m];
  }

  /** After an upsert the key holds the new row and every other key holds
      what it held before. */
  lemma UpsertLookup(rows: seq<AtomRow>, row: AtomRow, key: AtomKey)
    requires Distinct(Keys(rows))
    ensures Lookup(Upsert(rows, row), key) == if key == row.key then Some(row) else Lookup(rows, key)
  {
    var r := Upsert(rows, row);
    UpsertKeepsKeysDistinct(rows, row);
    UpsertShape(rows, row);
    var m :| 0 <= m < |r| && r[m] == row;
    if key == row.key {
      UniquePosition(r, m, key);
    } else {
      match IndexOf(rows, key)
      case None =>
        forall n | 0 <= n < |r|
          ensures r[n].key != key
        {
          if r[n] != row {
            assert n < |rows| && r[n] == rows[n];
          }
        }
      case Some(n) =>
        assert r[n] == rows[n];
        UniquePosition(r, n, key);
    }
  }

  /** With unique keys the table holds one row per key. */
  lemma {:induction false} RowsCountKeys(rows: seq<AtomRow>)
    requires Distinct(Keys(rows))
    ensures |KeySet(rows)| == |rows|
  {
    if rows != [] {
      var front := rows[..|rows| - 1];
      var last := rows[|rows| - 1];
      assert Keys(front) == Keys(rows)[..|rows| - 1];
      RowsCountKeys(front);
      assert KeySet(rows) == KeySet(front) + {last.key};
      forall n | 0 <= n < |front|
        ensures front[n].key != last.key
      {
        assert Keys(rows)[n] != Keys(rows)[|rows| - 1];
      }
      AddNewKey(KeySet(front), last.key);
    }
  }

  /** A new element raises the size of a set by one. */
  lemma AddNewKey(keys: set<AtomKey>, key: AtomKey)
    requires key !in keys
    ensures |keys + {key}| == |keys| + 1
  {
  }

  /** `get_atomic_number_symbol`: reconcile an optional atomic number with a
      possibly empty symbol against the element table. */
  function AtomicNumberSymbol(table: ElementTable, z: Option<int>, symbol: string): (r: Result<(int, string)>)
    ensures r.Success? && z.Some? ==> r.value.0 == z.value
    ensures r.Success? && symbol == "" ==> r.value.0 in table.symbolOf && table.symbolOf[r.value.0] == r.value.1
    ensures r.Success? && symbol != "" ==>
      r.value.1 == Capitalize(symbol) && r.value.1 in table.numberOf && table.numberOf[r.value.1] == r.value.0
    ensures r == Failure(NoSymbolOrNumber) <==> symbol == "" && z.None?
  {
    if symbol == "" then
      if z.None? then Failure(NoSymbolOrNumber)
      else if z.value !in table.symbolOf then Failure(UnknownNumber)
      else Success((z.value, table.symbolOf[z.value]))
    else
      var s := Capitalize(symbol);
      if s !in table.numberOf then Failure(UnknownSymbol)
      else if z.None? then Success((table.numberOf[s], s))
      else if z.value != table.numberOf[s] then Failure(SymbolNumberMismatch)
      else Success((z.value, s))
  }

  /** The failures: neither input given, an unknown number or symbol, or a
      number that contradicts the symbol. */
  lemma AtomicNumberSymbolErrors(table: ElementTable, z: Option<int>, symbol: string)
    ensures symbol == "" && z.None? ==> AtomicNumberSymbol(table, z, symbol) == Failure(NoSymbolOrNumber)
    ensures symbol == "" && z.Some? && z.value !in table.symbolOf ==>
      AtomicNumberSymbol(table, z, symbol) == Failure(UnknownNumber)
    ensures symbol != "" && Capitalize(symbol) !in table.numberOf ==>
      AtomicNumberSymbol(table, z, symbol) == Failure(UnknownSymbol)
    ensures symbol != "" && Capitalize(symbol) in table.numberOf && z.Some?
            && z.value != table.numberOf[Capitalize(symbol)] ==>
      AtomicNumberSymbol(table, z, symbol) == Failure(SymbolNumberMismatch)
  {
  }

  /** A successful answer is a matching pair of the table, and it is the
      given number or the table's number for the capitalised symbol. */
  lemma AtomicNumberSymbolAgrees(table: ElementTable, z: Option<int>, symbol: string)
    requires WellFormed(table)
    requires AtomicNumberSymbol(table, z, symbol).Success?
    ensures var (n, s) := AtomicNumberSymbol(table, z, symbol).value;
      n in table.symbolOf && table.symbolOf[n] == s && s in table.numberOf && table.numberOf[s] == n
      && (z.Some? ==> n == z.value) && (symbol != "" ==> s == Capitalize(symbol))
  {
  }

  /** Feeding an answer back in returns it unchanged. */
  lemma AtomicNumberSymbolIdempotent(table: ElementTable, z: Option<int>, symbol: string)
    requires WellFormed(table)
    requires AtomicNumberSymbol(table, z, symbol).Success?
    ensures var (n, s) := AtomicNumberSymbol(table, z, symbol).value;
      AtomicNumberSymbol(table, Some(n), s) == Success((n, s))
      && AtomicNumberSymbol(table, None, s) == Success((n, s))
  {
    var (n, s) := AtomicNumberSymbol(table, z, symbol).value;
    assert s in table.numberOf && s != "";
  }

  /** The symbol is matched without regard to letter case. */
  lemma AtomicNumberSymbolIgnoresCase(table: ElementTable, z: Option<int>, s: string, t: string)
    requires s != "" && t != "" && Lower(s) == Lower(t)
    ensures AtomicNumberSymbol(table, z, s) == AtomicNumberSymbol(table, z, t)
  {
    CapitalizeIgnoresCase(s, t);
  }

  /** Componentwise product of a fractional position with the cell lengths. */
  function ScaleByLengths(p: Vec3, a: real, b: real, c: real): Vec3 {
    Vec3(p.x * a, p.y * b, p.z * c)
  }

  class Structure {
    var unitcell: UnitCells.UnitCell?
    var atoms: seq<AtomRow>

    /** Every key labels one row. */
    predicate Valid()
      reads this
    {
      Distinct(Keys(atoms))
    }

    constructor()
      ensures Valid()
      ensures unitcell == null && atoms == []
    {
      unitcell := null;
      atoms := [];
    }

    /** `add_atom`: reconcile Z and symbol, insist on a position, compute the
        Cartesian position (the fractional one when there is no cell) and
        write the row under its key. `cartesian` is the cell's conversion. */
    method AddAtom(table: ElementTable, cartesian: Vec3 -> Vec3,
                   i: int, j: int, k: int, site: int,
                   z: Option<int>, symbol: string, position: Option<Vec3>)
      returns (err: Option<StructureError>)
      requires Valid()
      modifies this
      ensures Valid()
      ensures unitcell == old(unitcell)
      ensures AtomicNumberSymbol(table, z, symbol).Failure? ==>
        err == Some(AtomicNumberSymbol(table, z, symbol).error) && atoms == old(atoms)
      ensures AtomicNumberSymbol(table, z, symbol).Success? && position.None? ==>
        err == Some(NoPosition) && atoms == old(atoms)
      ensures AtomicNumberSymbol(table, z, symbol).Success? && position.Some? ==>
        var (n, s) := AtomicNumberSymbol(table, z, symbol).value;
        var cartn := if unitcell == null then position.value else cartesian(position.value);
        err == None
        && atoms == Upsert(old(atoms), AtomRow(AtomKey(i, j, k, site), n, s, position.value, cartn))
    {
      var checked := AtomicNumberSymbol(table, z, symbol);
      if checked.Failure? {
        return Some(checked.error);
      }
      if position.None? {
        return Some(NoPosition);
      }
      var cartn;
      if unitcell == null {
        cartn := position.value;
      } else {
        cartn := cartesian(position.value);
      }
      var row := AtomRow(AtomKey(i, j, k, site), checked.value.0, checked.value.1, position.value, cartn);
      UpsertKeepsKeysDistinct(atoms, row);
      atoms := Upsert(atoms, row);
      err := None;
    }

    /** `number_of_atoms`: the number of distinct keys in the table. */
    function NumberOfAtoms(): (r: nat)
      requires Valid()
      reads this
      ensures r == |KeySet(atoms)|
    {
      RowsCountKeys(atoms);
      |atoms|
    }

    /** `get_atomic_numbers`: the Z column in table order. */
    function AtomicNumbers(): (r: seq<int>)
      reads this
      ensures |r| == |atoms|
      ensures forall n :: 0 <= n < |atoms| ==> r[n] == atoms[n].z
    {
      seq(|atoms|, n requires 0 <= n < |atoms| reads this => atoms[n].z)
    }

    /** `get_atom_Zs`: each atomic number present, once, in order of first
        appearance. */
    function AtomZs(): (r: seq<int>)
      reads this
      ensures Distinct(r)
      ensures forall z :: z in r <==> exists n :: 0 <= n < |atoms| && atoms[n].z == z
      ensures forall z :: z in r ==> z in AtomicNumbers()
      ensures forall a, b :: 0 <= a < b < |r| ==>
        FirstIndex(AtomicNumbers(), r[a]) < FirstIndex(AtomicNumbers(), r[b])
    {
      var zs := AtomicNumbers();
      assert forall z :: z in zs <==> exists n :: 0 <= n < |atoms| && atoms[n].z == z by {
        forall z | z in zs
          ensures exists n :: 0 <= n < |atoms| && atoms[n].z == z
        {
          var n :| 0 <= n < |zs| && zs[n] == z;
        }
      }
      Dedup(zs)
    }

    /** `get_scaled_positions`: the fractional positions in table order. */
    function ScaledPositions(): (r: seq<Vec3>)
      reads this
      ensures |r| == |atoms|
      ensures forall n :: 0 <= n < |atoms| ==> r[n] == atoms[n].position
    {
      seq(|atoms|, n requires 0 <= n < |atoms| reads this => atoms[n].position)
    }

    /** `get_positions`: the fractional positions scaled axis by axis by the
        cell lengths; a structure without a cell has none. */
    function Positions(): (r: Result<seq<Vec3>>)
      reads this, unitcell
      ensures unitcell == null <==> r == Failure(NoUnitCell)
      ensures r.Success? ==> |r.value| == |atoms| && forall n :: 0 <= n < |atoms| ==>
        r.value[n] == ScaleByLengths(ScaledPositions()[n], unitcell.a, unitcell.b, unitcell.c)
    {
      if unitcell == null then Failure(NoUnitCell)
      else
        var a, b, c := unitcell.a, unitcell.b, unitcell.c;
        Success(seq(|atoms|, n requires 0 <= n < |atoms| reads this =>
                  ScaleByLengths(atoms[n].position, a, b, c)))
    }
  }

  /** The zero-length guard and normalisation of `get_rotation_matrix`'s
      axis; `sqrt` stands for numpy's square root. */
  function RotationAxis(l: real, m: real, n: real, sqrt: real -> real): (r: Result<Vec3>)
    ensures r.Failure? ==> r.error == ZeroRotationAxis
    ensures r.Success? ==> Scale(sqrt(Dot(Vec3(l, m, n), Vec3(l, m, n))), r.value) == Vec3(l, m, n)
  {
    var norm := sqrt(Dot(Vec3(l, m, n), Vec3(l, m, n)));
    if norm == 0.0 then Failure(ZeroRotationAxis)
    else Success(Vec3(l / norm, m / norm, n / norm))
  }

  lemma QuotientSquare(x: real, y: real)
    requires y != 0.0
    ensures Sq(y) != 0.0 && Sq(x / y) == Sq(x) / Sq(y)
  {
    SqPositive(y);
    var q := x / y;
    assert x == q * y;
    assert Sq(x) == Sq(q) * Sq(y);
  }

  lemma SqZero(t: real)
    ensures Sq(t) == 0.0 ==> t == 0.0
  {
    if t != 0.0 {
      SqPositive(t);
    }
  }

  lemma SumOfQuotients(p: real, q: real, r: real, y: real)
    requires y != 0.0
    ensures p / y + q / y + r / y == (p + q + r) / y
  {
  }

  /** Dividing a vector by its length gives a unit vector. */
  lemma NormalisedIsUnit(v: Vec3, norm: real)
    requires norm != 0.0 && Sq(norm) == Dot(v, v)
    ensures var u := Vec3(v.x / norm, v.y / norm, v.z / norm); Dot(u, u) == 1.0
  {
    var u := Vec3(v.x / norm, v.y / norm, v.z / norm);
    QuotientSquare(v.x, norm);
    QuotientSquare(v.y, norm);
    QuotientSquare(v.z, norm);
    assert Dot(u, u) == Sq(v.x) / Sq(norm) + Sq(v.y) / Sq(norm) + Sq(v.z) / Sq(norm);
    SumOfQuotients(Sq(v.x), Sq(v.y), Sq(v.z), Sq(norm));
    assert Sq(v.x) + Sq(v.y) + Sq(v.z) == Sq(norm);
  }

  /** With a square root that squares back, the axis is rejected exactly
      when it is zero. */
  lemma RotationAxisRejectsZero(l: real, m: real, n: real, sqrt: real -> real)
    requires forall x :: x >= 0.0 ==> sqrt(x) >= 0.0 && Sq(sqrt(x)) == x
    ensures RotationAxis(l, m, n, sqrt).Failure? <==> Vec3(l, m, n) == Origin
  {
    var v := Vec3(l, m, n);
    var d := Dot(v, v);
    DotSelfNonNegative(v);
    var norm := sqrt(d);
    assert Sq(norm) == d;
    SqZero(norm);
    if v != Origin {
      DotSelfPositive(v);
    }
  }

  /** An accepted axis is normalised to unit length. */
  lemma RotationAxisIsUnit(l: real, m: real, n: real, sqrt: real -> real)
    requires forall x :: x >= 0.0 ==> sqrt(x) >= 0.0 && Sq(sqrt(x)) == x
    requires RotationAxis(l, m, n, sqrt).Success?
    ensures Dot(RotationAxis(l, m, n, sqrt).value, RotationAxis(l, m, n, sqrt).value) == 1.0
  {
    var v := Vec3(l, m, n);
    DotSelfNonNegative(v);
    var norm := sqrt(Dot(v, v));
    assert Sq(norm) == Dot(v, v);
    NormalisedIsUnit(v, norm);
  }
}
