/** The crystallographic unit cell: six lattice parameters, the metric tensor
    G built from them in place, and the reciprocal-lattice parameters derived
    from the inverse of G. Floating-point library routines (cosine, square
    root, arccosine, division and matrix inversion) are supplied as a
    `Numerics` value; every lemma states the property of them it relies on. */
module UnitCells {

  import opened Geometry
  import opened RealArith

  /** A 3x3 real matrix, row by row. */
  datatype Mat3 = Mat3(m00: real, m01: real, m02: real,
                       m10: real, m11: real, m12: real,
                       m20: real, m21: real, m22: real)
  {
    function At(i: nat, j: nat): real
      requires i < 3 && j < 3
    {
      if i == 0 then (if j == 0 then m00 else if j == 1 then m01 else m02)
      else if i == 1 then (if j == 0 then m10 else if j == 1 then m11 else m12)
      else (if j == 0 then m20 else if j == 1 then m21 else m22)
    }
  }

  /** The numpy routines the cell uses. `inverse` answers `None` for a
      singular matrix, where `getI` raises. `divide` is float division,
      whose result for a zero divisor is not a real number. */
  datatype Numerics = Numerics(cos: real -> real, sqrt: real -> real,
                               arccos: real -> real, divide: (real, real) -> real,
                               inverse: Mat3 -> Option<Mat3>)

  datatype Option<T> = None | Some(value: T)

  /** a, b, c and the angles alpha, beta, gamma, in the units the caller
      sees them in. */
  datatype CellParams = CellParams(a: real, b: real, c: real,
                                   alpha: real, beta: real, gamma: real)

  datatype CellError = InvalidParameterCount | InvalidAngles | SingularMetric

  /** The lattice parameters `set_cell` stores for a flattened argument list,
      angles already in radians; `None` for a count other than 1, 3 or 6. */
  function StoredParams(args: seq<real>): (r: Option<CellParams>)
    ensures r.Some? <==> |args| == 1 || |args| == 3 || |args| == 6
  {
    if |args| == 1 then
      Some(CellParams(args[0], args[0], args[0], Radians(90.0), Radians(90.0), Radians(90.0)))
    else if |args| == 3 then
      Some(CellParams(args[0], args[1], args[2], Radians(90.0), Radians(90.0), Radians(90.0)))
    else if |args| == 6 then
      Some(CellParams(args[0], args[1], args[2], Radians(args[3]), Radians(args[4]), Radians(args[5])))
    else None
  }

  /** No angle exceeds the sum of the other two. */
  predicate AnglesFeasible(p: CellParams) {
    !(p.alpha > p.beta + p.gamma || p.beta > p.alpha + p.gamma || p.gamma > p.alpha + p.beta)
  }

  /** The metric tensor of a cell whose angles are in radians. */
  function MetricTensor(p: CellParams, cos: real -> real): Mat3 {
    var ab := p.a * p.b * cos(p.gamma);
    var ac := p.a * p.c * cos(p.beta);
    var bc := p.b * p.c * cos(p.alpha);
    Mat3(Sq(p.a), ab, ac,
         ab, Sq(p.b), bc,
         ac, bc, Sq(p.c))
  }

  /** The reciprocal lattice parameters read off the inverse metric tensor. */
  function ReciprocalParams(gstar: Mat3, num: Numerics): CellParams {
    var ra := num.sqrt(gstar.m00);
    var rb := num.sqrt(gstar.m11);
    var rc := num.sqrt(gstar.m22);
    CellParams(ra, rb, rc,
               num.arccos(num.divide(gstar.m12, Prod(rb, rc))),
               num.arccos(num.divide(gstar.m02, Prod(ra, rc))),
               num.arccos(num.divide(gstar.m01, Prod(ra, rb))))
  }

  /** Lengths unchanged, angles from radians to degrees, as `get_cell` reports
      them. */
  function InDegrees(p: CellParams): CellParams {
    CellParams(p.a, p.b, p.c, Degrees(p.alpha), Degrees(p.beta), Degrees(p.gamma))
  }

  function Identity(): Mat3 {
    Mat3(1.0, 0.0, 0.0, 0.0, 1.0, 0.0, 0.0, 0.0, 1.0)
  }

  function MatMul(m: Mat3, n: Mat3): Mat3 {
    Mat3(m.m00 * n.m00 + m.m01 * n.m10 + m.m02 * n.m20,
         m.m00 * n.m01 + m.m01 * n.m11 + m.m02 * n.m21,
         m.m00 * n.m02 + m.m01 * n.m12 + m.m02 * n.m22,
         m.m10 * n.m00 + m.m11 * n.m10 + m.m12 * n.m20,
         m.m10 * n.m01 + m.m11 * n.m11 + m.m12 * n.m21,
         m.m10 * n.m02 + m.m11 * n.m12 + m.m12 * n.m22,
         m.m20 * n.m00 + m.m21 * n.m10 + m.m22 * n.m20,
         m.m20 * n.m01 + m.m21 * n.m11 + m.m22 * n.m21,
         m.m20 * n.m02 + m.m21 * n.m12 + m.m22 * n.m22)
  }

  function Det(m: Mat3): real {
    m.m00 * (m.m11 * m.m22 - m.m12 * m.m21)
      - m.m01 * (m.m10 * m.m22 - m.m12 * m.m20)
      + m.m02 * (m.m10 * m.m21 - m.m11 * m.m20)
  }

  /** What numpy's `getI` promises of a matrix inverse: wherever it answers,
      the answer times the matrix is the identity, and it answers for every
      matrix whose determinant is not zero. */
  ghost predicate Inverts(inverse: Mat3 -> Option<Mat3>) {
    forall m :: (inverse(m).Some? ==> MatMul(m, inverse(m).value) == Identity())
                && (Det(m) != 0.0 ==> inverse(m).Some?)
  }

  function Diagonal(d0: real, d1: real, d2: real): Mat3 {
    Mat3(d0, 0.0, 0.0, 0.0, d1, 0.0, 0.0, 0.0, d2)
  }

  lemma ZeroFactor(a: real, b: real)
    requires a != 0.0 && a * b == 0.0
    ensures b == 0.0
  {
  }

  lemma UnitFactor(a: real, b: real)
    requires a != 0.0 && a * b == 1.0
    ensures b == 1.0 / a
  {
  }

  /** A diagonal matrix with no zero on its diagonal is inverted entry by
      entry. */
  lemma DiagonalInverse(inverse: Mat3 -> Option<Mat3>, d0: real, d1: real, d2: real)
    requires Inverts(inverse) && d0 != 0.0 && d1 != 0.0 && d2 != 0.0
    ensures inverse(Diagonal(d0, d1, d2)) == Some(Diagonal(1.0 / d0, 1.0 / d1, 1.0 / d2))
  {
    var d := Diagonal(d0, d1, d2);
    assert Det(d) == d0 * (d1 * d2);
    assert d1 * d2 != 0.0;
    assert d0 * (d1 * d2) != 0.0;
    var x := inverse(d).value;
    assert MatMul(d, x) == Identity();
    UnitFactor(d0, x.m00);
    UnitFactor(d1, x.m11);
    UnitFactor(d2, x.m22);
    ZeroFactor(d0, x.m01);
    ZeroFactor(d0, x.m02);
    ZeroFactor(d1, x.m10);
    ZeroFactor(d1, x.m12);
    ZeroFactor(d2, x.m20);
    ZeroFactor(d2, x.m21);
  }

  class UnitCell {
    var a: real
    var b: real
    var c: real
    var alpha: real
    var beta: real
    var gamma: real
    var ra: real
    var rb: real
    var rc: real
    var ralpha: real
    var rbeta: real
    var rgamma: real
    /** The metric tensor, updated entry by entry. */
    const G: array2<real>
    const num: Numerics

    predicate Valid() {
      G.Length0 == 3 && G.Length1 == 3
    }

    function Params(): CellParams
      reads this
    {
      CellParams(a, b, c, alpha, beta, gamma)
    }

    function Reciprocal(): CellParams
      reads this
    {
      CellParams(ra, rb, rc, ralpha, rbeta, rgamma)
    }

    /** The current contents of G. */
    function Metric(): (r: Mat3)
      requires Valid()
      reads G
      ensures forall i: nat, j: nat :: i < 3 && j < 3 ==> r.At(i, j) == G[i, j]
    {
      Mat3(G[0, 0], G[0, 1], G[0, 2],
           G[1, 0], G[1, 1], G[1, 2],
           G[2, 0], G[2, 1], G[2, 2])
    }

    /** A cubic cell of side 1 with right angles, G the identity. */
    constructor(num: Numerics)
      ensures Valid() && fresh(G)
      ensures this.num == num
      ensures Params() == CellParams(1.0, 1.0, 1.0, Radians(90.0), Radians(90.0), Radians(90.0))
      ensures Reciprocal() == Params()
      ensures Metric() == Identity()
    {
      this.num := num;
      a, b, c := 1.0, 1.0, 1.0;
      alpha, beta, gamma := Radians(90.0), Radians(90.0), Radians(90.0);
      ra, rb, rc := 1.0, 1.0, 1.0;
      ralpha, rbeta, rgamma := Radians(90.0), Radians(90.0), Radians(90.0);
      G := new real[3, 3]((i, j) => if i == j then 1.0 else 0.0);
    }

    /** `set_cell`: dispatch on the number of values, store the parameters,
        then rebuild G and the reciprocal lattice. Each failure leaves
        visible exactly the updates made before it. */
    method SetCell(args: seq<real>) returns (err: Option<CellError>)
      requires Valid()
      modifies this, G
      ensures Valid()
      ensures StoredParams(args).None? ==>
        err == Some(InvalidParameterCount) && unchanged(this) && unchanged(G)
      ensures StoredParams(args).Some? ==> Params() == StoredParams(args).value
      ensures StoredParams(args).Some? && !AnglesFeasible(Params()) ==>
        err == Some(InvalidAngles) && unchanged(G) && Reciprocal() == old(Reciprocal())
      ensures StoredParams(args).Some? && AnglesFeasible(Params()) ==>
        Metric() == MetricTensor(Params(), num.cos)
      ensures StoredParams(args).Some? && AnglesFeasible(Params()) && num.inverse(Metric()).None? ==>
        err == Some(SingularMetric) && Reciprocal() == old(Reciprocal())
      ensures StoredParams(args).Some? && AnglesFeasible(Params()) && num.inverse(Metric()).Some? ==>
        err == None && Reciprocal() == ReciprocalParams(num.inverse(Metric()).value, num)
    {
      var stored := Store(args);
      if !stored {
        return Some(InvalidParameterCount);
      }
      err := Rebuild();
    }

    /** The dispatch of `set_cell` on the number of values: one length, three
        lengths, or three lengths and three angles in degrees. */
    method Store(args: seq<real>) returns (stored: bool)
      modifies this
      ensures stored <==> StoredParams(args).Some?
      ensures stored ==> Params() == StoredParams(args).value
      ensures !stored ==> unchanged(this)
      ensures Reciprocal() == old(Reciprocal())
    {
      stored := true;
      if |args| == 1 {
        a, b, c := args[0], args[0], args[0];
        alpha, beta, gamma := Radians(90.0), Radians(90.0), Radians(90.0);
      } else if |args| == 3 {
        a, b, c := args[0], args[1], args[2];
        alpha, beta, gamma := Radians(90.0), Radians(90.0), Radians(90.0);
      } else if |args| == 6 {
        a, b, c := args[0], args[1], args[2];
        alpha, beta, gamma := Radians(args[3]), Radians(args[4]), Radians(args[5]);
      } else {
        stored := false;
      }
    }

    /** The tail of `set_cell`: rebuild G from the stored parameters, then
        the reciprocal lattice from G, stopping at the first failure. */
    method Rebuild() returns (err: Option<CellError>)
      requires Valid()
      modifies this, G
      ensures Valid() && Params() == old(Params())
      ensures !AnglesFeasible(Params()) ==>
        err == Some(InvalidAngles) && unchanged(G) && Reciprocal() == old(Reciprocal())
      ensures AnglesFeasible(Params()) ==> Metric() == MetricTensor(Params(), num.cos)
      ensures AnglesFeasible(Params()) && num.inverse(Metric()).None? ==>
        err == Some(SingularMetric) && Reciprocal() == old(Reciprocal())
      ensures AnglesFeasible(Params()) && num.inverse(Metric()).Some? ==>
        err == None && Reciprocal() == ReciprocalParams(num.inverse(Metric()).value, num)
    {
      err := CalculateG();
      if err.Some? {
        return;
      }
      err := CalculateReciprocalLattice();
    }

    /** `get_cell`: the lattice parameters with the angles in degrees. */
    function Cell(): (r: CellParams)
      reads this
      ensures r.a == a && r.b == b && r.c == c
      ensures Radians(r.alpha) == alpha && Radians(r.beta) == beta && Radians(r.gamma) == gamma
    {
      InDegrees(Params())
    }

    /** `get_ReciprocalCell`: the reciprocal parameters, angles in degrees. */
    function ReciprocalCell(): (r: CellParams)
      reads this
      ensures r.a == ra && r.b == rb && r.c == rc
      ensures Radians(r.alpha) == ralpha && Radians(r.beta) == rbeta && Radians(r.gamma) == rgamma
    {
      InDegrees(Reciprocal())
    }

    /** `get_Gstar`: the inverse of the current G, absent when G is singular. */
    function Gstar(): (r: Option<Mat3>)
      requires Valid()
      reads G
      ensures Inverts(num.inverse) && r.Some? ==> MatMul(Metric(), r.value) == Identity()
      ensures Inverts(num.inverse) && Det(Metric()) != 0.0 ==> r.Some?
    {
      num.inverse(Metric())
    }

    /** `__calculateG`: reject an infeasible angle triple, otherwise write the
        six distinct entries of G and mirror the off-diagonal ones. */
    method CalculateG() returns (err: Option<CellError>)
      requires Valid()
      modifies G
      ensures !AnglesFeasible(Params()) ==> err == Some(InvalidAngles) && unchanged(G)
      ensures AnglesFeasible(Params()) ==> err == None && Metric() == MetricTensor(Params(), num.cos)
    {
      if alpha > beta + gamma || beta > alpha + gamma || gamma > alpha + beta {
        return Some(InvalidAngles);
      }
      var ab, ac, bc := a * b * num.cos(gamma), a * c * num.cos(beta), b * c * num.cos(alpha);
      assert MetricTensor(Params(), num.cos) == Mat3(Sq(a), ab, ac, ab, Sq(b), bc, ac, bc, Sq(c));
      WriteMetric(Sq(a), Sq(b), Sq(c), ab, ac, bc);
      err := None;
    }

    /** The writes of `__calculateG`: the diagonal, the upper triangle, then
        the lower triangle copied from the upper one. */
    method WriteMetric(aa: real, bb: real, cc: real, ab: real, ac: real, bc: real)
      requires Valid()
      modifies G
      ensures Metric() == Mat3(aa, ab, ac, ab, bb, bc, ac, bc, cc)
    {
      G[0, 0] := aa;
      G[1, 1] := bb;
      G[2, 2] := cc;
      G[0, 1] := ab;
      G[0, 2] := ac;
      G[1, 2] := bc;
      G[1, 0] := G[0, 1];
      G[2, 0] := G[0, 2];
      G[2, 1] := G[1, 2];
    }

    /** `__calculateReciprocalLattice`: invert G and read the reciprocal
        parameters off the inverse. */
    method CalculateReciprocalLattice() returns (err: Option<CellError>)
      requires Valid()
      modifies this
      ensures Params() == old(Params())
      ensures Gstar().None? ==> err == Some(SingularMetric) && Reciprocal() == old(Reciprocal())
      ensures Gstar().Some? ==> err == None && Reciprocal() == ReciprocalParams(Gstar().value, num)
    {
      var gstar := num.inverse(Metric());
      if gstar.None? {
        return Some(SingularMetric);
      }
      var m := gstar.value;
      ra := num.sqrt(m.m00);
      rb := num.sqrt(m.m11);
      rc := num.sqrt(m.m22);
      ralpha := num.arccos(num.divide(m.m12, Prod(rb, rc)));
      rbeta := num.arccos(num.divide(m.m02, Prod(ra, rc)));
      rgamma := num.arccos(num.divide(m.m01, Prod(ra, rb)));
      err := None;
    }
  }

  /** G is symmetric, carries the squared lengths on its diagonal and the
      products of two lengths with the cosine of the angle between them off
      it. */
  lemma MetricTensorEntries(p: CellParams, cos: real -> real)
    ensures forall i: nat, j: nat :: i < 3 && j < 3 ==>
      MetricTensor(p, cos).At(i, j) == MetricTensor(p, cos).At(j, i)
    ensures MetricTensor(p, cos).At(0, 0) == Sq(p.a)
    ensures MetricTensor(p, cos).At(1, 1) == Sq(p.b)
    ensures MetricTensor(p, cos).At(2, 2) == Sq(p.c)
    ensures MetricTensor(p, cos).At(0, 1) == p.a * p.b * cos(p.gamma)
    ensures MetricTensor(p, cos).At(0, 2) == p.a * p.c * cos(p.beta)
    ensures MetricTensor(p, cos).At(1, 2) == p.b * p.c * cos(p.alpha)
  {
  }

  /** With right angles (and a cosine that vanishes there) G is the diagonal
      matrix of squared lengths. */
  lemma RightAngledMetricIsDiagonal(args: seq<real>, cos: real -> real)
    requires |args| == 1 || |args| == 3
    requires cos(Radians(90.0)) == 0.0
    ensures MetricTensor(StoredParams(args).value, cos)
         == Mat3(Sq(args[0]), 0.0, 0.0,
                 0.0, Sq(args[|args| / 2]), 0.0,
                 0.0, 0.0, Sq(args[|args| - 1]))
  {
    var p := StoredParams(args).value;
    assert p.a * p.b * cos(p.gamma) == 0.0;
    assert p.a * p.c * cos(p.beta) == 0.0;
    assert p.b * p.c * cos(p.alpha) == 0.0;
  }

  /** For a cell with right angles and no zero length, G* is the diagonal
      matrix of inverse squared lengths: the reciprocal lengths are 1/a,
      1/b and 1/c. */
  lemma RightAngledGstar(args: seq<real>, num: Numerics)
    requires |args| == 1 || |args| == 3
    requires num.cos(Radians(90.0)) == 0.0 && Inverts(num.inverse)
    requires forall n :: 0 <= n < |args| ==> args[n] != 0.0
    ensures num.inverse(MetricTensor(StoredParams(args).value, num.cos))
         == Some(Diagonal(Sq(1.0 / args[0]), Sq(1.0 / args[|args| / 2]), Sq(1.0 / args[|args| - 1])))
  {
    RightAngledMetricIsDiagonal(args, num.cos);
    SqReciprocal(args[0]);
    SqReciprocal(args[|args| / 2]);
    SqReciprocal(args[|args| - 1]);
    DiagonalInverse(num.inverse, Sq(args[0]), Sq(args[|args| / 2]), Sq(args[|args| - 1]));
  }

  lemma SqReciprocal(a: real)
    requires a != 0.0
    ensures Sq(a) != 0.0 && Sq(1.0 / a) == 1.0 / Sq(a)
  {
    SqPositive(a);
    var b := 1.0 / a;
    assert a * b == 1.0;
    assert Sq(a) * Sq(b) == (a * b) * (a * b);
    UnitFactor(Sq(a), Sq(b));
  }

  /** The cell values a caller passes to `set_cell`, widened to six with
      right angles for the one- and three-value forms. */
  function RequestedCell(args: seq<real>): CellParams
    requires |args| == 1 || |args| == 3 || |args| == 6
  {
    if |args| == 1 then CellParams(args[0], args[0], args[0], 90.0, 90.0, 90.0)
    else if |args| == 3 then CellParams(args[0], args[1], args[2], 90.0, 90.0, 90.0)
    else CellParams(args[0], args[1], args[2], args[3], args[4], args[5])
  }

  /** Storing in radians and reporting in degrees gives back what was set:
      `get_cell` after `set_cell` returns the requested cell. */
  lemma StoredCellRoundTrip(args: seq<real>)
    requires |args| == 1 || |args| == 3 || |args| == 6
    ensures InDegrees(StoredParams(args).value) == RequestedCell(args)
  {
    DegreesOfRadians(90.0);
    if |args| == 6 {
      DegreesOfRadians(args[3]);
      DegreesOfRadians(args[4]);
      DegreesOfRadians(args[5]);
    }
  }

  /** The angle test on radians accepts exactly the triples whose degree
      values satisfy it; one or three values always pass. */
  lemma FeasibleInDegrees(args: seq<real>)
    requires |args| == 1 || |args| == 3 || |args| == 6
    ensures AnglesFeasible(StoredParams(args).value) <==> AnglesFeasible(RequestedCell(args))
    ensures |args| < 6 ==> AnglesFeasible(StoredParams(args).value)
  {
  }

  /** `UnitCell(*args)`: a fresh default cell, then `set_cell` when values
      are given; a failing `set_cell` means no cell is returned. */
  method Create(num: Numerics, args: seq<real>) returns (r: Result)
    ensures r.Made? ==> fresh(r.cell) && r.cell.Valid()
    ensures args == [] ==> r.Made? && r.cell.Params() == CellParams(1.0, 1.0, 1.0, Radians(90.0), Radians(90.0), Radians(90.0))
    ensures args != [] ==>
              (r.Made? <==> (StoredParams(args).Some? && AnglesFeasible(StoredParams(args).value)
                             && num.inverse(MetricTensor(StoredParams(args).value, num.cos)).Some?))
    ensures r.Made? && args != [] ==> r.cell.Params() == StoredParams(args).value
  {
    var cell := new UnitCell(num);
    if args != [] {
      var err := cell.SetCell(args);
      if err.Some? {
        return Refused(err.value);
      }
    }
    return Made(cell);
  }

  datatype Result = Made(cell: UnitCell) | Refused(error: CellError)
}
