/** What the Fourier engine computes at one point of the reciprocal-space
    grid. `phase` stands for the map theta -> exp(i theta); the lemmas assume
    of it only that it turns sums into products. The form-factor tables of
    the periodic-table library are finite maps. */
module FourierSpec {

  import opened ComplexArith
  import opened RealArith
  import opened Collections
  import Geometry
  import VectorReject

  datatype Option<T> = None | Some(value: T)

  datatype Result<T, E> = Success(value: T) | Failure(error: E)

  /** One grid point: its reciprocal-lattice coordinates (before the factor
      2 pi) and the magnitude |Q| the engine obtains from the cell. */
  datatype QPoint = QPoint(q: Geometry.Vec3, qmag: real)

  /** The scattering vector the phases use: every component times 2 pi. */
  function ScaledQ(pt: QPoint): Geometry.Vec3 {
    Geometry.Scale(Geometry.TwoPi, pt.q)
  }

  /** exp(i (a + b)) = exp(i a) exp(i b). */
  ghost predicate IsPhase(phase: real -> Complex) {
    forall a, b {:trigger Mul(phase(a), phase(b))} :: phase(a + b) == Mul(phase(a), phase(b))
  }

  /** The contribution exp(i Q.r) of one atom: as a product of one factor per
      axis on the fast path, as one exponential of the dot product on the
      slow path. */
  function AtomPhase(phase: real -> Complex, q: Geometry.Vec3, r: Geometry.Vec3, fast: bool): Complex {
    if fast then Mul(Mul(phase(q.x * r.x), phase(q.y * r.y)), phase(q.z * r.z))
    else phase(q.x * r.x + q.y * r.y + q.z * r.z)
  }

  /** Both paths compute the same phase. */
  lemma FastEqualsSlow(phase: real -> Complex, q: Geometry.Vec3, r: Geometry.Vec3)
    requires IsPhase(phase)
    ensures AtomPhase(phase, q, r, true) == AtomPhase(phase, q, r, false)
  {
    var a, b, c := q.x * r.x, q.y * r.y, q.z * r.z;
    assert phase(a + b) == Mul(phase(a), phase(b));
    assert phase((a + b) + c) == Mul(phase(a + b), phase(c));
  }

  /** The phases of a list of atoms, in order. */
  function Phases(phase: real -> Complex, q: Geometry.Vec3, rs: seq<Geometry.Vec3>, fast: bool): (r: seq<Complex>)
    ensures |r| == |rs|
    ensures forall t :: 0 <= t < |rs| ==> r[t] == AtomPhase(phase, q, rs[t], fast)
  {
    if rs == [] then [] else Phases(phase, q, rs[..|rs| - 1], fast) + [AtomPhase(phase, q, rs[|rs| - 1], fast)]
  }

  lemma PhasesAppend(phase: real -> Complex, q: Geometry.Vec3, rs: seq<Geometry.Vec3>, r: Geometry.Vec3, fast: bool)
    ensures Phases(phase, q, rs + [r], fast) == Phases(phase, q, rs, fast) + [AtomPhase(phase, q, r, fast)]
  {
    assert (rs + [r])[..|rs|] == rs;
  }

  /** Selecting the atoms of one species commutes with computing phases. */
  lemma {:induction false} SelectPhases(phase: real -> Complex, q: Geometry.Vec3, zs: seq<int>,
                                        rs: seq<Geometry.Vec3>, s: int, fast: bool)
    requires |zs| == |rs|
    ensures Phases(phase, q, Select(zs, rs, s), fast) == Select(zs, Phases(phase, q, rs, fast), s)
  {
    if zs != [] {
      var n := |zs| - 1;
      var ps := Phases(phase, q, rs, fast);
      assert rs == rs[..n] + [rs[n]];
      PhasesAppend(phase, q, rs[..n], rs[n], fast);
      assert ps[..n] == Phases(phase, q, rs[..n], fast);
      SelectPhases(phase, q, zs[..n], rs[..n], s, fast);
      var front := Select(zs[..n], rs[..n], s);
      if zs[n] == s {
        PhasesAppend(phase, q, front, rs[n], fast);
      }
    }
  }

  /** The sum of a list of amplitudes, accumulated front to back. */
  function SumC(xs: seq<Complex>): Complex {
    if xs == [] then Zero else Add(SumC(xs[..|xs| - 1]), xs[|xs| - 1])
  }

  /** The periodic-table data the engine consults: the coherent neutron
      length, the X-ray form factor f0(q) and, per ion charge, the magnetic
      form factor j0(q). */
  datatype FormFactors = FormFactors(neutron: map<int, real>,
                                     xray: map<int, real -> real>,
                                     magnetic: map<int, map<int, real -> real>>)

  /** ValueError for a radiation other than 'neutron' or 'xray'; KeyError for
      an element the table lacks. */
  datatype FFError = UnknownRadiation | NoScatteringData

  /** `get_ff` at one |Q|. */
  function GetFF(tables: FormFactors, z: int, radiation: string, qmag: real): (r: Result<real, FFError>)
    ensures r == Failure(UnknownRadiation) <==> radiation != "neutron" && radiation != "xray"
    ensures r.Success? <==> (radiation == "neutron" && z in tables.neutron) || (radiation == "xray" && z in tables.xray)
    ensures r.Success? && radiation == "neutron" ==> r.value == tables.neutron[z]
    ensures r.Success? && radiation == "xray" ==> r.value == tables.xray[z](qmag)
  {
    if radiation == "neutron" then
      if z in tables.neutron then Success(tables.neutron[z]) else Failure(NoScatteringData)
    else if radiation == "xray" then
      if z in tables.xray then Success(tables.xray[z](qmag)) else Failure(NoScatteringData)
    else Failure(UnknownRadiation)
  }

  /** The radiation is checked before the element; the neutron value does
      not depend on |Q|; the lookup fails or succeeds alike at every |Q|. */
  lemma GetFFDispatch(tables: FormFactors, z: int, radiation: string, qmag: real, qmag': real)
    ensures radiation != "neutron" && radiation != "xray" ==>
      GetFF(tables, z, radiation, qmag) == Failure(UnknownRadiation)
    ensures radiation == "neutron" ==> GetFF(tables, z, radiation, qmag) == GetFF(tables, z, radiation, qmag')
    ensures radiation == "xray" && z in tables.xray ==>
      GetFF(tables, z, radiation, qmag) == Success(tables.xray[z](qmag))
    ensures GetFF(tables, z, radiation, qmag).Failure? <==> GetFF(tables, z, radiation, qmag').Failure?
  {
  }

  /** `get_ff` over a whole grid: one value per point, or the error the
      scalar lookup gives at every point. */
  function FormFactorField(tables: FormFactors, z: int, radiation: string, grid: seq<QPoint>): (r: Result<seq<real>, FFError>)
    ensures r.Success? ==> |r.value| == |grid|
    ensures r.Success? ==> forall p :: 0 <= p < |grid| ==> GetFF(tables, z, radiation, grid[p].qmag) == Success(r.value[p])
    ensures r.Failure? ==> forall qmag :: GetFF(tables, z, radiation, qmag) == Failure(r.error)
  {
    if radiation == "neutron" then
      if z in tables.neutron then Success(seq(|grid|, p => tables.neutron[z])) else Failure(NoScatteringData)
    else if radiation == "xray" then
      if z in tables.xray then
        var f := tables.xray[z];
        Success(seq(|grid|, p requires 0 <= p < |grid| => f(grid[p].qmag)))
      else Failure(NoScatteringData)
    else Failure(UnknownRadiation)
  }

  /** `get_mag_ff(z, q, ion)`: `None` where the library raises KeyError or
      AttributeError. */
  function GetMagFF(tables: FormFactors, z: int, ion: int, qmag: real): (r: Option<real>)
    ensures r.Some? <==> z in tables.magnetic && ion in tables.magnetic[z]
    ensures r.Some? ==> r.value == tables.magnetic[z][ion](qmag)
  {
    if z in tables.magnetic && ion in tables.magnetic[z] then Some(tables.magnetic[z][ion](qmag)) else None
  }

  /** `get_mag_ff` over a whole grid. */
  function MagneticFormFactorField(tables: FormFactors, z: int, ion: int, grid: seq<QPoint>): (r: Option<seq<real>>)
    ensures r.Some? ==> |r.value| == |grid|
    ensures r.Some? ==> forall p :: 0 <= p < |grid| ==> GetMagFF(tables, z, ion, grid[p].qmag) == Some(r.value[p])
    ensures r.None? ==> forall qmag :: GetMagFF(tables, z, ion, qmag).None?
  {
    if z in tables.magnetic && ion in tables.magnetic[z] then
      var f := tables.magnetic[z][ion];
      Some(seq(|grid|, p requires 0 <= p < |grid| => f(grid[p].qmag)))
    else None
  }

  /** Which factor scales a species: the nuclear one (or 1 when form factors
      are off) or the magnetic one for ion charge 3. */
  datatype Scattering = Nuclear(tables: FormFactors, radiation: string, useFF: bool)
                      | Magnetic(tables: FormFactors)

  /** The factor of species `z` at |Q|, or `None` when the species is skipped
      because its lookup raised KeyError. */
  function Weight(sc: Scattering, z: int, qmag: real): Option<real> {
    match sc
    case Nuclear(tables, radiation, useFF) =>
      if !useFF then Some(1.0)
      else
        (match GetFF(tables, z, radiation, qmag)
         case Success(f) => Some(f)
         case Failure(_) => None)
    case Magnetic(tables) => GetMagFF(tables, z, 3, qmag)
  }

  /** The factor of species `z` at every grid point, or `None` when the
      species is skipped. */
  function WeightField(sc: Scattering, z: int, grid: seq<QPoint>): (r: Option<seq<real>>)
    ensures r.Some? ==> |r.value| == |grid|
    ensures r.Some? ==> forall p :: 0 <= p < |grid| ==> Weight(sc, z, grid[p].qmag) == Some(r.value[p])
    ensures r.None? ==> forall p :: 0 <= p < |grid| ==> Weight(sc, z, grid[p].qmag) == None
  {
    match sc
    case Nuclear(tables, radiation, useFF) =>
      if !useFF then Some(seq(|grid|, p => 1.0))
      else
        (match FormFactorField(tables, z, radiation, grid)
         case Success(v) => Some(v)
         case Failure(_) => None)
    case Magnetic(tables) => MagneticFormFactorField(tables, z, 3, grid)
  }

  /** One species' share: its summed terms times its factor, nothing if it
      is skipped. */
  function Share(sc: Scattering, qmag: real, s: int, sum: Complex): Complex {
    match Weight(sc, s, qmag)
    case None => Zero
    case Some(w) => Scale(sum, w)
  }

  /** The species loop: for each species of `species` in turn, the terms of
      its atoms summed and scaled by its factor. */
  function SpeciesSum(sc: Scattering, qmag: real, species: seq<int>, zs: seq<int>, terms: seq<Complex>): Complex
    requires |zs| == |terms|
  {
    if species == [] then Zero
    else
      var s := species[|species| - 1];
      Add(SpeciesSum(sc, qmag, species[..|species| - 1], zs, terms), Share(sc, qmag, s, SumC(Select(zs, terms, s))))
  }

  /** One turn of the species loop at every grid point: adding the next
      species' share (nothing when it is skipped) extends the sum by that
      species. */
  lemma SpeciesLoopStep(sc: Scattering, g: seq<QPoint>, species: seq<int>, m: nat, zs: seq<int>,
                        terms: seq<seq<Complex>>, before: seq<Complex>, sums: seq<Complex>,
                        ff: Option<seq<real>>, after: seq<Complex>)
    requires m < |species| && |terms| == |g| == |before| == |sums| == |after|
    requires forall p :: 0 <= p < |g| ==> |terms[p]| == |zs|
    requires forall p :: 0 <= p < |g| ==> before[p] == SpeciesSum(sc, g[p].qmag, species[..m], zs, terms[p])
    requires forall p :: 0 <= p < |g| ==> sums[p] == SumC(Select(zs, terms[p], species[m]))
    requires ff == WeightField(sc, species[m], g)
    requires ff.Some? ==> forall p :: 0 <= p < |g| ==> after[p] == Add(before[p], Scale(sums[p], ff.value[p]))
    requires ff.None? ==> after == before
    ensures forall p :: 0 <= p < |g| ==> after[p] == SpeciesSum(sc, g[p].qmag, species[..m + 1], zs, terms[p])
  {
    forall p | 0 <= p < |g|
      ensures after[p] == SpeciesSum(sc, g[p].qmag, species[..m + 1], zs, terms[p])
    {
      var w := Weight(sc, species[m], g[p].qmag);
      assert ff.Some? ==> w == Some(ff.value[p]);
      SpeciesStepAt(sc, g[p].qmag, species, m, zs, terms[p], before[p], sums[p], w, after[p]);
    }
  }

  lemma SpeciesStepAt(sc: Scattering, qmag: real, species: seq<int>, m: nat, zs: seq<int>, terms: seq<Complex>,
                      before: Complex, sum: Complex, w: Option<real>, after: Complex)
    requires m < |species| && |terms| == |zs|
    requires before == SpeciesSum(sc, qmag, species[..m], zs, terms)
    requires sum == SumC(Select(zs, terms, species[m]))
    requires w == Weight(sc, species[m], qmag)
    requires w.Some? ==> after == Add(before, Scale(sum, w.value))
    requires w.None? ==> after == before
    ensures after == SpeciesSum(sc, qmag, species[..m + 1], zs, terms)
  {
    assert species[..m + 1][..m] == species[..m];
  }

  /** The reference definition: every atom's term scaled by the factor of its
      own species, summed over the atoms in order. */
  function DirectSum(sc: Scattering, qmag: real, zs: seq<int>, terms: seq<Complex>): Complex
    requires |zs| == |terms|
  {
    if zs == [] then Zero
    else Add(DirectSum(sc, qmag, zs[..|zs| - 1], terms[..|terms| - 1]),
             Share(sc, qmag, zs[|zs| - 1], terms[|terms| - 1]))
  }

  lemma ShareDistributes(sc: Scattering, qmag: real, s: int, a: Complex, b: Complex)
    ensures Share(sc, qmag, s, Add(a, b)) == Add(Share(sc, qmag, s, a), Share(sc, qmag, s, b))
    ensures Share(sc, qmag, s, Zero) == Zero
  {
  }

  lemma SelectAppend<T>(zs: seq<int>, xs: seq<T>, z: int, x: T, s: int)
    requires |zs| == |xs|
    ensures Select(zs + [z], xs + [x], s) == Select(zs, xs, s) + (if z == s then [x] else [])
  {
    assert (zs + [z])[..|zs|] == zs && (xs + [x])[..|xs|] == xs;
  }

  lemma SumCAppend(xs: seq<Complex>, x: Complex)
    ensures SumC(xs + [x]) == Add(SumC(xs), x)
  {
    assert (xs + [x])[..|xs|] == xs;
  }

  lemma AddRegroup(a: Complex, b: Complex, c: Complex)
    ensures Add(Add(a, b), c) == Add(Add(a, c), b)
    ensures Add(a, Zero) == a
  {
  }

  /** Adding one atom to the table adds its share to the species loop when
      its species is listed, and nothing otherwise. */
  lemma {:induction false} SpeciesSumExtend(sc: Scattering, qmag: real, species: seq<int>, zs: seq<int>,
                                            terms: seq<Complex>, z: int, term: Complex)
    requires |zs| == |terms| && Distinct(species)
    ensures SpeciesSum(sc, qmag, species, zs + [z], terms + [term])
         == Add(SpeciesSum(sc, qmag, species, zs, terms), if z in species then Share(sc, qmag, z, term) else Zero)
  {
    if species != [] {
      var front := species[..|species| - 1];
      var s := species[|species| - 1];
      assert Distinct(front) && (z in species <==> z in front || z == s) && (s == z ==> z !in front) by {
        assert species == front + [s];
      }
      SpeciesSumExtend(sc, qmag, front, zs, terms, z, term);
      SelectAppend(zs, terms, z, term, s);
      if s == z {
        SumCAppend(Select(zs, terms, s), term);
        ShareDistributes(sc, qmag, s, SumC(Select(zs, terms, s)), term);
        LastShareGrows(SpeciesSum(sc, qmag, front, zs, terms), Share(sc, qmag, s, SumC(Select(zs, terms, s))),
                       Share(sc, qmag, z, term));
      } else {
        AddRegroup(SpeciesSum(sc, qmag, front, zs, terms), if z in species then Share(sc, qmag, z, term) else Zero,
                   Share(sc, qmag, s, SumC(Select(zs, terms, s))));
      }
    }
  }

  lemma LastShareGrows(rest: Complex, share: Complex, extra: Complex)
    ensures Add(Add(rest, Zero), Add(share, extra)) == Add(Add(rest, share), extra)
  {
  }

  /** The species loop equals the direct sum whenever every atom's species is
      listed once: grouping by species neither loses nor double-counts an
      atom. */
  lemma {:induction false} SpeciesPartition(sc: Scattering, qmag: real, species: seq<int>, zs: seq<int>,
                                            terms: seq<Complex>)
    requires |zs| == |terms| && Distinct(species)
    requires forall t :: 0 <= t < |zs| ==> zs[t] in species
    ensures SpeciesSum(sc, qmag, species, zs, terms) == DirectSum(sc, qmag, zs, terms)
  {
    if zs == [] {
      EmptySpeciesSum(sc, qmag, species, terms);
    } else {
      var n := |zs| - 1;
      assert zs == zs[..n] + [zs[n]] && terms == terms[..n] + [terms[n]];
      SpeciesPartition(sc, qmag, species, zs[..n], terms[..n]);
      SpeciesSumExtend(sc, qmag, species, zs[..n], terms[..n], zs[n], terms[n]);
    }
  }

  /** With no atoms every species contributes nothing. */
  lemma {:induction false} EmptySpeciesSum(sc: Scattering, qmag: real, species: seq<int>, terms: seq<Complex>)
    requires |terms| == 0
    ensures SpeciesSum(sc, qmag, species, [], terms) == Zero
  {
    if species != [] {
      EmptySpeciesSum(sc, qmag, species[..|species| - 1], terms);
    }
  }

  /** `_calculate` at one grid point: the species of `np.unique(zs)` in
      increasing order, each one's phases summed and scaled. The result is
      the sum over all atoms of each atom's factor times its phase; species
      without a factor contribute nothing. */
  function StructureFactor(sc: Scattering, phase: real -> Complex, fast: bool,
                           zs: seq<int>, rs: seq<Geometry.Vec3>, pt: QPoint): (r: Complex)
    requires |zs| == |rs|
    ensures r == DirectSum(sc, pt.qmag, zs, Phases(phase, ScaledQ(pt), rs, fast))
  {
    var species := SortedUnique(zs);
    assert forall t :: 0 <= t < |zs| ==> zs[t] in species;
    SpeciesPartition(sc, pt.qmag, species, zs, Phases(phase, ScaledQ(pt), rs, fast));
    SpeciesSum(sc, pt.qmag, species, zs, Phases(phase, ScaledQ(pt), rs, fast))
  }

  /** Fast and slow paths give the same structure factor. */
  lemma {:induction false} PhasesFastEqualsSlow(phase: real -> Complex, q: Geometry.Vec3, rs: seq<Geometry.Vec3>)
    requires IsPhase(phase)
    ensures Phases(phase, q, rs, true) == Phases(phase, q, rs, false)
  {
    forall t | 0 <= t < |rs|
      ensures Phases(phase, q, rs, true)[t] == Phases(phase, q, rs, false)[t]
    {
      FastEqualsSlow(phase, q, rs[t]);
    }
  }

  lemma StructureFactorFastEqualsSlow(sc: Scattering, phase: real -> Complex,
                                      zs: seq<int>, rs: seq<Geometry.Vec3>, pt: QPoint)
    requires IsPhase(phase) && |zs| == |rs|
    ensures StructureFactor(sc, phase, true, zs, rs, pt) == StructureFactor(sc, phase, false, zs, rs, pt)
  {
    PhasesFastEqualsSlow(phase, ScaledQ(pt), rs);
  }

  /** Without form factors, at Q = 0 every atom contributes exp(0) = 1, so
      the structure factor is the number of atoms. */
  lemma ForwardScatteringCountsAtoms(tables: FormFactors, radiation: string, phase: real -> Complex, fast: bool,
                                     zs: seq<int>, rs: seq<Geometry.Vec3>, pt: QPoint)
    requires |zs| == |rs| && pt.q == Geometry.Origin && phase(0.0) == One
    ensures StructureFactor(Nuclear(tables, radiation, false), phase, fast, zs, rs, pt)
         == Complex(|zs| as real, 0.0)
  {
    var sc := Nuclear(tables, radiation, false);
    var terms := Phases(phase, ScaledQ(pt), rs, fast);
    assert forall t :: 0 <= t < |rs| ==> terms[t] == One;
    CountOnes(sc, pt.qmag, zs, terms);
  }

  lemma {:induction false} CountOnes(sc: Scattering, qmag: real, zs: seq<int>, terms: seq<Complex>)
    requires |zs| == |terms| && sc.Nuclear? && !sc.useFF
    requires forall t :: 0 <= t < |terms| ==> terms[t] == One
    ensures DirectSum(sc, qmag, zs, terms) == Complex(|zs| as real, 0.0)
  {
    if zs != [] {
      CountOnes(sc, qmag, zs[..|zs| - 1], terms[..|terms| - 1]);
    }
  }

  /** `_calculate` raises only through `get_ff`'s ValueError, which needs form
      factors on, a species to look up and an unknown radiation. */
  predicate CalculateFails(radiation: string, useFF: bool, zs: seq<int>) {
    useFF && |zs| > 0 && radiation != "neutron" && radiation != "xray"
  }

  // ---------------------------------------------------------------------
  // Magnetic scattering

  datatype Axis = AxisX | AxisY | AxisZ

  function Component(v: Geometry.Vec3, axis: Axis): real {
    match axis
    case AxisX => v.x
    case AxisY => v.y
    case AxisZ => v.z
  }

  /** One component of each atom's magnetic term: its phase times that
      component of its moment. */
  function MomentTerms(phase: real -> Complex, q: Geometry.Vec3, rs: seq<Geometry.Vec3>, ms: seq<Geometry.Vec3>,
                       fast: bool, axis: Axis): (r: seq<Complex>)
    requires |rs| == |ms|
    ensures |r| == |rs|
  {
    if rs == [] then []
    else
      MomentTerms(phase, q, rs[..|rs| - 1], ms[..|ms| - 1], fast, axis)
        + [Scale(AtomPhase(phase, q, rs[|rs| - 1], fast), Component(ms[|ms| - 1], axis))]
  }

  lemma {:induction false} MomentTermsAt(phase: real -> Complex, q: Geometry.Vec3, rs: seq<Geometry.Vec3>,
                                         ms: seq<Geometry.Vec3>, fast: bool, axis: Axis, t: nat)
    requires |rs| == |ms| && t < |rs|
    ensures MomentTerms(phase, q, rs, ms, fast, axis)[t]
         == Scale(AtomPhase(phase, q, rs[t], fast), Component(ms[t], axis))
  {
    if t < |rs| - 1 {
      MomentTermsAt(phase, q, rs[..|rs| - 1], ms[..|ms| - 1], fast, axis, t);
    }
  }

  lemma MomentTermsAppend(phase: real -> Complex, q: Geometry.Vec3, rs: seq<Geometry.Vec3>, ms: seq<Geometry.Vec3>,
                          r: Geometry.Vec3, m: Geometry.Vec3, fast: bool, axis: Axis)
    requires |rs| == |ms|
    ensures MomentTerms(phase, q, rs + [r], ms + [m], fast, axis)
         == MomentTerms(phase, q, rs, ms, fast, axis) + [Scale(AtomPhase(phase, q, r, fast), Component(m, axis))]
  {
    assert (rs + [r])[..|rs|] == rs && (ms + [m])[..|ms|] == ms;
  }

  /** Selecting one species' positions and, alongside, the same species'
      moments gives that species' terms. */
  lemma {:induction false} SelectMomentTerms(phase: real -> Complex, q: Geometry.Vec3, zs: seq<int>,
                                             rs: seq<Geometry.Vec3>, ms: seq<Geometry.Vec3>, s: int,
                                             fast: bool, axis: Axis)
    requires |zs| == |rs| == |ms|
    ensures |Select(zs, rs, s)| == |Select(zs, ms, s)|
    ensures MomentTerms(phase, q, Select(zs, rs, s), Select(zs, ms, s), fast, axis)
         == Select(zs, MomentTerms(phase, q, rs, ms, fast, axis), s)
  {
    SelectLength(zs, rs, s);
    SelectLength(zs, ms, s);
    if zs != [] {
      var n := |zs| - 1;
      var zf, rf, mf := zs[..n], rs[..n], ms[..n];
      var ts := MomentTerms(phase, q, rs, ms, fast, axis);
      assert ts[..n] == MomentTerms(phase, q, rf, mf, fast, axis) by {
        assert rs == rf + [rs[n]] && ms == mf + [ms[n]];
        MomentTermsAppend(phase, q, rf, mf, rs[n], ms[n], fast, axis);
      }
      SelectMomentTerms(phase, q, zf, rf, mf, s, fast, axis);
      if zs[n] == s {
        assert ts[n] == Scale(AtomPhase(phase, q, rs[n], fast), Component(ms[n], axis)) by {
          MomentTermsAt(phase, q, rs, ms, fast, axis, n);
        }
        MomentTermsAppend(phase, q, Select(zf, rf, s), Select(zf, mf, s), rs[n], ms[n], fast, axis);
      }
    }
  }

  /** The three complex components of the summed magnetic moment. */
  datatype Spin = Spin(x: Complex, y: Complex, z: Complex)

  /** One component of the summed moment: the sum over all atoms of j0
      times phase times that atom's own moment component; species without
      j0 drop out. */
  function SpinComponent(tables: FormFactors, phase: real -> Complex, fast: bool, zs: seq<int>,
                         rs: seq<Geometry.Vec3>, ms: seq<Geometry.Vec3>, pt: QPoint, axis: Axis): (r: Complex)
    requires |zs| == |rs| == |ms|
    ensures r == DirectSum(Magnetic(tables), pt.qmag, zs, MomentTerms(phase, ScaledQ(pt), rs, ms, fast, axis))
  {
    var species := SortedUnique(zs);
    assert forall t :: 0 <= t < |zs| ==> zs[t] in species;
    SpeciesPartition(Magnetic(tables), pt.qmag, species, zs, MomentTerms(phase, ScaledQ(pt), rs, ms, fast, axis));
    SpeciesSum(Magnetic(tables), pt.qmag, species, zs, MomentTerms(phase, ScaledQ(pt), rs, ms, fast, axis))
  }

  /** The species loop of `_calculate_magnetic` with every atom paired with
      its own moment: each component is that component's direct sum. */
  function SpinAt(tables: FormFactors, phase: real -> Complex, fast: bool, zs: seq<int>,
                  rs: seq<Geometry.Vec3>, ms: seq<Geometry.Vec3>, pt: QPoint): (r: Spin)
    requires |zs| == |rs| == |ms|
    ensures r.x == DirectSum(Magnetic(tables), pt.qmag, zs, MomentTerms(phase, ScaledQ(pt), rs, ms, fast, AxisX))
    ensures r.y == DirectSum(Magnetic(tables), pt.qmag, zs, MomentTerms(phase, ScaledQ(pt), rs, ms, fast, AxisY))
    ensures r.z == DirectSum(Magnetic(tables), pt.qmag, zs, MomentTerms(phase, ScaledQ(pt), rs, ms, fast, AxisZ))
  {
    Spin(SpinComponent(tables, phase, fast, zs, rs, ms, pt, AxisX),
         SpinComponent(tables, phase, fast, zs, rs, ms, pt, AxisY),
         SpinComponent(tables, phase, fast, zs, rs, ms, pt, AxisZ))
  }

  /** The loop as the source writes it: the positions of one species are
      zipped with the moments of ALL atoms, from the first, so the k-th atom
      of a species gets the k-th moment of the table. */
  function SpeciesSpinAsWritten(phase: real -> Complex, q: Geometry.Vec3, selected: seq<Geometry.Vec3>,
                                ms: seq<Geometry.Vec3>, fast: bool, axis: Axis): Complex
  {
    var n := if |selected| <= |ms| then |selected| else |ms|;
    SumC(MomentTerms(phase, q, selected[..n], ms[..n], fast, axis))
  }

  function SpeciesLoopAsWritten(tables: FormFactors, phase: real -> Complex, fast: bool, species: seq<int>,
                                zs: seq<int>, rs: seq<Geometry.Vec3>, ms: seq<Geometry.Vec3>, pt: QPoint,
                                axis: Axis): Complex
    requires |zs| == |rs|
  {
    if species == [] then Zero
    else
      var s := species[|species| - 1];
      Add(SpeciesLoopAsWritten(tables, phase, fast, species[..|species| - 1], zs, rs, ms, pt, axis),
          Share(Magnetic(tables), pt.qmag, s,
                SpeciesSpinAsWritten(phase, ScaledQ(pt), Select(zs, rs, s), ms, fast, axis)))
  }

  function SpinComponentAsWritten(tables: FormFactors, phase: real -> Complex, fast: bool, zs: seq<int>,
                                  rs: seq<Geometry.Vec3>, ms: seq<Geometry.Vec3>, pt: QPoint, axis: Axis): Complex
    requires |zs| == |rs|
  {
    SpeciesLoopAsWritten(tables, phase, fast, SortedUnique(zs), zs, rs, ms, pt, axis)
  }

  /** The data of the counterexample below: two atoms of different
      elements, both at the origin, with j0 = 1, moments along x and along y,
      and a phase that is 1 everywhere. */
  const PairingTables: FormFactors :=
    FormFactors(map[], map[], map[1 := map[3 := (q: real) => 1.0], 2 := map[3 := (q: real) => 1.0]])
  const PairingMoments: seq<Geometry.Vec3> := [Geometry.Vec3(1.0, 0.0, 0.0), Geometry.Vec3(0.0, 1.0, 0.0)]
  const PairingPositions: seq<Geometry.Vec3> := [Geometry.Origin, Geometry.Origin]

  function UnitPhase(a: real): Complex {
    One
  }

  lemma PairingSpecies()
    ensures SortedUnique([1, 2]) == [1, 2]
    ensures Select([1, 2], PairingPositions, 1) == [Geometry.Origin]
    ensures Select([1, 2], PairingPositions, 2) == [Geometry.Origin]
  {
    assert StrictlyIncreasing([1, 2]);
    IncreasingWithSameElements(SortedUnique([1, 2]), [1, 2]);
    assert [1, 2][..1] == [1] && PairingPositions[..1] == [Geometry.Origin];
  }

  lemma PairingShares(pt: QPoint, s: int, u: Complex)
    requires s == 1 || s == 2
    ensures Share(Magnetic(PairingTables), pt.qmag, s, u) == u
  {
  }

  lemma PairingFirstTerm(q: Geometry.Vec3, m: Geometry.Vec3, axis: Axis)
    ensures MomentTerms(UnitPhase, q, [Geometry.Origin], [m], false, axis) == [Scale(One, Component(m, axis))]
  {
    MomentTermsAppend(UnitPhase, q, [], [], Geometry.Origin, m, false, axis);
    assert [Geometry.Origin] == [] + [Geometry.Origin] && [m] == [] + [m];
  }

  /** The loop as written credits the second atom with the first atom's
      moment, so the x component counts the x moment twice; pairing each
      atom with its own moment counts it once. */
  lemma MomentPairingAsWritten(pt: QPoint)
    ensures SpinComponentAsWritten(PairingTables, UnitPhase, false, [1, 2], PairingPositions, PairingMoments, pt, AxisX)
         == Complex(2.0, 0.0)
    ensures SpinComponent(PairingTables, UnitPhase, false, [1, 2], PairingPositions, PairingMoments, pt, AxisX)
         == One
  {
    PairingCountsTwice(pt);
    PairingCountsOnce(pt);
  }

  lemma PairingCountsTwice(pt: QPoint)
    ensures SpinComponentAsWritten(PairingTables, UnitPhase, false, [1, 2], PairingPositions, PairingMoments, pt, AxisX)
         == Complex(2.0, 0.0)
  {
    PairingSpecies();
    var q := ScaledQ(pt);
    PairingFirstTerm(q, PairingMoments[0], AxisX);
    assert PairingMoments[..1] == [PairingMoments[0]];
    var once := SpeciesSpinAsWritten(UnitPhase, q, [Geometry.Origin], PairingMoments, false, AxisX);
    assert once == One by {
      assert [Geometry.Origin][..1] == [Geometry.Origin];
      assert SumC([Scale(One, 1.0)]) == Add(SumC([]), Scale(One, 1.0));
    }
    PairingShares(pt, 1, once);
    PairingShares(pt, 2, once);
    assert [1, 2][..1] == [1];
    assert SpeciesLoopAsWritten(PairingTables, UnitPhase, false, [1], [1, 2], PairingPositions, PairingMoments, pt, AxisX)
        == One;
  }

  lemma PairingCountsOnce(pt: QPoint)
    ensures SpinComponent(PairingTables, UnitPhase, false, [1, 2], PairingPositions, PairingMoments, pt, AxisX)
         == One
  {
    PairingSpecies();
    var q := ScaledQ(pt);
    var terms := MomentTerms(UnitPhase, q, PairingPositions, PairingMoments, false, AxisX);
    assert terms == [One, Zero] by {
      MomentTermsAt(UnitPhase, q, PairingPositions, PairingMoments, false, AxisX, 0);
      MomentTermsAt(UnitPhase, q, PairingPositions, PairingMoments, false, AxisX, 1);
    }
    assert Select([1, 2], terms, 1) == [One] && Select([1, 2], terms, 2) == [Zero] by {
      assert terms[..1] == [One] && [1, 2][..1] == [1];
      assert Select([1], [One], 2) == [] by {
        assert [1][..0] == [] && [One][..0] == [];
      }
      assert Select([1, 2], terms, 2) == Select([1], [One], 2) + [terms[1]];
    }
    var sc := Magnetic(PairingTables);
    PairingShares(pt, 1, One);
    PairingShares(pt, 2, Zero);
    assert SumC([One]) == One by {
      assert [One][..0] == [];
    }
    assert SumC([Zero]) == Zero by {
      assert [Zero][..0] == [];
    }
    assert SpeciesSum(sc, pt.qmag, [1], [1, 2], terms) == One by {
      assert [1][..0] == [];
      assert SpeciesSum(sc, pt.qmag, [1], [1, 2], terms) == Add(Zero, Share(sc, pt.qmag, 1, SumC([One])));
    }
    assert SpeciesSum(sc, pt.qmag, [1, 2], [1, 2], terms) == Add(One, Share(sc, pt.qmag, 2, SumC([Zero]))) by {
      assert [1, 2][..1] == [1];
    }
  }

  /** Perpendicular part of the summed moment, `M - (M.Q / q2) Q` with the
      complex factor divided by the real `q2`. */
  function RejectSpin(s: Spin, q: Geometry.Vec3, q2: real): Spin
    requires q2 != 0.0
  {
    SubtractAlong(s, DivideBy(SpinDot(s, q), q2), q)
  }

  /** `M - scale * Q`, component by component. */
  function SubtractAlong(s: Spin, factor: Complex, q: Geometry.Vec3): Spin {
    Spin(Sub(s.x, Scale(factor, q.x)), Sub(s.y, Scale(factor, q.y)), Sub(s.z, Scale(factor, q.z)))
  }

  /** `spinx*qx + spiny*qy + spinz*qz`: its real and imaginary parts are the
      dot products of the real and imaginary parts of the moment with Q. */
  function SpinDot(s: Spin, q: Geometry.Vec3): (r: Complex)
    ensures r.re == Geometry.Dot(RealPart(s), q) && r.im == Geometry.Dot(ImagPart(s), q)
  {
    Add(Add(Scale(s.x, q.x), Scale(s.y, q.y)), Scale(s.z, q.z))
  }

  /** A complex number divided by a non-zero real. */
  function DivideBy(u: Complex, d: real): Complex
    requires d != 0.0
  {
    Complex(u.re / d, u.im / d)
  }

  function RealPart(s: Spin): Geometry.Vec3 {
    Geometry.Vec3(s.x.re, s.y.re, s.z.re)
  }

  function ImagPart(s: Spin): Geometry.Vec3 {
    Geometry.Vec3(s.x.im, s.y.im, s.z.im)
  }

  /** When `q2` is |Q|^2 for the same Q, the rejection acts on the real and
      imaginary parts as the vector rejection of `vector_reject`. */
  lemma RejectSpinIsVectorReject(s: Spin, q: Geometry.Vec3, q2: real)
    requires q != Geometry.Origin && q2 == Geometry.Dot(q, q)
    ensures q2 != 0.0
    ensures RealPart(RejectSpin(s, q, q2)) == VectorReject.Reject(RealPart(s), q)
    ensures ImagPart(RejectSpin(s, q, q2)) == VectorReject.Reject(ImagPart(s), q)
  {
    Geometry.DotSelfPositive(q);
    var factor := DivideBy(SpinDot(s, q), q2);
    assert factor.re == Geometry.Dot(RealPart(s), q) / Geometry.Dot(q, q);
    assert factor.im == Geometry.Dot(ImagPart(s), q) / Geometry.Dot(q, q);
    SubtractAlongParts(s, factor, q);
  }

  /** Each part of `M - scale * Q` is that part of the moment less the same
      part of the factor times Q. */
  lemma SubtractAlongParts(s: Spin, f: Complex, q: Geometry.Vec3)
    ensures RealPart(SubtractAlong(s, f, q)) == VectorReject.RejectBy(RealPart(s), q, f.re)
    ensures ImagPart(SubtractAlong(s, f, q)) == VectorReject.RejectBy(ImagPart(s), q, f.im)
  {
  }

  /** ... so both parts of the rejected moment are perpendicular to Q. */
  lemma RejectedSpinIsPerpendicular(s: Spin, q: Geometry.Vec3, q2: real)
    requires q != Geometry.Origin && q2 == Geometry.Dot(q, q)
    ensures q2 != 0.0
    ensures Geometry.Dot(RealPart(RejectSpin(s, q, q2)), q) == 0.0
    ensures Geometry.Dot(ImagPart(RejectSpin(s, q, q2)), q) == 0.0
  {
    RejectSpinIsVectorReject(s, q, q2);
  }

  /** A real intensity, or NaN where numpy divides by zero. */
  datatype Num = Finite(v: real) | NonFinite

  function NumAdd(a: Num, b: Num): Num {
    if a.Finite? && b.Finite? then Finite(a.v + b.v) else NonFinite
  }

  /** The magnetic intensity at one point: NaN where |Q| = 0, otherwise the
      squared modulus of the rejected moment. */
  function MagneticIntensity(s: Spin, q: Geometry.Vec3, qmag: real): (r: Num)
    ensures r.NonFinite? <==> qmag == 0.0
  {
    var q2 := Sq(qmag);
    SqZeroOnlyAtZero(qmag);
    if q2 == 0.0 then NonFinite
    else
      var t := RejectSpin(s, q, q2);
      Finite(Intensity(t.x) + Intensity(t.y) + Intensity(t.z))
  }

  lemma SqZeroOnlyAtZero(x: real)
    ensures Sq(x) == 0.0 <==> x == 0.0
  {
    if x != 0.0 {
      SqPositive(x);
    }
  }

  lemma ThreeNonNegatives(x: real, y: real, z: real)
    requires x >= 0.0 && y >= 0.0 && z >= 0.0 && x + y + z == 0.0
    ensures x == 0.0 && y == 0.0 && z == 0.0
  {
  }

  lemma IntensitiesOfThree(a: Complex, b: Complex, c: Complex)
    requires Intensity(a) + Intensity(b) + Intensity(c) == 0.0
    ensures a == Zero && b == Zero && c == Zero
  {
    IntensityNonNegative(a);
    IntensityNonNegative(b);
    IntensityNonNegative(c);
    ThreeNonNegatives(Intensity(a), Intensity(b), Intensity(c));
    IntensityZero(a);
    IntensityZero(b);
    IntensityZero(c);
  }

  /** Wherever it is defined the magnetic intensity is non-negative, and it
      vanishes only when the rejected moment does. */
  lemma MagneticIntensityNonNegative(s: Spin, q: Geometry.Vec3, qmag: real)
    requires qmag != 0.0
    ensures Sq(qmag) != 0.0 && MagneticIntensity(s, q, qmag).Finite?
    ensures MagneticIntensity(s, q, qmag).v >= 0.0
    ensures MagneticIntensity(s, q, qmag).v == 0.0 <==> RejectSpin(s, q, Sq(qmag)) == Spin(Zero, Zero, Zero)
  {
    SqZeroOnlyAtZero(qmag);
    var t := RejectSpin(s, q, Sq(qmag));
    IntensityNonNegative(t.x);
    IntensityNonNegative(t.y);
    IntensityNonNegative(t.z);
    if Intensity(t.x) + Intensity(t.y) + Intensity(t.z) == 0.0 {
      IntensitiesOfThree(t.x, t.y, t.z);
    }
  }

  /** A moment along Q scatters nothing: only its perpendicular part is
      seen. */
  lemma MomentAlongQIsInvisible(k: Complex, q: Geometry.Vec3)
    requires q != Geometry.Origin
    ensures var s := Spin(Scale(k, q.x), Scale(k, q.y), Scale(k, q.z));
            Geometry.Dot(q, q) != 0.0 && RejectSpin(s, q, Geometry.Dot(q, q)) == Spin(Zero, Zero, Zero)
  {
    var s := Spin(Scale(k, q.x), Scale(k, q.y), Scale(k, q.z));
    var d := Geometry.Dot(q, q);
    Geometry.DotSelfPositive(q);
    RejectSpinIsVectorReject(s, q, d);
    assert RealPart(s) == Geometry.Scale(k.re, q);
    assert ImagPart(s) == Geometry.Scale(k.im, q);
    VectorReject.RejectParallelIsZero(k.re, q);
    VectorReject.RejectParallelIsZero(k.im, q);
  }
}
