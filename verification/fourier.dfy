/** The Fourier engine: the settings of a calculation and the loops that
    compute structure factors and intensities on a grid of Q points. */
module Fouriers {

  import opened ComplexArith
  import opened Collections
  import opened FourierSpec
  import opened Lots
  import opened CalcSpec
  import IntArith
  import Geometry
  import Structures

  class Fourier {
    var radiation: string
    var lots: Option<seq<int>>
    var numberOfLots: Option<int>
    var average: bool
    var structure: Structures.Structure?
    var grid: seq<QPoint>

    /** A lot size, when set, has one entry per axis. */
    predicate Valid()
      reads this
    {
      lots.Some? ==> |lots.value| == 3
    }

    /** A calculator on `grid` with neutron radiation, no structure, no lots
        and no average subtraction. */
    constructor(grid: seq<QPoint>)
      ensures Valid()
      ensures radiation == "neutron" && lots == None && numberOfLots == None
      ensures !average && structure == null && this.grid == grid
    {
      radiation := "neutron";
      lots := None;
      numberOfLots := None;
      average := false;
      structure := null;
      this.grid := grid;
    }

    /** The `radiation` setter stores any value; an unknown one surfaces
        only when a form factor is looked up. */
    method SetRadiation(rad: string)
      modifies this
      ensures radiation == rad
      ensures lots == old(lots) && numberOfLots == old(numberOfLots) && average == old(average)
      ensures structure == old(structure) && grid == old(grid)
    {
      radiation := rad;
    }

    method SetStructure(s: Structures.Structure?)
      modifies this
      ensures structure == s
      ensures radiation == old(radiation) && lots == old(lots) && numberOfLots == old(numberOfLots)
      ensures average == old(average) && grid == old(grid)
    {
      structure := s;
    }

    method SetNumberOfLots(value: Option<int>)
      modifies this
      ensures numberOfLots == value
      ensures radiation == old(radiation) && lots == old(lots) && average == old(average)
      ensures structure == old(structure) && grid == old(grid)
    {
      numberOfLots := value;
    }

    /** The `lots` setter: `None` clears the lot size, three values set it,
        any other number of values is refused and nothing changes. */
    method SetLots(value: Option<seq<int>>) returns (err: Option<CalcError>)
      requires Valid()
      modifies this
      ensures Valid()
      ensures value.None? ==> err == None && lots == None
      ensures value.Some? && |value.value| == 3 ==> err == None && lots == value
      ensures value.Some? && |value.value| != 3 ==> err == Some(LotsNotThree) && lots == old(lots)
      ensures radiation == old(radiation) && numberOfLots == old(numberOfLots) && average == old(average)
      ensures structure == old(structure) && grid == old(grid)
    {
      if value.None? {
        lots := None;
        return None;
      }
      if |value.value| == 3 {
        lots := value;
        return None;
      }
      return Some(LotsNotThree);
    }

    /** `calc`: the average cell first when it is switched on; then, without
        lots, the intensity of the whole structure from its fractional
        positions (the magnetic one from the moments, the nuclear one less
        the average); with lots, the intensities of `number_of_lots` lots,
        the `l`-th rolled by `draws[l]`, summed point by point. `moments`
        stands for the structure's moment table, `None` when it has none. */
    method Calc(tables: FormFactors, phase: real -> Complex, fast: bool, mag: bool,
                moments: Option<seq<Geometry.Vec3>>, draws: seq<Draw>)
      returns (r: Result<seq<Num>, CalcError>)
      requires Valid()
      requires structure != null ==> WellFormed(Settings(average, lots, numberOfLots), structure.atoms, moments, draws)
      ensures structure == null ==> r == Failure(NoStructure)
      ensures structure != null ==>
        var f := CalcFailure(Setup(tables, radiation, phase, fast), Settings(average, lots, numberOfLots),
                             structure.atoms, moments, mag, draws);
        (r.Failure? <==> f.Some?) && (r.Failure? ==> r.error == f.value)
      ensures r.Success? ==> structure != null && |r.value| == |grid|
      ensures r.Success? ==> forall p :: 0 <= p < |grid| ==>
        r.value[p] == CalcAt(Setup(tables, radiation, phase, fast), Settings(average, lots, numberOfLots),
                             structure.atoms, moments, mag, draws, grid[p])
    {
      if structure == null {
        return Failure(NoStructure);
      }
      var rows := structure.atoms;
      var zs := structure.AtomicNumbers();
      var rs := structure.ScaledPositions();
      assert zs == Zs(rows) && rs == Fractional(rows);
      r := CalcRows(tables, phase, fast, mag, rows, zs, rs, moments, draws);
    }

    /** `calc` on the atom table of the structure, its atomic numbers and
        fractional positions already read off. */
    method CalcRows(tables: FormFactors, phase: real -> Complex, fast: bool, mag: bool, rows: seq<Structures.AtomRow>,
                    zs: seq<int>, rs: seq<Geometry.Vec3>, moments: Option<seq<Geometry.Vec3>>, draws: seq<Draw>)
      returns (r: Result<seq<Num>, CalcError>)
      requires Valid() && zs == Zs(rows) && rs == Fractional(rows)
      requires WellFormed(Settings(average, lots, numberOfLots), rows, moments, draws)
      ensures var f := CalcFailure(Setup(tables, radiation, phase, fast), Settings(average, lots, numberOfLots),
                                   rows, moments, mag, draws);
        (r.Failure? <==> f.Some?) && (r.Failure? ==> r.error == f.value)
      ensures r.Success? ==> |r.value| == |grid|
      ensures r.Success? ==> forall p :: 0 <= p < |grid| ==>
        r.value[p] == CalcAt(Setup(tables, radiation, phase, fast), Settings(average, lots, numberOfLots),
                             rows, moments, mag, draws, grid[p])
    {
      var g := grid;
      var avers := seq(|g|, p => None);
      if average {
        var a := CalculateAverage(tables, phase, fast, rows);
        if a.Failure? {
          return Failure(a.error);
        }
        var av := a.value;
        avers := seq(|g|, p requires 0 <= p < |g| => Some(av[p]));
      }
      assert forall p :: 0 <= p < |g| ==>
        avers[p] == AverOption(average, Setup(tables, radiation, phase, fast), rows, lots, g[p]);
      CalcBranches(Setup(tables, radiation, phase, fast), Settings(average, lots, numberOfLots), rows, moments, mag, draws);
      if lots.None? {
        r := CalcWhole(tables, phase, fast, mag, rows, zs, rs, moments, avers);
      } else if numberOfLots.None? {
        r := Failure(NumberOfLotsUnset);
      } else {
        r := CalcLots(tables, phase, fast, mag, rows, moments, avers, draws[..LotCount(numberOfLots.value)]);
      }
    }

    /** `calc` without lots: the intensity of the whole structure. */
    method CalcWhole(tables: FormFactors, phase: real -> Complex, fast: bool, mag: bool, rows: seq<Structures.AtomRow>,
                     zs: seq<int>, rs: seq<Geometry.Vec3>, moments: Option<seq<Geometry.Vec3>>,
                     avers: seq<Option<Mean>>)
      returns (r: Result<seq<Num>, CalcError>)
      requires zs == Zs(rows) && rs == Fractional(rows) && |avers| == |grid|
      requires moments.Some? ==> |moments.value| == |rows|
      ensures var f := WholeFailure(Setup(tables, radiation, phase, fast), rows, moments, mag);
        (r.Failure? <==> f.Some?) && (r.Failure? ==> r.error == f.value)
      ensures r.Success? ==> |r.value| == |grid|
      ensures r.Success? ==> forall p :: 0 <= p < |grid| ==>
        r.value[p] == WholeAt(Setup(tables, radiation, phase, fast), rows, moments, mag, avers[p], grid[p])
    {
      var g := grid;
      if mag {
        if moments.None? {
          return Failure(NoMoments);
        }
        var intensity := CalculateMagnetic(tables, phase, zs, rs, moments.value, fast);
        return Success(intensity);
      }
      var f := Calculate(tables, phase, zs, rs, fast, true);
      if f.Failure? {
        return Failure(f.error);
      }
      var fv := f.value;
      return Success(seq(|g|, p requires 0 <= p < |g| => Intensities(fv[p], avers[p])));
    }

    /** `calc`'s lot loop over the draws of its `number_of_lots` turns. */
    method CalcLots(tables: FormFactors, phase: real -> Complex, fast: bool, mag: bool, rows: seq<Structures.AtomRow>,
                    moments: Option<seq<Geometry.Vec3>>, avers: seq<Option<Mean>>, draws: seq<Draw>)
      returns (r: Result<seq<Num>, CalcError>)
      requires Valid() && lots.Some? && |avers| == |grid|
      requires moments.Some? ==> |moments.value| == |rows|
      ensures var f := LotsError(Setup(tables, radiation, phase, fast), rows, moments, lots.value, mag, draws);
        (r.Failure? <==> f.Some?) && (r.Failure? ==> r.error == f.value)
      ensures r.Success? ==> |r.value| == |grid|
      ensures r.Success? ==> forall p :: 0 <= p < |grid| ==>
        r.value[p] == LotsTotalAt(Setup(tables, radiation, phase, fast), rows, moments, lots.value, mag, avers[p], draws, grid[p])
    {
      var g := grid;
      ghost var su := Setup(tables, radiation, phase, fast);
      var total := seq(|g|, p => Finite(0.0));
      var l := 0;
      while l < |draws|
        invariant 0 <= l <= |draws| && |total| == |g|
        invariant LotsError(su, rows, moments, lots.value, mag, draws[..l]).None?
        invariant forall p :: 0 <= p < |g| ==>
          total[p] == LotsTotalAt(su, rows, moments, lots.value, mag, avers[p], draws[..l], g[p])
      {
        var added := AddLot(tables, phase, fast, mag, rows, moments, avers, draws, l, total);
        if added.Failure? {
          LotsErrorPersists(su, rows, moments, lots.value, mag, draws, l + 1, |draws|);
          assert draws[..|draws|] == draws;
          return Failure(added.error);
        }
        total := added.value;
        l := l + 1;
      }
      assert draws[..l] == draws;
      return Success(total);
    }

    /** One turn of the lot loop: the lot drawn with `draws[l]` added to the
        running total. */
    method AddLot(tables: FormFactors, phase: real -> Complex, fast: bool, mag: bool, rows: seq<Structures.AtomRow>,
                  moments: Option<seq<Geometry.Vec3>>, avers: seq<Option<Mean>>, draws: seq<Draw>, l: nat,
                  total: seq<Num>)
      returns (r: Result<seq<Num>, CalcError>)
      requires Valid() && lots.Some? && |avers| == |total| == |grid| && l < |draws|
      requires moments.Some? ==> |moments.value| == |rows|
      requires LotsError(Setup(tables, radiation, phase, fast), rows, moments, lots.value, mag, draws[..l]).None?
      requires forall p :: 0 <= p < |grid| ==>
        total[p] == LotsTotalAt(Setup(tables, radiation, phase, fast), rows, moments, lots.value, mag, avers[p], draws[..l], grid[p])
      ensures var f := LotsError(Setup(tables, radiation, phase, fast), rows, moments, lots.value, mag, draws[..l + 1]);
        (r.Failure? <==> f.Some?) && (r.Failure? ==> r.error == f.value)
      ensures r.Success? ==> |r.value| == |grid|
      ensures r.Success? ==> forall p :: 0 <= p < |grid| ==>
        r.value[p] == LotsTotalAt(Setup(tables, radiation, phase, fast), rows, moments, lots.value, mag, avers[p], draws[..l + 1], grid[p])
    {
      var g := grid;
      assert draws[..l + 1][..l] == draws[..l];
      var lot := Lot(tables, phase, fast, rows, moments, mag, avers, draws[l]);
      if lot.Failure? {
        return Failure(lot.error);
      }
      var lv := lot.value;
      r := Success(seq(|g|, p requires 0 <= p < |g| => NumAdd(total[p], lv[p])));
    }

    /** One turn of `calc`'s lot loop: the levels rolled by the draw and cut
        to the lot size, the rows of the cells they span, and the intensity
        of those rows at their fractional positions plus their cell index. */
    method Lot(tables: FormFactors, phase: real -> Complex, fast: bool, rows: seq<Structures.AtomRow>,
               moments: Option<seq<Geometry.Vec3>>, mag: bool, avers: seq<Option<Mean>>, d: Draw)
      returns (r: Result<seq<Num>, CalcError>)
      requires Valid() && lots.Some? && |avers| == |grid|
      requires moments.Some? ==> |moments.value| == |rows|
      ensures r.Failure? <==> LotError(Setup(tables, radiation, phase, fast), rows, moments, lots.value, mag, d).Some?
      ensures r.Failure? ==> r.error == LotError(Setup(tables, radiation, phase, fast), rows, moments, lots.value, mag, d).value
      ensures r.Success? ==> |r.value| == |grid|
      ensures r.Success? ==> forall p :: 0 <= p < |grid| ==>
        r.value[p] == LotAt(Setup(tables, radiation, phase, fast), rows, moments, lots.value, mag, avers[p], d, grid[p])
    {
      var g := grid;
      var li, lj, lk := Level(rows, 0), Level(rows, 1), Level(rows, 2);
      if |li| == 0 || |lj| == 0 || |lk| == 0 {
        return Failure(EmptyLevel);
      }
      var ri := Window(li, d.i, lots.value[0]);
      var rj := Window(lj, d.j, lots.value[1]);
      var rk := Window(lk, d.k, lots.value[2]);
      var kept := Keep(rows, rows, ri, rj, rk);
      var zs, rs := Zs(kept), LotPositions(kept);
      if mag {
        if moments.None? {
          return Failure(NoMoments);
        }
        var ms := Keep(rows, moments.value, ri, rj, rk);
        KeepSameLength(rows, rows, moments.value, ri, rj, rk);
        var intensity := CalculateMagnetic(tables, phase, zs, rs, ms, fast);
        return Success(intensity);
      }
      var f := Calculate(tables, phase, zs, rs, fast, true);
      if f.Failure? {
        return Failure(f.error);
      }
      var fv := f.value;
      return Success(seq(|g|, p requires 0 <= p < |g| => Intensities(fv[p], avers[p])));
    }

    /** `_calculate`: for each species of `np.unique(zs)` the phases of its
        atoms summed over the grid and scaled by its form factor; a species
        the tables lack is skipped, an unknown radiation is an error. */
    method Calculate(tables: FormFactors, phase: real -> Complex, zs: seq<int>, rs: seq<Geometry.Vec3>,
                     fast: bool, useFF: bool)
      returns (r: Result<seq<Complex>, CalcError>)
      requires |zs| == |rs|
      ensures r.Failure? <==> CalculateFails(radiation, useFF, zs)
      ensures r.Failure? ==> r.error == RadiationUnknown
      ensures r.Success? ==> |r.value| == |grid|
      ensures r.Success? ==> forall p :: 0 <= p < |grid| ==>
        r.value[p] == StructureFactor(Nuclear(tables, radiation, useFF), phase, fast, zs, rs, grid[p])
    {
      var g := grid;
      var sc := Nuclear(tables, radiation, useFF);
      var species := SortedUnique(zs);
      ghost var terms := seq(|g|, p requires 0 <= p < |g| => Phases(phase, ScaledQ(g[p]), rs, fast));
      var results := seq(|g|, p => Zero);
      var m := 0;
      while m < |species|
        invariant 0 <= m <= |species|
        invariant |results| == |g|
        invariant forall p :: 0 <= p < |g| ==> results[p] == SpeciesSum(sc, g[p].qmag, species[..m], zs, terms[p])
        invariant m > 0 ==> !(useFF && radiation != "neutron" && radiation != "xray")
      {
        if useFF {
          var looked := FormFactorField(tables, species[m], radiation, g);
          if looked.Failure? && looked.error == UnknownRadiation {
            return Failure(RadiationUnknown);
          }
        }
        results := AddSpecies(sc, phase, zs, rs, fast, species, m, results, terms);
        m := m + 1;
      }
      if |zs| > 0 {
        assert zs[0] in species;
      }
      assert species[..m] == species;
      return Success(results);
    }

    /** One turn of `_calculate`'s species loop: the species' phases summed,
        scaled by its form factor and added to the results, or nothing when
        the tables lack the species. */
    method AddSpecies(sc: Scattering, phase: real -> Complex, zs: seq<int>, rs: seq<Geometry.Vec3>, fast: bool,
                      species: seq<int>, m: nat, results: seq<Complex>, ghost terms: seq<seq<Complex>>)
      returns (r: seq<Complex>)
      requires |zs| == |rs| && m < |species| && |results| == |grid|
      requires |terms| == |grid| && forall p :: 0 <= p < |grid| ==> terms[p] == Phases(phase, ScaledQ(grid[p]), rs, fast)
      requires forall p :: 0 <= p < |grid| ==> |terms[p]| == |zs|
      requires forall p :: 0 <= p < |grid| ==> results[p] == SpeciesSum(sc, grid[p].qmag, species[..m], zs, terms[p])
      ensures |r| == |grid|
      ensures forall p :: 0 <= p < |grid| ==> r[p] == SpeciesSum(sc, grid[p].qmag, species[..m + 1], zs, terms[p])
    {
      var g := grid;
      var s := species[m];
      var ff := WeightField(sc, s, g);
      var temp := SpeciesPhases(phase, Select(zs, rs, s), fast);
      SelectPhasesAtEveryPoint(phase, g, zs, rs, s, fast);
      r := results;
      if ff.Some? {
        var w := ff.value;
        r := seq(|g|, p requires 0 <= p < |g| => Add(results[p], Scale(temp[p], w[p])));
      }
      SpeciesLoopStep(sc, g, species, m, zs, terms, results, temp, ff, r);
    }

    /** The inner loop of `_calculate`: the phases of one species' atoms
        summed at every grid point. */
    method SpeciesPhases(phase: real -> Complex, selected: seq<Geometry.Vec3>, fast: bool)
      returns (temp: seq<Complex>)
      ensures |temp| == |grid|
      ensures forall p :: 0 <= p < |grid| ==> temp[p] == SumC(Phases(phase, ScaledQ(grid[p]), selected, fast))
    {
      var g := grid;
      temp := seq(|g|, p => Zero);
      var a := 0;
      while a < |selected|
        invariant 0 <= a <= |selected|
        invariant |temp| == |g|
        invariant forall p :: 0 <= p < |g| ==> temp[p] == SumC(Phases(phase, ScaledQ(g[p]), selected[..a], fast))
      {
        var atom := selected[a];
        forall p | 0 <= p < |g|
          ensures Phases(phase, ScaledQ(g[p]), selected[..a + 1], fast)
               == Phases(phase, ScaledQ(g[p]), selected[..a], fast) + [AtomPhase(phase, ScaledQ(g[p]), atom, fast)]
        {
          assert selected[..a + 1] == selected[..a] + [atom];
          PhasesAppend(phase, ScaledQ(g[p]), selected[..a], atom, fast);
        }
        forall p | 0 <= p < |g|
          ensures SumC(Phases(phase, ScaledQ(g[p]), selected[..a + 1], fast))
               == Add(SumC(Phases(phase, ScaledQ(g[p]), selected[..a], fast)), AtomPhase(phase, ScaledQ(g[p]), atom, fast))
        {
          SumCAppend(Phases(phase, ScaledQ(g[p]), selected[..a], fast), AtomPhase(phase, ScaledQ(g[p]), atom, fast));
        }
        temp := seq(|g|, p requires 0 <= p < |g| => Add(temp[p], AtomPhase(phase, ScaledQ(g[p]), atom, fast)));
        a := a + 1;
      }
      assert selected[..|selected|] == selected;
    }

    /** `_calculate_magnetic` with every atom paired with its own moment:
        per species, phase times moment summed over its atoms and scaled by
        j0 for ion charge 3 (species without j0 are skipped); then at every
        point the part of the summed moment perpendicular to Q, squared. */
    method CalculateMagnetic(tables: FormFactors, phase: real -> Complex, zs: seq<int>,
                             rs: seq<Geometry.Vec3>, ms: seq<Geometry.Vec3>, fast: bool)
      returns (r: seq<Num>)
      requires |zs| == |rs| == |ms|
      ensures |r| == |grid|
      ensures forall p :: 0 <= p < |grid| ==>
        r[p] == MagneticIntensity(SpinAt(tables, phase, fast, zs, rs, ms, grid[p]), ScaledQ(grid[p]), grid[p].qmag)
    {
      var g := grid;
      var sc := Magnetic(tables);
      var species := SortedUnique(zs);
      ghost var tx := AxisTerms(phase, g, rs, ms, fast, AxisX);
      ghost var ty := AxisTerms(phase, g, rs, ms, fast, AxisY);
      ghost var tz := AxisTerms(phase, g, rs, ms, fast, AxisZ);
      var spinx, spiny, spinz := seq(|g|, p => Zero), seq(|g|, p => Zero), seq(|g|, p => Zero);
      assert spinx == SpeciesSums(sc, g, [], zs, tx);
      assert spiny == SpeciesSums(sc, g, [], zs, ty);
      assert spinz == SpeciesSums(sc, g, [], zs, tz);
      var m := 0;
      while m < |species|
        invariant 0 <= m <= |species|
        invariant spinx == SpeciesSums(sc, g, species[..m], zs, tx)
        invariant spiny == SpeciesSums(sc, g, species[..m], zs, ty)
        invariant spinz == SpeciesSums(sc, g, species[..m], zs, tz)
      {
        var s := species[m];
        var ff := WeightField(sc, s, g);
        SelectLength(zs, rs, s);
        SelectLength(zs, ms, s);
        var tempx, tempy, tempz := SpeciesMoments(phase, Select(zs, rs, s), Select(zs, ms, s), fast);
        spinx := AddMagneticAxis(tables, phase, zs, rs, ms, fast, species, m, AxisX, ff, tempx, spinx);
        spiny := AddMagneticAxis(tables, phase, zs, rs, ms, fast, species, m, AxisY, ff, tempy, spiny);
        spinz := AddMagneticAxis(tables, phase, zs, rs, ms, fast, species, m, AxisZ, ff, tempz, spinz);
        m := m + 1;
      }
      assert species[..m] == species;
      r := seq(|g|, p requires 0 <= p < |g| =>
             MagneticIntensity(Spin(spinx[p], spiny[p], spinz[p]), ScaledQ(g[p]), g[p].qmag));
    }

    /** One component of one turn of `_calculate_magnetic`'s species loop:
        the species' summed term scaled by its j0 and added, or nothing when
        the tables lack j0 for it. */
    method AddMagneticAxis(tables: FormFactors, phase: real -> Complex, zs: seq<int>, rs: seq<Geometry.Vec3>,
                           ms: seq<Geometry.Vec3>, fast: bool, species: seq<int>, m: nat, axis: Axis,
                           ff: Option<seq<real>>, temp: seq<Complex>, spin: seq<Complex>)
      returns (r: seq<Complex>)
      requires |zs| == |rs| == |ms| && m < |species|
      requires ff == WeightField(Magnetic(tables), species[m], grid)
      requires |Select(zs, rs, species[m])| == |Select(zs, ms, species[m])|
      requires temp == AxisSums(phase, grid, Select(zs, rs, species[m]), Select(zs, ms, species[m]), fast, axis)
      requires spin == SpeciesSums(Magnetic(tables), grid, species[..m], zs, AxisTerms(phase, grid, rs, ms, fast, axis))
      ensures r == SpeciesSums(Magnetic(tables), grid, species[..m + 1], zs, AxisTerms(phase, grid, rs, ms, fast, axis))
    {
      var g := grid;
      ghost var terms := AxisTerms(phase, g, rs, ms, fast, axis);
      SelectMomentTermsAtEveryPoint(phase, g, zs, rs, ms, species[m], fast, axis, terms);
      r := spin;
      if ff.Some? {
        var w := ff.value;
        r := seq(|g|, p requires 0 <= p < |g| => Add(spin[p], Scale(temp[p], w[p])));
      }
      SpeciesLoopStep(Magnetic(tables), g, species, m, zs, terms, spin, temp, ff, r);
      assert r == SpeciesSums(Magnetic(tables), g, species[..m + 1], zs, terms);
    }

    /** `_calculate_average` with the engine's `_calculate`: the structure
        factors of every cell of the product of the levels, in i, j, k order,
        averaged over the cells and multiplied by the lattice factor of the
        occupied cells (those within the lot extent when lots are set). */
    method CalculateAverage(tables: FormFactors, phase: real -> Complex, fast: bool, rows: seq<Structures.AtomRow>)
      returns (r: Result<seq<Mean>, CalcError>)
      requires Valid()
      ensures r.Failure? <==> AverageFails(Setup(tables, radiation, phase, fast), rows)
      ensures r.Failure? ==> r.error == RadiationUnknown
      ensures r.Success? ==> |r.value| == |grid|
      ensures r.Success? ==> forall p :: 0 <= p < |grid| ==>
        r.value[p] == AverageAt(Setup(tables, radiation, phase, fast), rows, lots, grid[p])
    {
      ghost var bad := radiation != "neutron" && radiation != "xray";
      var sums, count := SumCells(tables, phase, fast, rows);
      if sums.Failure? {
        return Failure(sums.error);
      }
      if bad && |rows| > 0 {
        OccupiedCellVisited(rows);
        assert false;
      }
      var mean := ScaleByLattice(tables, phase, fast, rows, sums.value, count);
      r := Success(mean);
    }

    /** The three loops of `_calculate_average`: the structure factors of
        every cell, summed, and the number of cells visited. */
    method SumCells(tables: FormFactors, phase: real -> Complex, fast: bool, rows: seq<Structures.AtomRow>)
      returns (r: Result<seq<Complex>, CalcError>, count: int)
      requires Valid()
      ensures r.Failure? ==> AverageFails(Setup(tables, radiation, phase, fast), rows) && r.error == RadiationUnknown
      ensures r.Success? ==> count == CellCount(rows) && |r.value| == |grid|
      ensures r.Success? ==> forall p :: 0 <= p < |grid| ==>
        r.value[p] == ISum(Setup(tables, radiation, phase, fast), rows, Level(rows, 0), Level(rows, 1), Level(rows, 2), grid[p])
      ensures r.Success? && radiation != "neutron" && radiation != "xray" ==>
        CellsEmpty(rows, Level(rows, 0), Level(rows, 1), Level(rows, 2))
    {
      var g := grid;
      ghost var su := Setup(tables, radiation, phase, fast);
      ghost var bad := radiation != "neutron" && radiation != "xray";
      var li, lj, lk := Level(rows, 0), Level(rows, 1), Level(rows, 2);
      var aver := seq(|g|, p => Zero);
      count := 0;
      var a := 0;
      while a < |li|
        invariant 0 <= a <= |li| && |aver| == |g|
        invariant count == a * (|lj| * |lk|)
        invariant forall p :: 0 <= p < |g| ==> aver[p] == ISum(su, rows, li[..a], lj, lk, g[p])
        invariant bad ==> CellsEmpty(rows, li[..a], lj, lk)
      {
        var added;
        added, count := AverageOverI(tables, phase, fast, rows, li, lj, lk, a, aver, count);
        if added.Failure? {
          return Failure(added.error), count;
        }
        aver := added.value;
        a := a + 1;
      }
      assert li[..a] == li;
      IntArith.MulAssociates(|li|, |lj|, |lk|);
      r := Success(aver);
    }

    /** The end of `_calculate_average`: the sum divided by the cell count
        (NaN for no cells) and multiplied by the lattice factor. */
    method ScaleByLattice(tables: FormFactors, phase: real -> Complex, fast: bool, rows: seq<Structures.AtomRow>,
                          aver: seq<Complex>, count: int)
      returns (r: seq<Mean>)
      requires Valid() && |aver| == |grid| && count == CellCount(rows)
      requires forall p :: 0 <= p < |grid| ==>
        aver[p] == ISum(Setup(tables, radiation, phase, fast), rows, Level(rows, 0), Level(rows, 1), Level(rows, 2), grid[p])
      ensures |r| == |grid|
      ensures forall p :: 0 <= p < |grid| ==> r[p] == AverageAt(Setup(tables, radiation, phase, fast), rows, lots, grid[p])
    {
      var g := grid;
      var cells := LatticeCells(rows, lots);
      var lattice := Calculate(tables, phase, Zeros(|cells|), CellVectors(cells), fast, false);
      if count == 0 {
        return seq(|g|, p => Undefined);
      }
      var lv := lattice.value;
      r := seq(|g|, p requires 0 <= p < |g| =>
             Defined(Mul(Complex(aver[p].re / count as real, aver[p].im / count as real), lv[p])));
    }

    /** One turn of `_calculate_average`'s outer loop: the cells with
        `i = ii[a]` added to the sum of those with `i` in `ii[..a]`. */
    method AverageOverI(tables: FormFactors, phase: real -> Complex, fast: bool, rows: seq<Structures.AtomRow>,
                        ii: seq<int>, js: seq<int>, ks: seq<int>, a: nat, aver: seq<Complex>, count: int)
      returns (r: Result<seq<Complex>, CalcError>, count': int)
      requires a < |ii| && |aver| == |grid|
      requires count == a * (|js| * |ks|)
      requires forall p :: 0 <= p < |grid| ==> aver[p] == ISum(Setup(tables, radiation, phase, fast), rows, ii[..a], js, ks, grid[p])
      requires radiation != "neutron" && radiation != "xray" ==> CellsEmpty(rows, ii[..a], js, ks)
      ensures r.Failure? ==> CalculateFails(radiation, true, Zs(rows)) && r.error == RadiationUnknown
      ensures r.Success? ==> count' == (a + 1) * (|js| * |ks|) && |r.value| == |grid|
      ensures r.Success? ==> forall p :: 0 <= p < |grid| ==>
        r.value[p] == ISum(Setup(tables, radiation, phase, fast), rows, ii[..a + 1], js, ks, grid[p])
      ensures r.Success? && radiation != "neutron" && radiation != "xray" ==> CellsEmpty(rows, ii[..a + 1], js, ks)
    {
      var g := grid;
      ghost var su := Setup(tables, radiation, phase, fast);
      r, count' := AverageOverJ(tables, phase, fast, rows, ii[a], js, ks, aver, count);
      if r.Failure? {
        return;
      }
      forall p | 0 <= p < |g|
        ensures r.value[p] == ISum(su, rows, ii[..a + 1], js, ks, g[p])
      {
        IStep(su, rows, ii, js, ks, a, g[p], r.value[p]);
      }
      assert ii[..a + 1][..a] == ii[..a];
      IntArith.MulSucc(a, |js| * |ks|);
    }

    /** The middle loop of `_calculate_average` for one `i`: the cells
        `(i, j, k)` for every `j` and `k`, added to the running sum. */
    method AverageOverJ(tables: FormFactors, phase: real -> Complex, fast: bool, rows: seq<Structures.AtomRow>,
                        i: int, js: seq<int>, ks: seq<int>, aver: seq<Complex>, count: int)
      returns (r: Result<seq<Complex>, CalcError>, count': int)
      requires |aver| == |grid|
      ensures r.Failure? ==> CalculateFails(radiation, true, Zs(rows)) && r.error == RadiationUnknown
      ensures r.Success? ==> count' == count + |js| * |ks| && |r.value| == |grid|
      ensures r.Success? ==> forall p :: 0 <= p < |grid| ==>
        r.value[p] == Add(aver[p], JSum(Setup(tables, radiation, phase, fast), rows, i, js, ks, grid[p]))
      ensures r.Success? && radiation != "neutron" && radiation != "xray" ==> PlaneEmpty(rows, i, js, ks)
    {
      var g := grid;
      ghost var su := Setup(tables, radiation, phase, fast);
      ghost var bad := radiation != "neutron" && radiation != "xray";
      var sum := aver;
      count' := count;
      var b := 0;
      while b < |js|
        invariant 0 <= b <= |js| && |sum| == |g|
        invariant count' == count + b * |ks|
        invariant forall p :: 0 <= p < |g| ==> sum[p] == Add(aver[p], JSum(su, rows, i, js[..b], ks, g[p]))
        invariant bad ==> PlaneEmpty(rows, i, js[..b], ks)
      {
        var added;
        added, count' := AverageOverK(tables, phase, fast, rows, i, js[b], ks, sum, count');
        if added.Failure? {
          return Failure(added.error), count';
        }
        forall p | 0 <= p < |g|
          ensures added.value[p] == Add(aver[p], JSum(su, rows, i, js[..b + 1], ks, g[p]))
        {
          JStep(su, rows, i, js, ks, b, g[p], aver[p], added.value[p]);
        }
        assert js[..b + 1][..b] == js[..b];
        sum := added.value;
        IntArith.MulSucc(b, |ks|);
        b := b + 1;
      }
      assert js[..b] == js;
      r := Success(sum);
    }

    /** The innermost loop of `_calculate_average` for one `(i, j)`: the
        cells `(i, j, k)` for every `k`, each counted and added. */
    method AverageOverK(tables: FormFactors, phase: real -> Complex, fast: bool, rows: seq<Structures.AtomRow>,
                        i: int, j: int, ks: seq<int>, aver: seq<Complex>, count: int)
      returns (r: Result<seq<Complex>, CalcError>, count': int)
      requires |aver| == |grid|
      ensures r.Failure? ==> CalculateFails(radiation, true, Zs(rows)) && r.error == RadiationUnknown
      ensures r.Success? ==> count' == count + |ks| && |r.value| == |grid|
      ensures r.Success? ==> forall p :: 0 <= p < |grid| ==>
        r.value[p] == Add(aver[p], KSum(Setup(tables, radiation, phase, fast), rows, i, j, ks, grid[p]))
      ensures r.Success? && radiation != "neutron" && radiation != "xray" ==> ColumnEmpty(rows, i, j, ks)
    {
      var g := grid;
      ghost var su := Setup(tables, radiation, phase, fast);
      ghost var bad := radiation != "neutron" && radiation != "xray";
      var sum := aver;
      count' := count;
      var c := 0;
      while c < |ks|
        invariant 0 <= c <= |ks| && |sum| == |g|
        invariant count' == count + c
        invariant forall p :: 0 <= p < |g| ==> sum[p] == Add(aver[p], KSum(su, rows, i, j, ks[..c], g[p]))
        invariant bad ==> ColumnEmpty(rows, i, j, ks[..c])
      {
        count' := count' + 1;
        var added := AddCell(tables, phase, fast, rows, i, j, ks, c, aver, sum);
        if added.Failure? {
          return Failure(added.error), count';
        }
        assert ks[..c + 1][..c] == ks[..c];
        sum := added.value;
        c := c + 1;
      }
      assert ks[..c] == ks;
      r := Success(sum);
    }

    /** One turn of `_calculate_average`'s innermost loop: the structure
        factor of cell `(i, j, ks[c])` added to the running sum. */
    method AddCell(tables: FormFactors, phase: real -> Complex, fast: bool, rows: seq<Structures.AtomRow>,
                   i: int, j: int, ks: seq<int>, c: nat, ghost base: seq<Complex>, aver: seq<Complex>)
      returns (r: Result<seq<Complex>, CalcError>)
      requires c < |ks| && |base| == |aver| == |grid|
      requires forall p :: 0 <= p < |grid| ==>
        aver[p] == Add(base[p], KSum(Setup(tables, radiation, phase, fast), rows, i, j, ks[..c], grid[p]))
      ensures r.Failure? <==> CalculateFails(radiation, true, Zs(CellRows(rows, i, j, ks[c])))
      ensures r.Failure? ==> r.error == RadiationUnknown && CalculateFails(radiation, true, Zs(rows))
      ensures r.Success? ==> |r.value| == |grid|
      ensures r.Success? ==> forall p :: 0 <= p < |grid| ==>
        r.value[p] == Add(base[p], KSum(Setup(tables, radiation, phase, fast), rows, i, j, ks[..c + 1], grid[p]))
    {
      var g := grid;
      var cell := CellRows(rows, i, j, ks[c]);
      var f := Calculate(tables, phase, Zs(cell), Fractional(cell), fast, true);
      if f.Failure? {
        return Failure(f.error);
      }
      var fv := f.value;
      forall p | 0 <= p < |g|
        ensures Add(aver[p], fv[p]) == Add(base[p], KSum(Setup(tables, radiation, phase, fast), rows, i, j, ks[..c + 1], g[p]))
      {
        KStep(Setup(tables, radiation, phase, fast), rows, i, j, ks, c, g[p], base[p], aver[p]);
      }
      r := Success(seq(|g|, p requires 0 <= p < |g| => Add(aver[p], fv[p])));
    }

    /** The inner loop of `_calculate_magnetic`: each atom's phase times each
        component of its moment, summed at every grid point. */
    method SpeciesMoments(phase: real -> Complex, selected: seq<Geometry.Vec3>, moments: seq<Geometry.Vec3>, fast: bool)
      returns (tempx: seq<Complex>, tempy: seq<Complex>, tempz: seq<Complex>)
      requires |selected| == |moments|
      ensures tempx == AxisSums(phase, grid, selected, moments, fast, AxisX)
      ensures tempy == AxisSums(phase, grid, selected, moments, fast, AxisY)
      ensures tempz == AxisSums(phase, grid, selected, moments, fast, AxisZ)
    {
      var g := grid;
      tempx, tempy, tempz := seq(|g|, p => Zero), seq(|g|, p => Zero), seq(|g|, p => Zero);
      var a := 0;
      assert tempx == AxisSums(phase, g, [], [], fast, AxisX);
      assert tempy == AxisSums(phase, g, [], [], fast, AxisY);
      assert tempz == AxisSums(phase, g, [], [], fast, AxisZ);
      assert selected[..0] == [] && moments[..0] == [];
      while a < |selected|
        invariant 0 <= a <= |selected|
        invariant |tempx| == |tempy| == |tempz| == |g|
        invariant tempx == AxisSums(phase, g, selected[..a], moments[..a], fast, AxisX)
        invariant tempy == AxisSums(phase, g, selected[..a], moments[..a], fast, AxisY)
        invariant tempz == AxisSums(phase, g, selected[..a], moments[..a], fast, AxisZ)
      {
        tempx, tempy, tempz := AddAtomMoments(phase, selected, moments, a, fast, tempx, tempy, tempz);
        a := a + 1;
      }
      assert selected[..|selected|] == selected;
      assert moments[..|moments|] == moments;
    }

    /** One turn of the inner loop of `_calculate_magnetic`: the atom's
        phase `exp_temp` times each component of its moment, added. */
    method AddAtomMoments(phase: real -> Complex, selected: seq<Geometry.Vec3>, moments: seq<Geometry.Vec3>, a: nat,
                          fast: bool, tempx: seq<Complex>, tempy: seq<Complex>, tempz: seq<Complex>)
      returns (nx: seq<Complex>, ny: seq<Complex>, nz: seq<Complex>)
      requires |selected| == |moments| && a < |selected| && |tempx| == |tempy| == |tempz| == |grid|
      requires tempx == AxisSums(phase, grid, selected[..a], moments[..a], fast, AxisX)
      requires tempy == AxisSums(phase, grid, selected[..a], moments[..a], fast, AxisY)
      requires tempz == AxisSums(phase, grid, selected[..a], moments[..a], fast, AxisZ)
      ensures |nx| == |ny| == |nz| == |grid|
      ensures nx == AxisSums(phase, grid, selected[..a + 1], moments[..a + 1], fast, AxisX)
      ensures ny == AxisSums(phase, grid, selected[..a + 1], moments[..a + 1], fast, AxisY)
      ensures nz == AxisSums(phase, grid, selected[..a + 1], moments[..a + 1], fast, AxisZ)
    {
      var g := grid;
      var atom := selected[a];
      var e := seq(|g|, p requires 0 <= p < |g| => AtomPhase(phase, ScaledQ(g[p]), atom, fast));
      nx := AddMoment(phase, selected, moments, a, fast, AxisX, e, tempx);
      ny := AddMoment(phase, selected, moments, a, fast, AxisY, e, tempy);
      nz := AddMoment(phase, selected, moments, a, fast, AxisZ, e, tempz);
    }

    /** `temp_spin += exp_temp * spin[axis]` for the atom at index `a`. */
    method AddMoment(phase: real -> Complex, selected: seq<Geometry.Vec3>, moments: seq<Geometry.Vec3>, a: nat,
                     fast: bool, axis: Axis, e: seq<Complex>, temp: seq<Complex>)
      returns (r: seq<Complex>)
      requires |selected| == |moments| && a < |selected| && |e| == |temp| == |grid|
      requires forall p :: 0 <= p < |grid| ==> e[p] == AtomPhase(phase, ScaledQ(grid[p]), selected[a], fast)
      requires temp == AxisSums(phase, grid, selected[..a], moments[..a], fast, axis)
      ensures r == AxisSums(phase, grid, selected[..a + 1], moments[..a + 1], fast, axis)
    {
      var g := grid;
      var c := Component(moments[a], axis);
      MomentStep(phase, g, selected, moments, a, fast, axis, e, temp);
      r := seq(|g|, p requires 0 <= p < |g| => Add(temp[p], Scale(e[p], c)));
      assert r == AxisSums(phase, g, selected[..a + 1], moments[..a + 1], fast, axis);
    }
  }

  /** One component of the moment sum at every grid point. */
  function AxisSums(phase: real -> Complex, g: seq<QPoint>, selected: seq<Geometry.Vec3>, moments: seq<Geometry.Vec3>,
                    fast: bool, axis: Axis): (r: seq<Complex>)
    requires |selected| == |moments|
    ensures |r| == |g|
    ensures forall p :: 0 <= p < |g| ==> r[p] == SumC(MomentTerms(phase, ScaledQ(g[p]), selected, moments, fast, axis))
  {
    seq(|g|, p requires 0 <= p < |g| => SumC(MomentTerms(phase, ScaledQ(g[p]), selected, moments, fast, axis)))
  }

  /** One component of each atom's moment term, at every grid point. */
  function AxisTerms(phase: real -> Complex, g: seq<QPoint>, rs: seq<Geometry.Vec3>, ms: seq<Geometry.Vec3>,
                     fast: bool, axis: Axis): (r: seq<seq<Complex>>)
    requires |rs| == |ms|
    ensures |r| == |g|
    ensures forall p :: 0 <= p < |g| ==> r[p] == MomentTerms(phase, ScaledQ(g[p]), rs, ms, fast, axis) && |r[p]| == |rs|
  {
    seq(|g|, p requires 0 <= p < |g| => MomentTerms(phase, ScaledQ(g[p]), rs, ms, fast, axis))
  }

  /** The species loop's running sum at every grid point. */
  function SpeciesSums(sc: Scattering, g: seq<QPoint>, species: seq<int>, zs: seq<int>,
                       terms: seq<seq<Complex>>): (r: seq<Complex>)
    requires |terms| == |g| && forall p :: 0 <= p < |g| ==> |terms[p]| == |zs|
    ensures |r| == |g|
    ensures forall p :: 0 <= p < |g| ==> r[p] == SpeciesSum(sc, g[p].qmag, species, zs, terms[p])
  {
    seq(|g|, p requires 0 <= p < |g| => SpeciesSum(sc, g[p].qmag, species, zs, terms[p]))
  }

  lemma SelectPhasesAtEveryPoint(phase: real -> Complex, g: seq<QPoint>, zs: seq<int>, rs: seq<Geometry.Vec3>,
                                 s: int, fast: bool)
    requires |zs| == |rs|
    ensures forall p :: 0 <= p < |g| ==>
      SumC(Phases(phase, ScaledQ(g[p]), Select(zs, rs, s), fast))
        == SumC(Select(zs, Phases(phase, ScaledQ(g[p]), rs, fast), s))
  {
    forall p | 0 <= p < |g|
      ensures SumC(Phases(phase, ScaledQ(g[p]), Select(zs, rs, s), fast))
           == SumC(Select(zs, Phases(phase, ScaledQ(g[p]), rs, fast), s))
    {
      SelectPhases(phase, ScaledQ(g[p]), zs, rs, s, fast);
    }
  }

  lemma SelectMomentTermsAtEveryPoint(phase: real -> Complex, g: seq<QPoint>, zs: seq<int>, rs: seq<Geometry.Vec3>,
                                      ms: seq<Geometry.Vec3>, s: int, fast: bool, axis: Axis, terms: seq<seq<Complex>>)
    requires |zs| == |rs| == |ms| && |terms| == |g|
    requires forall p :: 0 <= p < |g| ==> terms[p] == MomentTerms(phase, ScaledQ(g[p]), rs, ms, fast, axis)
    ensures |Select(zs, rs, s)| == |Select(zs, ms, s)|
    ensures forall p :: 0 <= p < |g| ==> |terms[p]| == |zs|
    ensures forall p :: 0 <= p < |g| ==>
      SumC(MomentTerms(phase, ScaledQ(g[p]), Select(zs, rs, s), Select(zs, ms, s), fast, axis))
        == SumC(Select(zs, terms[p], s))
  {
    SelectLength(zs, rs, s);
    SelectLength(zs, ms, s);
    forall p | 0 <= p < |g|
      ensures |terms[p]| == |zs|
      ensures SumC(MomentTerms(phase, ScaledQ(g[p]), Select(zs, rs, s), Select(zs, ms, s), fast, axis))
           == SumC(Select(zs, terms[p], s))
    {
      SelectMomentTerms(phase, ScaledQ(g[p]), zs, rs, ms, s, fast, axis);
    }
  }

  /** Adding one atom's phase times one component of its moment extends
      that component's sum by the atom. */
  lemma MomentStep(phase: real -> Complex, g: seq<QPoint>, selected: seq<Geometry.Vec3>, moments: seq<Geometry.Vec3>,
                   a: nat, fast: bool, axis: Axis, e: seq<Complex>, temp: seq<Complex>)
    requires |selected| == |moments| && a < |selected| && |e| == |temp| == |g|
    requires forall p :: 0 <= p < |g| ==> e[p] == AtomPhase(phase, ScaledQ(g[p]), selected[a], fast)
    requires forall p :: 0 <= p < |g| ==>
      temp[p] == SumC(MomentTerms(phase, ScaledQ(g[p]), selected[..a], moments[..a], fast, axis))
    ensures forall p :: 0 <= p < |g| ==>
      SumC(MomentTerms(phase, ScaledQ(g[p]), selected[..a + 1], moments[..a + 1], fast, axis))
        == Add(temp[p], Scale(e[p], Component(moments[a], axis)))
  {
    assert selected[..a + 1] == selected[..a] + [selected[a]];
    assert moments[..a + 1] == moments[..a] + [moments[a]];
    forall p | 0 <= p < |g|
      ensures SumC(MomentTerms(phase, ScaledQ(g[p]), selected[..a + 1], moments[..a + 1], fast, axis))
           == Add(temp[p], Scale(e[p], Component(moments[a], axis)))
    {
      var q := ScaledQ(g[p]);
      MomentTermsAppend(phase, q, selected[..a], moments[..a], selected[a], moments[a], fast, axis);
      SumCAppend(MomentTerms(phase, q, selected[..a], moments[..a], fast, axis),
                 Scale(e[p], Component(moments[a], axis)));
    }
  }
}
