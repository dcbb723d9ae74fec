# javelin core in Dafny

javelin computes diffuse scattering from crystal structures. This project
models the deterministic layer beneath its floating-point numerics, with
numbers taken as exact reals:

- **`UnitCell`** (`unitcell.dfy`, module `UnitCells`) is a class.
  - It holds the six lattice parameters, the six reciprocal ones and the
    3×3 metric tensor `G`, stored as an `array2`.
  - `set_cell` dispatches on 1, 3 or 6 values and stores the angles in
    radians.
  - It rejects an infeasible angle triple once the lengths and angles are
    already written.
  - It fills `G` entry by entry, then recomputes the reciprocal cell from
    `G⁻¹`.
- **The atom table of `Structure`** (`structure.dfy`, module `Structures`).
  - The table is a sequence of rows with distinct `(i, j, k, site)` keys.
  - `add_atom` validates its input, then overwrites or appends the row for
    its key.
  - `get_atomic_number_symbol` reconciles a Z and a symbol against an
    abstract element table.
  - The model also covers the getters and the zero-axis guard of
    `get_rotation_matrix`.
- **The `.stru` reader** (`stru_reader.dfy`, module `StruReader`).
  - It is a line-driven state machine: header mode, then atom mode.
  - `gen_index` (`stru_index.dfy`, module `StruIndex`) is a class that
    keeps the loop counters of the generator.
  - The reader's loop is a method proved equal to a fold over the lines.
- **Vector rejection** (`vector_reject.dfy`, module `VectorReject`).
  - `reject` and `gutmann` are proved equal (the BAC–CAB identity).
  - The rejection is proved perpendicular, idempotent and zero on parallel
    vectors.
- **The `Fourier` engine** (`fourier.dfy`, module `Fouriers`, a class).
  - It covers the setters and `calc` with its whole-structure and lots
    branches.
  - `calc` and the members it calls are modelled with the two corrections
    of "## Findings": the average uses `_calculate`, and each atom is paired
    with its own magnetic moment. Each as-written behaviour is modelled
    beside its correction.
  - It covers `_calculate` (per-species sums scaled by form factors, with a
    fast and a slow phase), `_calculate_magnetic` (per-axis moment sums,
    then rejection against Q) and `_calculate_average`.
  - Every loop is a method whose contract ties its result to a
    specification function. The specification functions are in
    `fourier_spec.dfy` (module `FourierSpec`) and `calc_spec.dfy` (module
    `CalcSpec`).
  - The lots windows (`np.roll(levels, start)[:n]`) and `.loc` selection
    are in `lots.dfy` (module `Lots`).

## Numerics and foreign code as parameters

- The model does not define `cos`, `sqrt`, `arccos`, float division
  (`divide`) or matrix inverse.
  - `UnitCells.Numerics` carries them. `divide` computes every reciprocal
    angle's cosine. `Inverts` states what `getI` promises of the inverse.
  - `sqrt` in `get_rotation_matrix` and the per-atom phase `exp(iθ)` are
    function-valued parameters.
  - A lemma that needs a law of one of them states it in its `requires`.
    Examples: `phase(a + b) == phase(a) * phase(b)`, `sqrt(x)² == x`,
    `cos(90°) == 0`.
- `np.pi` is a fixed rational constant in `Geometry`. Two things use it:
  - the degree and radian conversions, each the other's inverse;
  - the 2π factor that scales q in `FourierSpec.ScaledQ`.
- The `periodictable` lookups are finite maps in `Elements`.
  - This covers symbol↔number, the neutron `b_c`, the x-ray `f0` and the
    magnetic `j0` by ion.
  - A missing key is the model of Python's `KeyError`.
- Parsing text as `float` or `int` is a caller-supplied partial function.
- The reciprocal-space grid is a sequence of points, each with its scaled
  q vector and its |Q|.
- The random cell offsets of the lots loop are a caller-supplied sequence
  of draws.
- The magnetic moments of the structure are an input.

## Model

| member | source | states |
|---|---|---|
| UnitCells.UnitCell.constructor | javelin/unitcell.py:5-19 | a fresh cell has a = b = c = 1 and 90° angles (in radians); its reciprocal cell equals it; G is the identity |
| UnitCells.StoredParams | javelin/unitcell.py:23-41 | 1, 3 and 6 values are the only counts accepted; 1 value sets all lengths with right angles, 3 set a, b, c in order with right angles, 6 also set the angles converted to radians |
| UnitCells.UnitCell.SetCell | javelin/unitcell.py:23-43 | wrong count: ValueError and nothing changes; infeasible angles: the error comes after a..gamma are stored, with G and the reciprocal cell kept; otherwise G is the metric tensor of the new parameters, the reciprocal cell is recomputed from G⁻¹, or a singular G is reported |
| UnitCells.UnitCell.Store | javelin/unitcell.py:24-41 | the six parameters are replaced exactly when the count is accepted; otherwise the object is unchanged; the reciprocal cell is never touched |
| UnitCells.UnitCell.Rebuild | javelin/unitcell.py:42-43 | keeps the parameters; an angle error leaves G unchanged; otherwise G is the metric tensor, then the reciprocal cell comes from G⁻¹ or a singular-matrix error |
| UnitCells.UnitCell.Cell | javelin/unitcell.py:45-49 | returns the lengths, and the angles in degrees, which convert back to the stored radians |
| UnitCells.UnitCell.ReciprocalCell | javelin/unitcell.py:59-63 | returns the reciprocal lengths, and the reciprocal angles in degrees, which convert back to the stored radians |
| UnitCells.UnitCell.CalculateG | javelin/unitcell.py:74-86 | raises exactly when one angle exceeds the sum of the other two, with G untouched; otherwise G equals the metric tensor of the current parameters |
| UnitCells.UnitCell.WriteMetric | javelin/unitcell.py:79-86 | after the six writes and three copies, G is the symmetric matrix with the given diagonal and upper triangle |
| UnitCells.UnitCell.CalculateReciprocalLattice | javelin/unitcell.py:65-72 | a singular G gives an error and leaves the reciprocal cell as it was; otherwise the reciprocal cell has sqrt of the diagonal of G⁻¹ as lengths and arccos of each off-diagonal entry over the product of the two lengths as angles |
| UnitCells.UnitCell.Metric | javelin/unitcell.py:53-54 | `get_G` returns the current contents of G, entry by entry |
| UnitCells.UnitCell.Gstar | javelin/unitcell.py:56-57 | `get_Gstar` is G⁻¹: given an inverse with `getI`'s promise, the answer times G is the identity, and a G with non-zero determinant always has one |
| UnitCells.DiagonalInverse | javelin/unitcell.py:56-57 | the inverse of a diagonal matrix without zeros is the diagonal of the reciprocals |
| UnitCells.RightAngledGstar | javelin/unitcell.py:56-57 | for 1 or 3 non-zero lengths with right angles, G⁻¹ is the diagonal of 1/a², 1/b², 1/c² |
| UnitCells.MetricTensorEntries | javelin/unitcell.py:79-86 | the metric tensor is symmetric, with squared lengths on the diagonal and a·b·cos γ, a·c·cos β, b·c·cos α off it |
| UnitCells.RightAngledMetricIsDiagonal | javelin/unitcell.py:25-32 | for 1 or 3 values the metric tensor is diagonal, given cos 90° = 0 |
| UnitCells.StoredCellRoundTrip | javelin/unitcell.py:33-49 | reading back a stored cell gives the values that were set, angles in degrees |
| UnitCells.FeasibleInDegrees | javelin/unitcell.py:75-77 | the angle test in radians agrees with the same test on the degrees given; 1 or 3 values always pass it |
| UnitCells.Create | javelin/unitcell.py:5-21 | `UnitCell(*args)`: no arguments gives the default cell; with values a cell is made exactly when the count is accepted, the angles are feasible and G is invertible, and it holds the stored parameters |
| Structures.Keys | javelin/structure.py:9-13 | the index column of the table, row by row |
| Structures.KeySet | javelin/structure.py:19-20 | a key is in the set exactly when some row carries it |
| Structures.Lookup | javelin/structure.py:56-58 | the row `.loc[key]` finds: absent exactly when no row carries the key, otherwise a row of the table with that key |
| Structures.IndexOf | javelin/structure.py:56-58 | finds a row with the key, or reports that no row has it |
| Structures.Upsert | javelin/structure.py:56-58 | `.loc[key] = row` grows the table by one exactly when the key is new, and the row is then in the table |
| Structures.UpsertShape | javelin/structure.py:56-58 | each entry after the write is the new row, when the key matches, or the old row; rows under other keys keep their places |
| Structures.UpsertKeepsKeysDistinct | javelin/structure.py:56-58 | writing a row keeps the keys of the table distinct |
| Structures.UniquePosition | javelin/structure.py:9-13 | with distinct keys, a key's row is found at its only position |
| Structures.UpsertLookup | javelin/structure.py:56-58 | after the write the key holds the new row and every other key holds what it held before |
| Structures.RowsCountKeys | javelin/structure.py:19-20 | with distinct keys, the table has as many rows as distinct keys |
| Structures.AtomicNumberSymbol | javelin/structure.py:65-80 | a success keeps a given Z; with no symbol it is the table's symbol for Z; with a symbol it is the capitalised symbol and the table's number for it; "neither given" is raised exactly when neither is given |
| Structures.AtomicNumberSymbolErrors | javelin/structure.py:65-80 | no symbol and no Z: ValueError; no symbol and a Z missing from the table, or a symbol whose capitalisation the table lacks: a lookup error; a Z that disagrees with the symbol's number: ValueError |
| Structures.AtomicNumberSymbolAgrees | javelin/structure.py:65-80 | a successful result is a matching pair of the table, keeps a given Z, and carries the capitalised symbol when one was given |
| Structures.AtomicNumberSymbolIdempotent | javelin/structure.py:65-80 | feeding a result back in returns it unchanged |
| Structures.AtomicNumberSymbolIgnoresCase | javelin/structure.py:74-75 | two symbols that differ only in case give the same result |
| Structures.Structure.constructor | javelin/structure.py:6-15 | a new structure has no unit cell and an empty table |
| Structures.Structure.AddAtom | javelin/structure.py:47-58 | a Z/symbol error or a missing position raises and leaves the table unchanged; otherwise the row under (i, j, k, site) is written, with the Cartesian position equal to the fractional one when there is no cell |
| Structures.Structure.NumberOfAtoms | javelin/structure.py:18-20 | the row count equals the number of distinct keys |
| Structures.Structure.AtomicNumbers | javelin/structure.py:31-32 | the Z column in table order |
| Structures.Structure.AtomZs | javelin/structure.py:25-26 | each atomic number of the table appears once, in the order in which the Z column first shows it |
| Structures.Structure.ScaledPositions | javelin/structure.py:37-40 | the fractional positions in table order |
| Structures.Structure.Positions | javelin/structure.py:42-45 | fails exactly when there is no unit cell; otherwise scales x, y, z of each row by a, b, c, in table order |
| Structures.RotationAxis | javelin/structure.py:83-92 | the only error is the zero-length axis; an accepted axis times its norm gives back (l, m, n) |
| Structures.RotationAxisRejectsZero | javelin/structure.py:85-88 | the axis is rejected exactly when it is the zero vector |
| Structures.RotationAxisIsUnit | javelin/structure.py:85-92 | an accepted axis is divided by its norm and has unit length |
| StruIndex.NthIndex | dev_scripts/pandas.py:84-94 | with no sites the generator yields (0, 0, 0, n) forever; otherwise it yields exactly i·j·k·sites tuples, each within the ranges, the n-th at position n of the k-j-i-site order |
| StruIndex.NthIndexInjective | dev_scripts/pandas.py:90-94 | the generator never yields a tuple twice |
| StruIndex.DecodePos | dev_scripts/pandas.py:90-94 | a tuple's position in the k-j-i-site order decodes back to the tuple |
| StruIndex.PosDecode | dev_scripts/pandas.py:90-94 | every position decodes to a tuple in range that encodes back to it |
| StruIndex.PosBelowCount | dev_scripts/pandas.py:90 | a tuple lies before the end of the generator exactly when its k is below the k count |
| StruIndex.SuccessorAdvances | dev_scripts/pandas.py:90-94 | the odometer step of the nested loops moves one position forward, or ends after the last tuple |
| StruIndex.NextIndexIsSuccessor | dev_scripts/pandas.py:90-94 | consecutive tuples are related by the odometer step (site fastest, then i, then j, then k) |
| StruIndex.IndexGenerator.constructor | dev_scripts/pandas.py:84-94 | a new generator is about to yield its first tuple |
| StruIndex.IndexGenerator.Next | dev_scripts/pandas.py:84-94 | `next(index_gen)` returns the next tuple of the sequence, or stops once the tuples are exhausted |
| StruReader.ParseEach | dev_scripts/pandas.py:34-36 | succeeds exactly when every token parses, and then gives each token's value in order |
| StruReader.Slice | dev_scripts/pandas.py:34-36 | `line[a:b]` has Python's slice length and holds the tokens from a on |
| StruReader.HeaderStep | dev_scripts/pandas.py:32-43 | an empty line raises IndexError; any error is raised at that line and is never StopIteration; a `cell` line succeeds exactly when it has six more tokens that `float` accepts, and then sets the six parameters to them and changes nothing else; an `ncell` line likewise with four tokens that `int` accepts and the counts; a header line adds no rows, enters atom mode exactly at `atoms`, and then has a non-zero a and keeps the counts |
| StruReader.AtomStep | dev_scripts/pandas.py:44-63 | raises StopIteration once the tuples run out; any error is raised at that line; it succeeds exactly when a tuple is left, the line has a symbol and three coordinates that `float` accepts, and the capitalised symbol is a known element; then exactly one row is appended, with the next generated key, the capitalised first token as symbol with its number, the three parsed coordinates as position, and the relative position, the rest of the state kept |
| StruReader.Run | dev_scripts/pandas.py:30-63 | a failed read names one of the given lines; a successful one has at most one row per line |
| StruReader.RunConsistent | dev_scripts/pandas.py:30-63 | after any lines, row n carries the n-th generated key, a symbol that capitalisation leaves unchanged with its table number, and the position minus its cell |
| StruReader.RowsReadFromAtomLines | dev_scripts/pandas.py:30-63 | the rows come from the last lines read, one per line and in order: each row's symbol is its line's capitalised first token and its position the line's three coordinates |
| StruReader.HeaderValuesFromLines | dev_scripts/pandas.py:9-43 | the cell read is the starting one, the default of the `atoms` line, or the six values of some `cell` line; the counts are the starting ones or the four values of some `ncell` line |
| StruReader.StepRows | dev_scripts/pandas.py:31-63 | one line adds no row (the read holds none yet) or appends exactly one, read from that line |
| StruReader.StepHeaderValues | dev_scripts/pandas.py:31-43 | one line keeps the cell, sets the default one or reads it from the line, and keeps the counts or reads them from the line |
| StruReader.HeaderModeHasNoRows | dev_scripts/pandas.py:30-44 | before the `atoms` line the read holds no rows |
| StruReader.StepConsistent | dev_scripts/pandas.py:31-63 | one line keeps that invariant |
| StruReader.AtomStepConsistent | dev_scripts/pandas.py:44-63 | an atom line appends a row labelled with the next generated key, with rel = (x − i, y − j, z − k) |
| StruReader.RowsFollowGenerator | dev_scripts/pandas.py:45-49 | row n of the result carries the n-th generated index |
| StruReader.RowsWithinCount | dev_scripts/pandas.py:84-94 | with a nonzero site count, no more rows than the generator yields |
| StruReader.ExhaustedGeneratorStops | dev_scripts/pandas.py:45 | an atom line after the last tuple raises StopIteration |
| StruReader.HeaderKeywords | dev_scripts/pandas.py:32-43 | the `atoms` line sets the default cell when a is 0 and switches to atom mode; a line with any other first word leaves the state as it was |
| StruReader.FailureIsFinal | dev_scripts/pandas.py:30-63 | once a line raises, later lines change nothing |
| StruReader.ReadStru | dev_scripts/pandas.py:5-81 | the loop returns the error of the first line that raises, or the cell and rows of the fold over the lines, whose contents `HeaderStep`, `AtomStep`, `RowsReadFromAtomLines` and `HeaderValuesFromLines` tie to the lines |
| StruReader.ReadLine | dev_scripts/pandas.py:31-63 | one pass computes the step of that line and keeps the generator in step with the rows |
| StruReader.HeaderLine | dev_scripts/pandas.py:32-43 | a header line computes the header step and adds no rows |
| StruReader.AtomLine | dev_scripts/pandas.py:44-63 | an atom line computes the atom step and advances the generator once per row |
| Text.Capitalize | dev_scripts/pandas.py:54 | `str.capitalize`: first character upper case, the rest lower case, same length |
| Text.CapitalizeIdempotent | dev_scripts/pandas.py:54 | capitalising twice equals capitalising once |
| Text.CapitalizeIgnoresCase | javelin/structure.py:74 | strings that agree up to case capitalise alike |
| Text.ReplaceCommas | dev_scripts/pandas.py:31 | each comma becomes a space, nothing else changes |
| Text.SplitGivesWords | dev_scripts/pandas.py:31 | `str.split()` yields non-empty words without whitespace |
| Text.SplitKeepsCharacters | dev_scripts/pandas.py:31 | every character of a word comes from the line |
| Text.SplitJoin | dev_scripts/pandas.py:31 | splitting words joined by single spaces gives the words back |
| Text.Fields | dev_scripts/pandas.py:31 | the tokens of a line are words without commas |
| Text.FieldsTreatCommaAsSpace | dev_scripts/pandas.py:31 | a comma splits a line exactly like a space |
| Collections.Insert | javelin/fourier.py:241 | inserting into a strictly increasing sequence keeps it strictly increasing, with the new element added |
| Collections.SortedUnique | javelin/fourier.py:241 | `np.unique`: strictly increasing, holding exactly the elements of the input |
| Collections.IncreasingWithSameElements | javelin/fourier.py:241 | two strictly increasing sequences with the same elements are equal, so `np.unique` is determined |
| Collections.Dedup | javelin/fourier.py:215 | `drop_duplicates`: no repeats, the same elements, in the order of their first occurrence |
| Collections.DedupOfDistinct | javelin/fourier.py:215 | a sequence without repeats is its own deduplication |
| Collections.Select | javelin/fourier.py:253 | `positions[atomic_numbers == s]` keeps at most as many entries as there are; `SelectIsWhere` states which |
| Collections.Where | javelin/fourier.py:253 | `np.where(zs == s)` lists, in increasing order, exactly the positions holding s |
| Collections.SelectIsWhere | javelin/fourier.py:253 | the i-th selected entry is the entry at the i-th position holding s, and there is one per such position |
| Collections.SelectIsSubMultiset | javelin/fourier.py:253 | the selected entries are a sub-multiset of the input |
| Collections.SelectLength | javelin/fourier.py:253 | as many entries are selected as the atomic number occurs |
| Collections.SelectAbsent | javelin/fourier.py:253 | an atomic number that does not occur selects nothing |
| Lots.SliceLength | javelin/fourier.py:176-178 | `xs[:m]` keeps no more than the whole |
| Lots.Roll | javelin/fourier.py:176-178 | `np.roll` keeps the length |
| Lots.RollMovesEachLevel | javelin/fourier.py:176-178 | entry t lands at position (t + shift) mod n |
| Lots.RollKeepsLevels | javelin/fourier.py:176-178 | rolling keeps the same levels, and keeps distinct levels distinct |
| Lots.Window | javelin/fourier.py:176-178 | a lot's range has the length the slice gives and holds, at place t, the level `(t − start) mod n` of the axis: a cyclic run of distinct levels, and every level when the lot is as wide as the axis |
| Lots.Level | javelin/fourier.py:170 | `index.levels[axis]`: strictly increasing, exactly the values the rows use on that axis |
| Lots.Keep | javelin/fourier.py:179 | `.loc[ri, rj, rk, :]` keeps at most the rows there are |
| Lots.KeepSameLength | javelin/fourier.py:179-189 | masking the atoms and the moments with the same ranges keeps the same number of entries |
| Lots.KeepSelectsRanges | javelin/fourier.py:179 | a row is kept exactly when its cell lies within the ranges |
| Lots.CellsOf | javelin/fourier.py:215 | `index.droplevel(3).drop_duplicates()`: each occupied (i, j, k) once, and nothing else |
| Lots.Range | javelin/fourier.py:217-219 | `range(n)`: exactly the integers from 0 below n |
| VectorReject.Reject | dev_scripts/vector_reject.py:9-10 | for q ≠ 0, reject(s, q) · q = 0 |
| VectorReject.TripleProductExpansion | dev_scripts/vector_reject.py:5-6 | (q × s) × q = (q·q) s − (q·s) q |
| VectorReject.Gutmann | dev_scripts/vector_reject.py:5-10 | for q ≠ 0, gutmann(s, q) = reject(s, q) exactly |
| VectorReject.RejectParallelIsZero | dev_scripts/vector_reject.py:9-10 | rejecting k·q from q gives the zero vector |
| VectorReject.RejectOfPerpendicular | dev_scripts/vector_reject.py:9-10 | a vector perpendicular to q is its own rejection |
| VectorReject.RejectIdempotent | dev_scripts/vector_reject.py:9-10 | rejecting twice equals rejecting once |
| FourierSpec.FastEqualsSlow | javelin/fourier.py:258-267 | under the phase homomorphism, the product of the three axis phases equals the phase of the dot product |
| FourierSpec.Phases | javelin/fourier.py:258-267 | one phase per atom, in order |
| FourierSpec.SelectPhases | javelin/fourier.py:253-267 | phasing the selected atoms equals selecting from the phases of all atoms |
| FourierSpec.GetFF | javelin/fourier.py:358-389 | ValueError exactly for a radiation other than neutron or xray; a value exactly when the element has data for the radiation: b_c for neutrons, f0(q) for x-rays |
| FourierSpec.GetMagFF | javelin/fourier.py:392-417 | a value exactly when the table has the element and the ion charge, then j0 at \|Q\| |
| FourierSpec.GetFFDispatch | javelin/fourier.py:384-389 | an unknown radiation raises ValueError; the neutron value does not depend on q; the x-ray value is f0(q); whether a lookup fails does not depend on q |
| FourierSpec.FormFactorField | javelin/fourier.py:384-389 | the form factor over the grid is `get_ff` at each point's \|Q\|, or the error `get_ff` raises at every \|Q\| |
| FourierSpec.MagneticFormFactorField | javelin/fourier.py:392-417 | j0 over the grid at each point's \|Q\|, or absent at every \|Q\| |
| FourierSpec.WeightField | javelin/fourier.py:246-251 | the per-species scale over the grid, or absent at every point so that the species is skipped |
| FourierSpec.SpeciesLoopStep | javelin/fourier.py:245-269 | one pass of the species loop adds that species' share at every point, or nothing when its form factor is missing |
| FourierSpec.SpeciesPartition | javelin/fourier.py:241-269 | summing species by species over `np.unique(zs)` equals summing atom by atom, each weighted by its own species' factor |
| FourierSpec.StructureFactor | javelin/fourier.py:231-271 | `_calculate` is Σ over atoms whose species has a form factor of ff(Z)·phase(q·r) |
| FourierSpec.StructureFactorFastEqualsSlow | javelin/fourier.py:258-267 | the fast and slow paths give the same structure factor |
| FourierSpec.ForwardScatteringCountsAtoms | javelin/fourier.py:247-267 | at q = 0 with `use_ff=False` the structure factor is the atom count |
| FourierSpec.SelectMomentTerms | javelin/fourier.py:298-319 | the moment terms of one species' atoms are the selection of those of all atoms, each atom paired with its own moment |
| FourierSpec.SpinComponent | javelin/fourier.py:290-322 | each summed spin component is Σ over atoms of j0(Z)·phase(q·r)·m, over the species with a j0 |
| FourierSpec.SpinAt | javelin/fourier.py:273-322 | each of the three summed spin components is the sum over atoms of j0(Z)·phase(q·r)·m for that axis |
| FourierSpec.MomentPairingAsWritten | javelin/fourier.py:305-314 | on two atoms of different species, the zip as written gives an x component of 2, while each atom paired with its own moment gives 1 |
| FourierSpec.PairingCountsTwice | javelin/fourier.py:305-314 | the as-written loop counts the first moment once per species |
| FourierSpec.PairingCountsOnce | javelin/fourier.py:290-322 | pairing each atom with its own moment counts the x moment once |
| FourierSpec.SpinDot | javelin/fourier.py:325 | M·Q of a complex spin has as real and imaginary parts the dot products of the real and imaginary parts with Q |
| FourierSpec.RejectSpinIsVectorReject | javelin/fourier.py:323-328 | the rejection in `_calculate_magnetic` is `reject` of the script, applied to the real and imaginary parts |
| FourierSpec.RejectedSpinIsPerpendicular | javelin/fourier.py:323-328 | for Q ≠ 0 the rejected spin is perpendicular to Q, in both its real and imaginary parts |
| FourierSpec.MagneticIntensity | javelin/fourier.py:323-329 | the intensity is NaN exactly when \|Q\| = 0 |
| FourierSpec.MagneticIntensityNonNegative | javelin/fourier.py:323-329 | for \|Q\| ≠ 0 the intensity is finite and non-negative, and zero exactly when the rejected spin is zero |
| FourierSpec.MomentAlongQIsInvisible | javelin/fourier.py:323-329 | a moment parallel to Q scatters nothing |
| CalcSpec.LevelsEmptyOnlyWithoutRows | javelin/fourier.py:201-212 | a level is empty, and the cell count is 0, exactly when the table is empty |
| CalcSpec.AverageAt | javelin/fourier.py:199-229 | `aver /= count` is a division by zero exactly when the table is empty |
| CalcSpec.LatticeFactorCountsCells | javelin/fourier.py:214-227 | at q = 0 the lattice factor is the number of occupied cells counted |
| CalcSpec.LotRowsWithinWindows | javelin/fourier.py:173-179 | a lot keeps exactly the rows whose cell lies in its three windows; each window has the lot's width when the lot fits |
| CalcSpec.FullLotHoldsEveryRow | javelin/fourier.py:173-179 | a lot at least as wide as the structure on each axis keeps every row |
| CalcSpec.IntensitiesNonNegative | javelin/fourier.py:163-166 | \|F − aver\|² is non-negative, with or without the average |
| CalcSpec.LotsTotalNonNegative | javelin/fourier.py:169-197 | the un-normalised sum over lots is non-negative |
| CalcSpec.CalcAt | javelin/fourier.py:136-197 | every intensity `calc` returns (with the two corrections of "## Findings") is non-negative or NaN |
| CalcSpec.CalcFailure | javelin/fourier.py:147-197 | for `calc` (with the two corrections of "## Findings"): with the average on, an unknown radiation is raised first; a run without error has a lot count whenever lots are set, and a whole-structure path that succeeds when lots are unset |
| CalcSpec.AverageAsWrittenRaises | javelin/fourier.py:208-222 | with the average switched on, `calc` as written raises; with the intended `_calculate` it succeeds |
| CalcSpec.CalcBranches | javelin/fourier.py:147-197 | `calc` (with the two corrections of "## Findings") fails as the whole-structure path fails when lots are unset, raises when lots are set without a lot count, and otherwise fails as the lots loop fails; on success each point is the whole-structure intensity or the sum over the lots |
| CalcSpec.LotsErrorPersists | javelin/fourier.py:171-195 | the first lot that raises ends the loop with its error |
| Fouriers.Fourier.constructor | javelin/fourier.py:18-24 | a new engine has neutron radiation, no lots, no lot count, no average and no structure |
| Fouriers.Fourier.SetRadiation | javelin/fourier.py:36-38 | stores the radiation and nothing else |
| Fouriers.Fourier.SetStructure | javelin/fourier.py:51-53 | stores the structure and nothing else |
| Fouriers.Fourier.SetNumberOfLots | javelin/fourier.py:86-88 | stores the lot count and nothing else |
| Fouriers.Fourier.SetLots | javelin/fourier.py:65-74 | None clears the lots; three values are stored; any other length raises ValueError and leaves the lots unchanged |
| Fouriers.Fourier.Calc | javelin/fourier.py:136-197 | no structure is an error; otherwise the error is the first one `calc` (with the two corrections of "## Findings") meets, or each point is the intensity of the specification |
| Fouriers.Fourier.CalcRows | javelin/fourier.py:147-197 | the same (with the two corrections of "## Findings"), on the atom table, its atomic numbers and its positions |
| Fouriers.Fourier.CalcWhole | javelin/fourier.py:150-166 | the magnetic intensity, or \|F − aver\|², at every point, or the error of `_calculate` (with the two corrections of "## Findings") |
| Fouriers.Fourier.CalcLots | javelin/fourier.py:168-197 | the sum over the lots of each lot's intensity (with the two corrections of "## Findings"), or the error of the first lot that raises |
| Fouriers.Fourier.AddLot | javelin/fourier.py:171-195 | one pass of the lots loop adds that lot's intensity (with the two corrections of "## Findings") to the running total |
| Fouriers.Fourier.Lot | javelin/fourier.py:173-195 | one lot: rolled windows, the rows inside them with positions offset by their cell, then the magnetic or nuclear intensity (with the two corrections of "## Findings"); fails exactly as the lot's calculation fails |
| Fouriers.Fourier.Calculate | javelin/fourier.py:231-271 | fails exactly when the radiation is unknown and some species needs a form factor; otherwise each point is the per-species structure factor |
| Fouriers.Fourier.AddSpecies | javelin/fourier.py:245-269 | after species m, each point holds the species sum of the first m + 1 species |
| Fouriers.Fourier.SpeciesPhases | javelin/fourier.py:254-267 | `temp_array` is the sum of the selected atoms' phases at every point |
| Fouriers.Fourier.CalculateMagnetic | javelin/fourier.py:273-329 | each point is the magnetic intensity of the spin summed with each atom paired with its own moment |
| Fouriers.Fourier.AddMagneticAxis | javelin/fourier.py:290-322 | the species loop for one axis gives the species sums of that axis' moment terms |
| Fouriers.Fourier.CalculateAverage | javelin/fourier.py:199-229 | fails exactly when a cell's form factor lookup meets an unknown radiation; otherwise each point is the mean over the cells times the lattice factor of the occupied cells |
| Fouriers.Fourier.SumCells | javelin/fourier.py:202-210 | the triple loop gives the sum over the cells and counts \|levels0\|·\|levels1\|·\|levels2\| of them |
| Fouriers.Fourier.ScaleByLattice | javelin/fourier.py:212-227 | divides by the count and multiplies by the lattice factor, as the average of the specification |
| Fouriers.Fourier.AverageOverI | javelin/fourier.py:203-210 | after the a-th value of i, the sum covers the first a + 1 planes and counts their cells |
| Fouriers.Fourier.AverageOverJ | javelin/fourier.py:204-210 | one plane's loop over j adds that plane's sum and its cell count |
| Fouriers.Fourier.AverageOverK | javelin/fourier.py:205-210 | one column's loop over k adds that column's sum and its cell count |
| Fouriers.Fourier.AddCell | javelin/fourier.py:206-210 | one cell adds that cell's structure factor, or fails as `_calculate` on it does |
| Fouriers.Fourier.SpeciesMoments | javelin/fourier.py:298-319 | the three `temp_spin` sums of the selected atoms, each atom with its own moment |
| Fouriers.Fourier.AddAtomMoments | javelin/fourier.py:305-319 | one atom adds its phase times its moment to each of the three sums |
| Fouriers.Fourier.AddMoment | javelin/fourier.py:310-319 | one atom adds its phase times one moment component to one sum |

## Left out

- File and console I/O: `open`/`readlines` in `read_stru` and every
  `print`. The reader takes its lines as a sequence of strings.
- `StruReader.ReadStru` returns the cell alongside the rows. The source
  builds the cell too but only prints it.
- The pandas `DataFrame` wrapping of the rows is left out. So is
  `set_index`; the rows carry their key.
- Floating-point behaviour: rounding, overflow, NaN propagation in numpy
  arrays.
  - Numbers are exact reals.
  - The two divisions by zero the source can reach (q2 = 0 in
    `_calculate_magnetic`, count = 0 in `_calculate_average`) are modelled
    as an explicit NaN/undefined value.
- The numeric routines `cos`, `sqrt`, `arccos`, float division, matrix
  inverse, `exp(iθ)` and the parsing of numbers are parameters, not
  definitions.
- The trigonometric body of `get_rotation_matrix` is not modelled. Only
  the zero-axis guard and the normalisation of the axis are.
- `_recalculate_cartn`, `get_atom_symbols`, `get_atom_count`,
  `get_chemical_symbols` and `Structure.__init__`'s `rotations` and
  `translations` fields are not modelled. They are not part of the
  modelled core.
- `__get_unitcell`, `__get_positions` and `__get_atomic_numbers` are not
  modelled.
  - Their ASE and diffpy fallbacks probe foreign libraries.
  - The model takes the javelin `Structure` path: the table's Z column and
    fractional positions.
- `__get_q` and the grid are not modelled. The grid class is not part of
  this model, and each grid point supplies its scaled q vector and \|Q\|.
  With javelin's own `UnitCell`, which has no `B` attribute, `__get_q`
  (javelin/fourier.py:106-112) raises AttributeError as written; the model
  takes the q values as given instead.
- `create_xarray_dataarray` is not modelled: it is xarray wrapping. `calc`
  returns the intensities.
- `randrange` in the lots loop is not modelled. Its three draws per lot are
  an input, each below the length of its level.
- `structure.get_magnetic_moments()` and `structure.magmons` are not
  modelled; the moments, one per row, are an input.
- Lots.Keep: `.loc` is modelled as a mask in table order. pandas may return
  the rows of a multi-level `.loc` in the order of the requested labels.
  The model's sums do not depend on the order, but the order itself is not
  modelled.
- Fouriers.Fourier.AddCell: a cell that `.loc` finds empty (pandas raises
  `KeyError` for it) contributes zero to the average instead of raising.
- Text.Capitalize: only ASCII letters change case, whereas Python's
  `str.capitalize` follows Unicode.
- Structures.AtomicNumberSymbolErrors: `is` / `is not` comparisons of the
  source are modelled as `==` / `!=`. This agrees with CPython for the
  small integers that atomic numbers are.
- The unit cell's `np.float` conversions and `np.asarray(args).flatten()`
  are not modelled. Nested argument lists are not modelled; the values
  arrive as one flat sequence.
- Structures.Structure.AddAtom: when the structure has a unit cell, the
  Cartesian position comes from a caller-supplied function. It stands for
  `self.unitcell.cartesian` (javelin/structure.py:54), a method that
  javelin's `UnitCell` does not define. As written, that branch raises
  AttributeError; the model writes the row instead.
- VectorReject.Reject: requires q ≠ 0. For q = 0 numpy divides by zero and
  returns NaN components with a RuntimeWarning, without raising; the model
  does not cover that case.
- VectorReject.Gutmann: requires q ≠ 0, for the same reason as
  `VectorReject.Reject`.
- The driver loop of `dev_scripts/vector_reject.py` is not modelled. It
  searches at random for inputs where the two formulas differ in floating
  point; the model proves they agree in exact arithmetic.

## Findings

| source | as written | input that shows it | evidently intended | confidence | as-written member | corrected member |
|---|---|---|---|---|---|---|
| javelin/fourier.py:305-314 | `zip(atom_positions, magmons)` pairs the positions of one species with the moments of the whole table, from its first row | atoms Z = 1 and Z = 2, both at the origin, moments (1, 0, 0) and (0, 1, 0), j0 = 1, unit phase: the x component is 2 | each atom is paired with its own moment, which gives 1 | not executed | FourierSpec.MomentPairingAsWritten | Fouriers.Fourier.CalculateMagnetic |
| javelin/fourier.py:208-222 | `_calculate_average` calls `self.calculate`, which `Fourier` does not define (only `_calculate`), so `calc` with the average switched on raises AttributeError | any structure with `_average` set, neutron radiation, no lots | the calls are to `_calculate` | not executed | CalcSpec.AverageAsWrittenRaises | Fouriers.Fourier.CalculateAverage |
