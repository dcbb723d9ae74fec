/** The `.stru` reader: a line-driven state machine. In header mode it
    records the `cell` parameters and `ncell` counts and waits for the
    `atoms` line; after it, every line is an atom: symbol and fractional
    position, labelled with the next tuple of the index generator. Parsing
    a number is supplied by the caller, since Python's `float` and `int`
    grammars are not part of the model. */
module StruReader {

  import opened Geometry
  import opened Text
  import opened Elements
  import opened Structures
  import opened StruIndex
  import UnitCells

  /** `float(s)` and `int(s)`; `None` where Python raises ValueError. */
  datatype Parsers = Parsers(toFloat: string -> Option<real>, toInt: string -> Option<int>)

  /** The Python exception that ends the read, with the index of the line
      being processed. */
  datatype StruError = IndexError(line: nat) | ValueError(line: nat) | StopIteration(line: nat)

  /** One atom: its generated key, atomic number, capitalised symbol, the
      position read from the file and the position relative to its cell. */
  datatype StruRow = StruRow(key: AtomKey, z: int, symbol: string, position: Vec3, rel: Vec3)

  datatype ReaderState = ReaderState(cell: UnitCells.CellParams, counts: CellCounts,
                                     atomMode: bool, rows: seq<StruRow>)

  datatype Outcome = Read(state: ReaderState) | Failed(error: StruError)

  const Initial: ReaderState :=
    ReaderState(UnitCells.CellParams(0.0, 0.0, 0.0, 0.0, 0.0, 0.0), CellCounts(0, 0, 0, 0), false, [])

  /** The cell assumed when the header gave none. */
  const DefaultCell: UnitCells.CellParams := UnitCells.CellParams(1.0, 1.0, 1.0, 90.0, 90.0, 90.0)

  /** Every token parsed, or `None` if one fails. */
  function ParseEach<T>(parse: string -> Option<T>, tokens: seq<string>): (r: Option<seq<T>>)
    ensures r.Some? ==> |r.value| == |tokens|
    ensures r.Some? ==> forall n :: 0 <= n < |tokens| ==> parse(tokens[n]) == Some(r.value[n])
    ensures (forall n :: 0 <= n < |tokens| ==> parse(tokens[n]).Some?) ==> r.Some?
  {
    if tokens == [] then Some([])
    else
      match (parse(tokens[0]), ParseEach(parse, tokens[1..]))
      case (Some(x), Some(xs)) => Some([x] + xs)
      case _ => None
  }

  /** `line[a:b]` on a token list. */
  function Slice(tokens: seq<string>, a: nat, b: nat): (r: seq<string>)
    ensures a <= b ==> |r| == if a >= |tokens| then 0 else if b >= |tokens| then |tokens| - a else b - a
    ensures forall n :: 0 <= n < |r| ==> a + n < |tokens| && r[n] == tokens[a + n]
  {
    if a >= |tokens| then [] else if b >= |tokens| then tokens[a..] else if a <= b then tokens[a..b] else []
  }

  /** The position relative to the cell: each coordinate minus its cell
      index. */
  function Relative(position: Vec3, key: AtomKey): Vec3 {
    Sub(position, Vec3(key.i as real, key.j as real, key.k as real))
  }

  /** The six numbers of a `cell` line, as `float` reads them. */
  predicate CellReadFrom(parsers: Parsers, tokens: seq<string>, cell: UnitCells.CellParams) {
    |tokens| >= 7
    && parsers.toFloat(tokens[1]) == Some(cell.a) && parsers.toFloat(tokens[2]) == Some(cell.b)
    && parsers.toFloat(tokens[3]) == Some(cell.c) && parsers.toFloat(tokens[4]) == Some(cell.alpha)
    && parsers.toFloat(tokens[5]) == Some(cell.beta) && parsers.toFloat(tokens[6]) == Some(cell.gamma)
  }

  /** The four counts of an `ncell` line, as `int` reads them. */
  predicate CountsReadFrom(parsers: Parsers, tokens: seq<string>, counts: CellCounts) {
    |tokens| >= 5
    && parsers.toInt(tokens[1]) == Some(counts.ni) && parsers.toInt(tokens[2]) == Some(counts.nj)
    && parsers.toInt(tokens[3]) == Some(counts.nk) && parsers.toInt(tokens[4]) == Some(counts.sites)
  }

  /** An atom row as its line gives it: the capitalised first word and the
      three coordinates after it. */
  predicate RowReadFrom(parsers: Parsers, tokens: seq<string>, row: StruRow) {
    |tokens| >= 4 && row.symbol == Capitalize(tokens[0])
    && parsers.toFloat(tokens[1]) == Some(row.position.x)
    && parsers.toFloat(tokens[2]) == Some(row.position.y)
    && parsers.toFloat(tokens[3]) == Some(row.position.z)
  }

  /** A header line: `cell` and `ncell` lines store their values, the
      `atoms` line supplies the default cell if `a` is still 0 and switches
      to atom mode, anything else is skipped. An empty line has no first
      token. */
  function HeaderStep(st: ReaderState, tokens: seq<string>, line: nat, parsers: Parsers): (r: Outcome)
    requires !st.atomMode
    ensures tokens == [] ==> r == Failed(IndexError(line))
    ensures r.Failed? ==> r.error.line == line && !r.error.StopIteration?
    ensures r.Read? ==> tokens != [] && r.state.rows == st.rows && (r.state.atomMode <==> tokens[0] == "atoms")
    ensures r.Read? && r.state.atomMode ==> r.state.cell.a != 0.0 && r.state.counts == st.counts
    ensures tokens != [] && tokens[0] == "cell" ==>
      (r.Read? <==> |tokens| >= 7 && forall n :: 1 <= n < 7 ==> parsers.toFloat(tokens[n]).Some?)
    ensures tokens != [] && tokens[0] == "cell" && r.Read? ==>
      r.state == st.(cell := r.state.cell) && CellReadFrom(parsers, tokens, r.state.cell)
    ensures tokens != [] && tokens[0] == "ncell" ==>
      (r.Read? <==> |tokens| >= 5 && forall n :: 1 <= n < 5 ==> parsers.toInt(tokens[n]).Some?)
    ensures tokens != [] && tokens[0] == "ncell" && r.Read? ==>
      r.state == st.(counts := r.state.counts) && CountsReadFrom(parsers, tokens, r.state.counts)
  {
    if tokens == [] then Failed(IndexError(line))
    else if tokens[0] == "cell" then
      match ParseEach(parsers.toFloat, Slice(tokens, 1, 7))
      case Some(v) =>
        if |v| == 6 then Read(st.(cell := UnitCells.CellParams(v[0], v[1], v[2], v[3], v[4], v[5])))
        else Failed(ValueError(line))
      case None => Failed(ValueError(line))
    else if tokens[0] == "ncell" then
      match ParseEach(parsers.toInt, Slice(tokens, 1, 5))
      case Some(v) =>
        if |v| == 4 then Read(st.(counts := CellCounts(v[0], v[1], v[2], v[3])))
        else Failed(ValueError(line))
      case None => Failed(ValueError(line))
    else if tokens[0] == "atoms" then
      Read(st.(cell := if st.cell.a == 0.0 then DefaultCell else st.cell, atomMode := true))
    else Read(st)
  }

  /** An atom line: take the next index tuple, then the symbol and three
      coordinates, then look the capitalised symbol up. */
  function AtomStep(st: ReaderState, tokens: seq<string>, line: nat,
                    parsers: Parsers, table: ElementTable): (r: Outcome)
    ensures NthIndex(st.counts, |st.rows|).None? ==> r == Failed(StopIteration(line))
    ensures r.Failed? ==> r.error.line == line && !r.error.IndexError?
    ensures r.Read? ==> r.state == st.(rows := r.state.rows) && |r.state.rows| == |st.rows| + 1
                        && r.state.rows[..|st.rows|] == st.rows
    ensures r.Read? ==> NthIndex(st.counts, |st.rows|) == Some(r.state.rows[|st.rows|].key)
                        && RowWellFormed(table, r.state.rows[|st.rows|])
                        && RowReadFrom(parsers, tokens, r.state.rows[|st.rows|])
    ensures r.Read? <==> NthIndex(st.counts, |st.rows|).Some? && |tokens| >= 4
                         && (forall n :: 1 <= n < 4 ==> parsers.toFloat(tokens[n]).Some?)
                         && Capitalize(tokens[0]) in table.numberOf
  {
    match NthIndex(st.counts, |st.rows|)
    case None => Failed(StopIteration(line))
    case Some(key) =>
      if |tokens| < 4 then Failed(ValueError(line))
      else
        match ParseEach(parsers.toFloat, tokens[1..4])
        case None => Failed(ValueError(line))
        case Some(xyz) =>
          var symbol := Capitalize(tokens[0]);
          if symbol !in table.numberOf then Failed(ValueError(line))
          else
            CapitalizeIdempotent(tokens[0]);
            var position := Vec3(xyz[0], xyz[1], xyz[2]);
            Read(st.(rows := st.rows + [StruRow(key, table.numberOf[symbol], symbol,
                                                position, Relative(position, key))]))
  }

  function Step(st: ReaderState, text: string, line: nat, parsers: Parsers, table: ElementTable): Outcome {
    var tokens := Fields(text);
    if st.atomMode then AtomStep(st, tokens, line, parsers, table)
    else HeaderStep(st, tokens, line, parsers)
  }

  /** The state after the given lines, or the error that stopped the read. */
  function Run(lines: seq<string>, parsers: Parsers, table: ElementTable): (r: Outcome)
    ensures r.Failed? ==> r.error.line < |lines|
    ensures r.Read? ==> |r.state.rows| <= |lines|
  {
    if lines == [] then Read(Initial)
    else
      match Run(lines[..|lines| - 1], parsers, table)
      case Failed(e) => Failed(e)
      case Read(st) => Step(st, lines[|lines| - 1], |lines| - 1, parsers, table)
  }

  /** What the reader hands back: the atom rows, with the cell the source
      reports alongside them. */
  datatype Stru = Stru(cell: UnitCells.CellParams, rows: seq<StruRow>)

  /** A row as the reader builds it: a known capitalised symbol with its
      atomic number, and the relative position of its cell. */
  predicate RowWellFormed(table: ElementTable, row: StruRow) {
    Capitalize(row.symbol) == row.symbol
    && row.symbol in table.numberOf && table.numberOf[row.symbol] == row.z
    && row.rel == Relative(row.position, row.key)
  }

  /** What every reachable state satisfies: rows only in atom mode, row n
      carrying the n-th generated tuple, and every row well formed. */
  predicate Consistent(table: ElementTable, st: ReaderState) {
    (!st.atomMode ==> st.rows == [])
    && (forall n :: 0 <= n < |st.rows| ==> NthIndex(st.counts, n) == Some(st.rows[n].key))
    && (forall n :: 0 <= n < |st.rows| ==> RowWellFormed(table, st.rows[n]))
    && (st.atomMode ==> st.cell.a != 0.0)
  }

  lemma {:induction false} RunConsistent(lines: seq<string>, parsers: Parsers, table: ElementTable)
    ensures Run(lines, parsers, table).Read? ==> Consistent(table, Run(lines, parsers, table).state)
  {
    if lines != [] {
      var front := lines[..|lines| - 1];
      RunConsistent(front, parsers, table);
      if Run(front, parsers, table).Read? {
        StepConsistent(Run(front, parsers, table).state, lines[|lines| - 1], |lines| - 1, parsers, table);
      }
    }
  }

  /** Each line keeps the state consistent. */
  lemma StepConsistent(st: ReaderState, text: string, line: nat, parsers: Parsers, table: ElementTable)
    requires Consistent(table, st)
    ensures Step(st, text, line, parsers, table).Read? ==> Consistent(table, Step(st, text, line, parsers, table).state)
  {
    if st.atomMode {
      AtomStepConsistent(st, Fields(text), line, parsers, table);
    }
  }

  /** An atom line appends a well-formed row carrying the next tuple. */
  lemma AtomStepConsistent(st: ReaderState, tokens: seq<string>, line: nat, parsers: Parsers, table: ElementTable)
    requires Consistent(table, st) && st.atomMode
    ensures AtomStep(st, tokens, line, parsers, table).Read? ==>
      Consistent(table, AtomStep(st, tokens, line, parsers, table).state)
  {
    var r := AtomStep(st, tokens, line, parsers, table);
    if r.Read? {
      var rows := r.state.rows;
      assert |rows| == |st.rows| + 1 && rows[..|st.rows|] == st.rows;
      assert NthIndex(st.counts, |st.rows|) == Some(rows[|st.rows|].key);
      forall n | 0 <= n < |rows|
        ensures NthIndex(st.counts, n) == Some(rows[n].key) && RowWellFormed(table, rows[n])
      {
        if n < |st.rows| {
          assert rows[n] == st.rows[n];
        }
      }
    }
  }

  /** Row n carries the n-th tuple of the index generator, and its relative
      position is its position minus its cell indices. */
  lemma RowsFollowGenerator(lines: seq<string>, parsers: Parsers, table: ElementTable, n: nat)
    requires Run(lines, parsers, table).Read?
    requires n < |Run(lines, parsers, table).state.rows|
    ensures var st := Run(lines, parsers, table).state;
      NthIndex(st.counts, n) == Some(st.rows[n].key)
      && st.rows[n].rel == Relative(st.rows[n].position, st.rows[n].key)
      && st.rows[n].symbol in table.numberOf && table.numberOf[st.rows[n].symbol] == st.rows[n].z
  {
    RunConsistent(lines, parsers, table);
  }

  /** Each row comes from one of the last lines, one row per line in
      order: row n was read from line `|lines| - |rows| + n`. */
  predicate RowsReadFrom(parsers: Parsers, lines: seq<string>, rows: seq<StruRow>) {
    |rows| <= |lines|
    && forall n :: 0 <= n < |rows| ==> RowReadFrom(parsers, Fields(lines[|lines| - |rows| + n]), rows[n])
  }

  /** The rows of a read come from the last lines, one row per line in
      order, each with its line's capitalised symbol and coordinates. */
  lemma {:induction false} RowsReadFromAtomLines(lines: seq<string>, parsers: Parsers, table: ElementTable)
    requires Run(lines, parsers, table).Read?
    ensures RowsReadFrom(parsers, lines, Run(lines, parsers, table).state.rows)
  {
    if lines != [] {
      var last := |lines| - 1;
      var front := lines[..last];
      RowsReadFromAtomLines(front, parsers, table);
      var st := Run(front, parsers, table).state;
      assert st.atomMode || st.rows == [] by {
        HeaderModeHasNoRows(front, parsers, table);
      }
      assert Run(lines, parsers, table) == Step(st, lines[last], last, parsers, table) by {
        RunOneMore(lines, last, parsers, table);
        assert lines[..last + 1] == lines;
      }
      StepRows(st, lines[last], last, parsers, table);
      RowsReadFromGrow(parsers, lines, st.rows, Run(lines, parsers, table).state.rows);
    }
  }

  /** Before the `atoms` line the read holds no rows. */
  lemma HeaderModeHasNoRows(lines: seq<string>, parsers: Parsers, table: ElementTable)
    requires Run(lines, parsers, table).Read?
    ensures !Run(lines, parsers, table).state.atomMode ==> Run(lines, parsers, table).state.rows == []
  {
    RunConsistent(lines, parsers, table);
  }

  /** Reading one more line keeps the rows tied to their lines, whether the
      line adds no row or appends one read from it. */
  lemma RowsReadFromGrow(parsers: Parsers, lines: seq<string>, rows: seq<StruRow>, rows': seq<StruRow>)
    requires lines != [] && RowsReadFrom(parsers, lines[..|lines| - 1], rows)
    requires rows' == rows == []
             || (|rows'| == |rows| + 1 && rows'[..|rows|] == rows
                 && RowReadFrom(parsers, Fields(lines[|lines| - 1]), rows'[|rows|]))
    ensures RowsReadFrom(parsers, lines, rows')
  {
    var front := lines[..|lines| - 1];
    forall n | 0 <= n < |rows'|
      ensures RowReadFrom(parsers, Fields(lines[|lines| - |rows'| + n]), rows'[n])
    {
      if n < |rows| {
        assert rows'[n] == rows[n];
        assert lines[|lines| - |rows'| + n] == front[|front| - |rows| + n];
      }
    }
  }

  /** A line adds no row, or appends one row read from that line. */
  lemma StepRows(st: ReaderState, text: string, line: nat, parsers: Parsers, table: ElementTable)
    requires st.atomMode || st.rows == []
    ensures var r := Step(st, text, line, parsers, table);
      r.Read? ==>
        (r.state.rows == st.rows == [])
        || (|r.state.rows| == |st.rows| + 1 && r.state.rows[..|st.rows|] == st.rows
            && RowReadFrom(parsers, Fields(text), r.state.rows[|st.rows|]))
  {
  }

  /** The cell is the starting one, the default one, or that of some
      `cell` line; the counts are the starting ones or those of some `ncell`
      line. */
  predicate HeaderFrom(parsers: Parsers, lines: seq<string>, cell: UnitCells.CellParams, counts: CellCounts) {
    (cell == Initial.cell || cell == DefaultCell
     || exists t :: 0 <= t < |lines| && CellReadFrom(parsers, Fields(lines[t]), cell))
    && (counts == Initial.counts
        || exists t :: 0 <= t < |lines| && CountsReadFrom(parsers, Fields(lines[t]), counts))
  }

  /** The cell and the counts a read ends with come from its `cell` and
      `ncell` lines, or are the values the reader starts with (the cell of
      the `atoms` line when no `cell` line came first). */
  lemma {:induction false} HeaderValuesFromLines(lines: seq<string>, parsers: Parsers, table: ElementTable)
    requires Run(lines, parsers, table).Read?
    ensures HeaderFrom(parsers, lines, Run(lines, parsers, table).state.cell, Run(lines, parsers, table).state.counts)
  {
    if lines != [] {
      var last := |lines| - 1;
      var front := lines[..last];
      HeaderValuesFromLines(front, parsers, table);
      var before := Run(front, parsers, table).state;
      RunOneMore(lines, last, parsers, table);
      assert lines[..last + 1] == lines;
      StepHeaderValues(before, lines[last], last, parsers, table);
      var st := Run(lines, parsers, table).state;
      HeaderFromGrow(parsers, lines, before.cell, before.counts, st.cell, st.counts);
    }
  }

  /** One more line keeps the header values tied to the lines. */
  lemma HeaderFromGrow(parsers: Parsers, lines: seq<string>,
                       cell: UnitCells.CellParams, counts: CellCounts,
                       cell': UnitCells.CellParams, counts': CellCounts)
    requires lines != [] && HeaderFrom(parsers, lines[..|lines| - 1], cell, counts)
    requires cell' == cell || cell' == DefaultCell || CellReadFrom(parsers, Fields(lines[|lines| - 1]), cell')
    requires counts' == counts || CountsReadFrom(parsers, Fields(lines[|lines| - 1]), counts')
    ensures HeaderFrom(parsers, lines, cell', counts')
  {
    var front := lines[..|lines| - 1];
    if exists t :: 0 <= t < |front| && CellReadFrom(parsers, Fields(front[t]), cell) {
      var t :| 0 <= t < |front| && CellReadFrom(parsers, Fields(front[t]), cell);
      assert lines[t] == front[t];
    }
    if exists t :: 0 <= t < |front| && CountsReadFrom(parsers, Fields(front[t]), counts) {
      var t :| 0 <= t < |front| && CountsReadFrom(parsers, Fields(front[t]), counts);
      assert lines[t] == front[t];
    }
  }

  /** A line keeps the cell, sets the default one, or reads it; and keeps
      the counts or reads them. */
  lemma StepHeaderValues(st: ReaderState, text: string, line: nat, parsers: Parsers, table: ElementTable)
    ensures var r := Step(st, text, line, parsers, table);
      r.Read? ==>
        (r.state.cell == st.cell || r.state.cell == DefaultCell || CellReadFrom(parsers, Fields(text), r.state.cell))
        && (r.state.counts == st.counts || CountsReadFrom(parsers, Fields(text), r.state.counts))
  {
  }

  /** A finite generator bounds the number of atoms: a file with more atom
      lines than tuples stops with StopIteration. */
  lemma RowsWithinCount(lines: seq<string>, parsers: Parsers, table: ElementTable)
    requires Run(lines, parsers, table).Read?
    requires Run(lines, parsers, table).state.counts.sites != 0
    ensures |Run(lines, parsers, table).state.rows| <= FiniteCount(Run(lines, parsers, table).state.counts)
  {
    var st := Run(lines, parsers, table).state;
    RunConsistent(lines, parsers, table);
  }

  /** Once the tuples run out, the next line ends the read. */
  lemma ExhaustedGeneratorStops(st: ReaderState, text: string, line: nat, parsers: Parsers, table: ElementTable)
    requires st.atomMode && st.counts.sites != 0 && |st.rows| >= FiniteCount(st.counts)
    ensures Step(st, text, line, parsers, table) == Failed(StopIteration(line))
  {
  }

  /** The `atoms` line keeps a cell the header set and otherwise supplies
      the unit cube with right angles; lines with other first words leave the
      state alone. */
  lemma HeaderKeywords(st: ReaderState, text: string, line: nat, parsers: Parsers)
    requires !st.atomMode && Fields(text) != []
    ensures Fields(text)[0] == "atoms" ==>
      HeaderStep(st, Fields(text), line, parsers)
        == Read(st.(cell := if st.cell.a == 0.0 then DefaultCell else st.cell, atomMode := true))
    ensures Fields(text)[0] !in {"cell", "ncell", "atoms"} ==>
      HeaderStep(st, Fields(text), line, parsers) == Read(st)
  {
  }

  /** An error ends the read: later lines are never looked at. */
  lemma {:induction false} FailureIsFinal(lines: seq<string>, n: nat, parsers: Parsers, table: ElementTable)
    requires n <= |lines| && Run(lines[..n], parsers, table).Failed?
    ensures Run(lines, parsers, table) == Run(lines[..n], parsers, table)
    decreases |lines| - n
  {
    if n < |lines| {
      assert lines[..n + 1][..n] == lines[..n];
      FailureIsFinal(lines, n + 1, parsers, table);
    } else {
      assert lines[..n] == lines;
    }
  }

  /** One more line is one more step, unless the read has already failed. */
  lemma RunOneMore(lines: seq<string>, n: nat, parsers: Parsers, table: ElementTable)
    requires n < |lines|
    ensures Run(lines[..n], parsers, table).Failed? ==>
      Run(lines[..n + 1], parsers, table) == Run(lines[..n], parsers, table)
    ensures Run(lines[..n], parsers, table).Read? ==>
      Run(lines[..n + 1], parsers, table) == Step(Run(lines[..n], parsers, table).state, lines[n], n, parsers, table)
  {
    assert lines[..n + 1][..n] == lines[..n];
  }

  /** `read_stru` over the lines of a file: the loop of the source, with the
      index generator created at the `atoms` line and advanced once per atom
      line. */
  method ReadStru(lines: seq<string>, parsers: Parsers, table: ElementTable) returns (r: Result)
    ensures Run(lines, parsers, table).Failed? ==> r == Error(Run(lines, parsers, table).error)
    ensures Run(lines, parsers, table).Read? ==>
      r == Parsed(Stru(Run(lines, parsers, table).state.cell, Run(lines, parsers, table).state.rows))
  {
    var cell := Initial.cell;
    var counts := Initial.counts;
    var readingAtomList := false;
    var rows: seq<StruRow> := [];
    var gen: IndexGenerator? := null;
    var n := 0;
    while n < |lines|
      invariant 0 <= n <= |lines|
      invariant Run(lines[..n], parsers, table) == Read(ReaderState(cell, counts, readingAtomList, rows))
      invariant readingAtomList ==> gen != null && gen.Valid() && gen.counts == counts && gen.produced == |rows|
      invariant gen != null ==> fresh(gen)
      invariant !readingAtomList ==> rows == []
    {
      var st := ReaderState(cell, counts, readingAtomList, rows);
      RunOneMore(lines, n, parsers, table);
      var outcome;
      outcome, gen := ReadLine(gen, st, lines[n], n, parsers, table);
      if outcome.Failed? {
        FailureIsFinal(lines, n + 1, parsers, table);
        return Error(outcome.error);
      }
      cell, counts, readingAtomList, rows :=
        outcome.state.cell, outcome.state.counts, outcome.state.atomMode, outcome.state.rows;
      assert outcome == Read(ReaderState(cell, counts, readingAtomList, rows));
      n := n + 1;
    }
    assert lines[..n] == lines;
    return Parsed(Stru(cell, rows));
  }

  /** One pass of the loop: split the line into fields and handle it as a
      header line or, after the `atoms` line, as an atom line; the `atoms`
      line creates the index generator. */
  method ReadLine(gen: IndexGenerator?, st: ReaderState, text: string, line: nat,
                  parsers: Parsers, table: ElementTable) returns (r: Outcome, gen': IndexGenerator?)
    requires st.atomMode ==> gen != null && gen.Valid() && gen.counts == st.counts && gen.produced == |st.rows|
    requires !st.atomMode ==> st.rows == []
    modifies gen
    ensures r == Step(st, text, line, parsers, table)
    ensures r.Read? && r.state.atomMode ==>
      gen' != null && gen'.Valid() && gen'.counts == r.state.counts && gen'.produced == |r.state.rows|
    ensures r.Read? && !r.state.atomMode ==> r.state.rows == []
    ensures gen' == gen || fresh(gen')
  {
    var tokens := Fields(text);
    gen' := gen;
    if !st.atomMode {
      r := HeaderLine(st, tokens, line, parsers);
      if r.Read? && r.state.atomMode {
        gen' := new IndexGenerator(r.state.counts);
      }
    } else {
      r := AtomLine(gen, st, tokens, line, parsers, table);
    }
  }

  /** One line before the `atoms` line: store the `cell` or `ncell` values,
      or switch to atom mode. */
  method HeaderLine(st: ReaderState, tokens: seq<string>, line: nat, parsers: Parsers) returns (r: Outcome)
    requires !st.atomMode
    ensures r == HeaderStep(st, tokens, line, parsers)
    ensures r.Read? ==> r.state.rows == st.rows
  {
    var cell := st.cell;
    var counts := st.counts;
    var atomMode := false;
    if tokens == [] {
      return Failed(IndexError(line));
    } else if tokens[0] == "cell" {
      var v := ParseEach(parsers.toFloat, Slice(tokens, 1, 7));
      if v.None? || |v.value| != 6 {
        return Failed(ValueError(line));
      }
      cell := UnitCells.CellParams(v.value[0], v.value[1], v.value[2], v.value[3], v.value[4], v.value[5]);
    } else if tokens[0] == "ncell" {
      var v := ParseEach(parsers.toInt, Slice(tokens, 1, 5));
      if v.None? || |v.value| != 4 {
        return Failed(ValueError(line));
      }
      counts := CellCounts(v.value[0], v.value[1], v.value[2], v.value[3]);
    } else if tokens[0] == "atoms" {
      if cell.a == 0.0 {
        cell := DefaultCell;
      }
      atomMode := true;
    }
    r := Read(ReaderState(cell, counts, atomMode, st.rows));
  }

  /** One line after the `atoms` line: advance the generator, parse the
      symbol and position and append the row. */
  method AtomLine(gen: IndexGenerator, st: ReaderState, tokens: seq<string>, line: nat,
                  parsers: Parsers, table: ElementTable) returns (r: Outcome)
    requires st.atomMode && gen.Valid() && gen.counts == st.counts && gen.produced == |st.rows|
    modifies gen
    ensures r == AtomStep(st, tokens, line, parsers, table)
    ensures gen.Valid() && gen.counts == st.counts
    ensures r.Read? ==> r.state.atomMode && r.state.counts == st.counts && gen.produced == |r.state.rows|
  {
    var next := gen.Next();
    if next.None? {
      return Failed(StopIteration(line));
    }
    if |tokens| < 4 {
      return Failed(ValueError(line));
    }
    var xyz := ParseEach(parsers.toFloat, tokens[1..4]);
    var symbol := Capitalize(tokens[0]);
    if xyz.None? || symbol !in table.numberOf {
      return Failed(ValueError(line));
    }
    var position := Vec3(xyz.value[0], xyz.value[1], xyz.value[2]);
    r := Read(st.(rows := st.rows + [StruRow(next.value, table.numberOf[symbol], symbol,
                                             position, Relative(position, next.value))]));
  }

  datatype Result = Parsed(stru: Stru) | Error(error: StruError)
}
