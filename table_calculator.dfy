/**
 * `TableCalculator`: the spreadsheet. A `rows` by `cols` matrix of cells
 * (pandas' data frame read as a plain matrix), a title and the undo stack of
 * cell copies. `cols` is the instance's `COLUMNS`, 26 unless a loaded table
 * has another width. The matrix holds each cell's formula, seen value and
 * color; a cell setter called through `get_cell` replaces that cell's entry.
 */
module Spreadsheet {
  import opened Values
  import opened References
  import opened Calculation
  import opened Scheduling
  import opened Cells

  const DefaultTitle: string := "Baby Excel"
  const DefaultRows: nat := 40
  const Columns: nat := 26
  /** `add_row` stops adding once the table has this many rows. */
  const MaxRows: nat := 1000

  /** What a never-edited cell holds. */
  const BlankCell: CellRecord := CellRecord("", Blank, White)

  /** A grid of blank cells. */
  function BlankTable(rows: nat, cols: nat): (t: map<Location, CellRecord>)
    ensures t.Keys == GridLocs(rows, cols)
    ensures forall loc :: loc in t ==> t[loc] == BlankCell
  {
    map loc | loc in GridLocs(rows, cols) :: BlankCell
  }

  /** `m` has `rows` rows of `cols` cells each. */
  predicate Shaped(m: seq<seq<CellRecord>>, rows: nat, cols: nat)
  {
    |m| == rows && forall r :: 0 <= r < rows ==> |m[r]| == cols
  }

  /** The cells of a matrix by location: row `r`, column `c` is location `(r, c)`. */
  function Grid(m: seq<seq<CellRecord>>, cols: nat): (t: map<Location, CellRecord>)
    requires Shaped(m, |m|, cols)
    ensures t.Keys == GridLocs(|m|, cols)
  {
    map loc | loc in GridLocs(|m|, cols) :: m[loc.0][loc.1]
  }

  /** `m` with the cell at `loc` replaced by `v`. */
  function Put(m: seq<seq<CellRecord>>, cols: nat, loc: Location, v: CellRecord): (m': seq<seq<CellRecord>>)
    requires Shaped(m, |m|, cols) && InGrid(loc, |m|, cols)
    ensures Shaped(m', |m|, cols) && Grid(m', cols) == Grid(m, cols)[loc := v]
  {
    var m' := m[loc.0 := m[loc.0][loc.1 := v]];
    assert forall l :: l in Grid(m', cols) ==> Grid(m', cols)[l] == Grid(m, cols)[loc := v][l];
    m'
  }

  /**
   * `maxRow` and `maxCol` are what the first loop of `from_json` computes
   * from the keys of the loaded data: the largest row and the largest column
   * among them, each starting from 0.
   */
  ghost predicate Extent(keys: set<Location>, maxRow: int, maxCol: int)
  {
    && 0 <= maxRow && 0 <= maxCol
    && (forall k :: k in keys ==> k.0 <= maxRow && k.1 <= maxCol)
    && (maxRow == 0 || exists k :: k in keys && k.0 == maxRow)
    && (maxCol == 0 || exists k :: k in keys && k.1 == maxCol)
  }

  /** The extent of a set of keys is determined by the keys. */
  lemma ExtentUnique(keys: set<Location>, r1: int, c1: int, r2: int, c2: int)
    requires Extent(keys, r1, c1) && Extent(keys, r2, c2)
    ensures r1 == r2 && c1 == c2
  {
  }

  /** The keys of a `rows` by `cols` grid reach row `rows - 1` and column `cols - 1`. */
  lemma GridExtent(rows: nat, cols: nat)
    requires 1 <= rows && 1 <= cols
    ensures Extent(GridLocs(rows, cols), rows - 1, cols - 1)
  {
    assert (rows - 1, 0) in GridLocs(rows, cols);
    assert (0, cols - 1) in GridLocs(rows, cols);
  }

  /** Writing an entry and then writing back its old value leaves the map as it was. */
  lemma RestoreEntry<K, V>(m: map<K, V>, k: K, v: V)
    requires k in m
    ensures m[k := v][k := m[k]] == m
  {
  }

  /** Where `d` holds the references of a matrix's formulas, it holds them row by row. */
  lemma RowRefs(m: seq<seq<CellRecord>>, cols: nat, d: map<Location, seq<Location>>, row: nat)
    requires Shaped(m, |m|, cols) && row < |m| && RefsAgree(d, FormulasOf(Grid(m, cols)))
    ensures forall c :: 0 <= c < cols ==> (row, c) in d && d[(row, c)] == RefsOf(m[row][c].formula)
  {
    forall c | 0 <= c < cols
      ensures (row, c) in d && d[(row, c)] == RefsOf(m[row][c].formula)
    {
      assert FormulasOf(Grid(m, cols))[(row, c)] == m[row][c].formula;
    }
  }

  /** A matrix whose every cell is `Mark` of the same cell of `m` is `Marked` of `m`'s grid. */
  lemma MarkedGrid(m: seq<seq<CellRecord>>, m': seq<seq<CellRecord>>, cols: nat, d: map<Location, seq<Location>>, prev: seq<Location>)
    requires Shaped(m, |m|, cols) && Shaped(m', |m|, cols)
    requires forall r, c :: 0 <= r < |m| && 0 <= c < cols ==> m'[r][c] == Mark(d, prev, (r, c), m[r][c])
    ensures Grid(m', cols) == Marked(Grid(m, cols), d, prev)
  {
  }

  class TableCalculator {
    var title: string
    var rows: nat
    var cols: nat
    /** The data frame's cells, row by row. */
    var matrix: seq<seq<CellRecord>>
    /** `cell_states_stack`: copies of cells for the back button, newest last. */
    var stack: seq<Cell>

    ghost predicate Valid()
      reads this`rows, this`cols, this`matrix
    {
      1 <= rows && 1 <= cols && Shaped(matrix, rows, cols)
    }

    /** The formula, seen value and color of every grid cell, by location. */
    function Contents(): (t: map<Location, CellRecord>)
      reads this`rows, this`cols, this`matrix
      requires Valid()
      ensures t.Keys == GridLocs(rows, cols)
    {
      Grid(matrix, cols)
    }

    /**
     * `get_cell(location)`: what the cell at `location` holds; outside the
     * grid the data frame lookup raises `KeyError`.
     */
    function GetCell(loc: Location): (r: Result<CellRecord, PyError>)
      reads this`rows, this`cols, this`matrix
      requires Valid()
      ensures r.Success? <==> InGrid(loc, rows, cols)
      ensures r.Success? ==> r.value == Contents()[loc]
      ensures r.Failure? ==> r.error == KeyError
    {
      if InGrid(loc, rows, cols) then Success(matrix[loc.0][loc.1]) else Failure(KeyError)
    }

    /** The cell at `loc` takes the value `v`; every other cell stays. */
    method SetCell(loc: Location, v: CellRecord)
      requires Valid() && InGrid(loc, rows, cols)
      modifies this`matrix
      ensures Valid() && Contents() == old(Contents())[loc := v]
    {
      matrix := Put(matrix, cols, loc, v);
    }

    /** `initial_table()`: `rows` by `cols` blank cells. */
    static method InitialTable(rows: nat, cols: nat) returns (m: seq<seq<CellRecord>>)
      ensures Shaped(m, rows, cols) && Grid(m, cols) == BlankTable(rows, cols)
    {
      m := [];
      for i := 0 to rows
        invariant Shaped(m, i, cols)
        invariant forall r, c :: 0 <= r < i && 0 <= c < cols ==> m[r][c] == BlankCell
      {
        var mid: seq<CellRecord> := [];
        for j := 0 to cols
          invariant |mid| == j
          invariant forall c :: 0 <= c < j ==> mid[c] == BlankCell
        {
          mid := mid + [BlankCell];
        }
        m := m + [mid];
      }
    }

    /** `TableCalculator(title)`: a 40 by 26 grid of blank cells and an empty undo stack. */
    constructor (title: string := DefaultTitle)
      ensures Valid()
      ensures this.title == title && rows == DefaultRows && cols == Columns && stack == []
      ensures Contents() == BlankTable(rows, cols)
    {
      var m := InitialTable(DefaultRows, Columns);
      this.title := title;
      rows := DefaultRows;
      cols := Columns;
      matrix := m;
      stack := [];
    }

    /**
     * `add_row()`: below 1000 rows, one new row of blank cells is appended
     * and `rows` grows by one; existing cells stay as they are. At 1000 rows
     * nothing changes.
     */
    method AddRow()
      requires Valid()
      modifies this`rows, this`matrix
      ensures Valid()
      ensures old(rows) < MaxRows ==> rows == old(rows) + 1
      ensures old(rows) < MaxRows ==> forall loc :: loc in Contents() ==>
        Contents()[loc] == if loc.0 == old(rows) then BlankCell else old(Contents())[loc]
      ensures old(rows) >= MaxRows ==> rows == old(rows) && Contents() == old(Contents())
    {
      if |matrix| < MaxRows {
        var newRow: seq<CellRecord> := [];
        for i := 0 to |matrix[0]|
          invariant |newRow| == i
          invariant forall c :: 0 <= c < i ==> newRow[c] == BlankCell
        {
          newRow := newRow + [BlankCell];
        }
        matrix := matrix + [newRow];
        rows := rows + 1;
      }
    }

    /** `clear_all()`: a new blank grid of the same size, which is also returned. */
    method ClearAll() returns (m: seq<seq<CellRecord>>)
      requires Valid()
      modifies this`matrix
      ensures Valid() && m == matrix
      ensures Contents() == BlankTable(rows, cols)
    {
      m := InitialTable(rows, cols);
      matrix := m;
    }

    /**
     * `update_cell_seen_value(location, value)`: the cell's seen value is
     * replaced, nothing else changes; outside the grid `KeyError`.
     */
    method UpdateCellSeenValue(loc: Location, v: SeenValue) returns (err: Option<PyError>)
      requires Valid()
      modifies this`matrix
      ensures Valid()
      ensures err.Some? <==> !InGrid(loc, rows, cols)
      ensures err.Some? ==> err.value == KeyError && Contents() == old(Contents())
      ensures err.None? ==> Contents() == old(Contents())[loc := old(Contents())[loc].(seen := v)]
    {
      match GetCell(loc)
      case Failure(e) =>
        err := Some(e);
      case Success(cell) =>
        SetCell(loc, cell.(seen := v));
        err := None;
    }

    /**
     * `update_cell_formula(location, formula)`: the cell's formula is replaced,
     * nothing else changes; outside the grid `KeyError`.
     */
    method UpdateCellFormula(loc: Location, f: string) returns (err: Option<PyError>)
      requires Valid()
      modifies this`matrix
      ensures Valid()
      ensures err.Some? <==> !InGrid(loc, rows, cols)
      ensures err.Some? ==> err.value == KeyError && Contents() == old(Contents())
      ensures err.None? ==> Contents() == old(Contents())[loc := old(Contents())[loc].(formula := f)]
      ensures rows == old(rows) && cols == old(cols) && stack == old(stack)
    {
      match GetCell(loc)
      case Failure(e) =>
        err := Some(e);
      case Success(cell) =>
        SetCell(loc, cell.(formula := f));
        err := None;
    }

    /**
     * `update_table_with_color(location, color)`: the cell's color is
     * replaced, nothing else changes; outside the grid `KeyError`.
     */
    method UpdateTableWithColor(loc: Location, color: string) returns (err: Option<PyError>)
      requires Valid()
      modifies this`matrix
      ensures Valid()
      ensures err.Some? <==> !InGrid(loc, rows, cols)
      ensures err.Some? ==> err.value == KeyError && Contents() == old(Contents())
      ensures err.None? ==> Contents() == old(Contents())[loc := old(Contents())[loc].(color := color)]
    {
      match GetCell(loc)
      case Failure(e) =>
        err := Some(e);
      case Success(cell) =>
        SetCell(loc, cell.(color := color));
        err := None;
    }

    /**
     * `calculate_cell(location, formula)`: only the cell at `location`
     * changes, and only its seen value, which becomes what `CalcSeen` gives
     * the formula against the grid's seen values.
     */
    method CalculateCell(loc: Location, formula: string, eval: string -> EvalResult, fuel: nat)
      requires Valid() && InGrid(loc, rows, cols)
      modifies this`matrix
      ensures Valid()
      ensures Contents() == old(Contents())[loc := old(Contents())[loc].(seen := CalcSeen(SeenOf(old(Contents())), formula, eval, fuel))]
    {
      var v := CalcSeen(SeenOf(Contents()), formula, eval, fuel);
      SetCell(loc, matrix[loc.0][loc.1].(seen := v));
    }

    /**
     * `calculate_cells(locations)`: each listed cell in turn is calculated
     * from its own formula; the result is `CalcCells` of the grid.
     */
    method CalculateCells(locs: seq<Location>, eval: string -> EvalResult, fuel: nat)
      requires Valid()
      requires forall k :: 0 <= k < |locs| ==> InGrid(locs[k], rows, cols)
      modifies this`matrix
      ensures Valid()
      ensures Contents() == CalcCells(old(Contents()), locs, eval, fuel)
    {
      for i := 0 to |locs|
        invariant Valid()
        invariant Contents() == CalcCells(old(Contents()), locs[..i], eval, fuel)
      {
        var loc := locs[i];
        CalculateCell(loc, matrix[loc.0][loc.1].formula, eval, fuel);
        assert locs[..i + 1][..i] == locs[..i];
      }
      assert locs[..|locs|] == locs;
    }

    /**
     * The body of the nested loops of `get_current_level_deps` for the cell
     * at `loc`, which holds `cell`: a cell in `prev` is skipped; otherwise its
     * references are checked in order, and at the first one not in `prev`
     * the cell is set to `'Error'` and stays out of the level. `d[loc]` holds
     * the references of the cell's formula.
     */
    static method ScanCell(cell: CellRecord, loc: Location, prev: seq<Location>, ghost d: map<Location, seq<Location>>)
      returns (waiting: bool, cell': CellRecord)
      requires loc in d && d[loc] == RefsOf(cell.formula)
      ensures waiting == Waiting(d, prev, loc)
      ensures cell' == Mark(d, prev, loc, cell)
    {
      if loc in prev {
        return false, cell;
      }
      var deps := Dependencies(cell.formula);
      waiting, cell' := true, cell;
      var k := 0;
      while k < |deps|
        invariant 0 <= k <= |deps|
        invariant forall i :: 0 <= i < k ==> Coord(deps[i]) in prev
      {
        if Coord(deps[k]) !in prev {
          cell' := cell.(seen := Str(ErrorMarker));
          waiting := false;
          break;
        }
        k := k + 1;
      }
      ReadyMeansTokensPlaced(cell.formula, prev);
    }

    /**
     * The inner loop of `get_current_level_deps` over row `row`, whose cells
     * are `line`: the row's waiting cells, left to right, and the row as the
     * loop leaves it, each cell as `Mark` leaves it.
     */
    static method ScanRow(line: seq<CellRecord>, row: nat, prev: seq<Location>, ghost d: map<Location, seq<Location>>)
      returns (found: seq<Location>, line': seq<CellRecord>)
      requires forall c :: 0 <= c < |line| ==> (row, c) in d && d[(row, c)] == RefsOf(line[c].formula)
      ensures found == RowLevel(d, prev, row, |line|)
      ensures |line'| == |line| && forall c :: 0 <= c < |line| ==> line'[c] == Mark(d, prev, (row, c), line[c])
    {
      found, line' := [], [];
      for col := 0 to |line|
        invariant |line'| == col
        invariant found == RowLevel(d, prev, row, col)
        invariant forall c :: 0 <= c < col ==> line'[c] == Mark(d, prev, (row, c), line[c])
      {
        var waiting, cell := ScanCell(line[col], (row, col), prev, d);
        line' := line' + [cell];
        if waiting {
          found := found + [(row, col)];
        }
      }
    }

    /**
     * The nested loops of `get_current_level_deps` over the matrix `m`: the
     * level found against `prev`, and the matrix as the loops leave it. `d`
     * holds the references of the matrix's formulas.
     */
    static method ScanGrid(m: seq<seq<CellRecord>>, cols: nat, prev: seq<Location>, ghost d: map<Location, seq<Location>>)
      returns (current: seq<Location>, m': seq<seq<CellRecord>>)
      requires Shaped(m, |m|, cols) && RefsAgree(d, FormulasOf(Grid(m, cols)))
      ensures Shaped(m', |m|, cols)
      ensures current == Level(d, prev, |m|, cols)
      ensures forall r, c :: 0 <= r < |m| && 0 <= c < cols ==> m'[r][c] == Mark(d, prev, (r, c), m[r][c])
    {
      m', current := m, [];
      for row := 0 to |m|
        invariant Shaped(m', |m|, cols)
        invariant current == Level(d, prev, row, cols)
        invariant forall r, c :: 0 <= r < row && 0 <= c < cols ==> m'[r][c] == Mark(d, prev, (r, c), m[r][c])
        invariant forall r :: row <= r < |m| ==> m'[r] == m[r]
      {
        RowRefs(m, cols, d, row);
        var found, line := ScanRow(m[row], row, prev, d);
        m', current := m'[row := line], current + found;
      }
    }

    /**
     * `get_current_level_deps(previous)`: the grid cells, in row-major
     * order, that are not in `previous` and whose every reference is; each
     * other cell outside `previous` is set to `'Error'`. `d` holds the
     * references of the grid's formulas.
     */
    method GetCurrentLevelDeps(prev: seq<Location>, ghost d: map<Location, seq<Location>>) returns (current: seq<Location>)
      requires Valid() && RefsAgree(d, FormulasOf(Contents()))
      modifies this`matrix
      ensures Valid()
      ensures current == Level(d, prev, rows, cols)
      ensures Contents() == Marked(old(Contents()), d, prev)
    {
      var m;
      current, m := ScanGrid(matrix, cols, prev, d);
      MarkedGrid(matrix, m, cols, d, prev);
      matrix := m;
    }

    /**
     * `calculate_table(location, formula)`: the formula is stored, then the
     * grid is recalculated wave by wave (`Recalculate`): the grid becomes
     * `RunWaves` of the edited grid over the levels the scans find, until a
     * scan finds none; the waves are
     * non-empty and pairwise disjoint, lie in the grid, and reference only
     * cells of earlier waves (`WavesOk` over the references of the new
     * formulas), so no cell is calculated twice and there are at most
     * `rows * cols` waves; every cell left out of all waves shows `'Error'`.
     * Outside the grid `get_cell` raises `KeyError` before anything changes.
     */
    method CalculateTable(loc: Location, formula: string, eval: string -> EvalResult, fuel: nat)
      returns (err: Option<PyError>, ghost waves: seq<seq<Location>>)
      requires Valid()
      modifies this`matrix
      ensures Valid()
      ensures err.Some? <==> !InGrid(loc, rows, cols)
      ensures err.Some? ==> err.value == KeyError && Contents() == old(Contents()) && waves == []
      ensures err.None? ==> FormulasOf(Contents()) == FormulasOf(old(Contents()))[loc := formula]
      ensures ColorsOf(Contents()) == ColorsOf(old(Contents()))
      ensures rows == old(rows) && cols == old(cols) && stack == old(stack)
      ensures WavesOk(DepsOf(FormulasOf(Contents())), waves, rows, cols)
      ensures |waves| <= rows * cols
      ensures err.None? ==> Recalculated(old(Contents())[loc := old(Contents())[loc].(formula := formula)], waves, eval, fuel)
    {
      err := UpdateCellFormula(loc, formula);
      if err.Some? {
        NoWaves(DepsOf(FormulasOf(Contents())), rows, cols);
        return err, [];
      }
      FormulaUpdateLayout(old(Contents()), loc, formula);
      ghost var start := Contents();
      assert start == old(Contents())[loc := old(Contents())[loc].(formula := formula)];
      ghost var d := DepsOf(FormulasOf(start));
      AgreeIsDepsOf(d, FormulasOf(start));
      GridLocsCard(rows, cols);
      waves := Recalculate(eval, fuel, d);
      assert Recalculated(start, waves, eval, fuel);
    }

    /**
     * What `calculate_table` leaves once its formula is stored in `start`: the
     * waves are the levels the scans found, in order, the last scan found
     * none, the grid is `RunWaves` of `start` over them, and every cell never
     * placed shows `'Error'`.
     */
    ghost predicate Recalculated(start: map<Location, CellRecord>, waves: seq<seq<Location>>,
                                 eval: string -> EvalResult, fuel: nat)
      reads this`rows, this`cols, this`matrix
      requires Valid()
    {
      var d := DepsOf(FormulasOf(Contents()));
      && WavesOk(d, waves, rows, cols)
      && AreLevels(d, waves, rows, cols)
      && Level(d, Flatten(waves), rows, cols) == []
      && start.Keys == GridLocs(rows, cols)
      && Contents() == RunWaves(start, d, waves, eval, fuel)
      && forall l :: l in Contents() && l !in Flatten(waves) ==> Contents()[l].seen == Str(ErrorMarker)
    }

    /**
     * `a1` holding `=b1` and `b1` holding `=a1` reference each other: after
     * a recalculation neither is ever placed, so both show `'Error'`.
     */
    lemma MutualReferencesShowError(start: map<Location, CellRecord>, waves: seq<seq<Location>>,
                                    eval: string -> EvalResult, fuel: nat)
      requires Valid() && cols >= 2
      requires Recalculated(start, waves, eval, fuel)
      requires Contents()[(0, 0)].formula == "=b1" && Contents()[(0, 1)].formula == "=a1"
      ensures Contents()[(0, 0)].seen == Str(ErrorMarker) && Contents()[(0, 1)].seen == Str(ErrorMarker)
    {
      MutualReferencesNeverPlaced(FormulasOf(Contents()), waves);
    }

    /**
     * The loop of `calculate_table` after the formula is stored: levels are
     * found and calculated until a level comes out empty. The waves are the
     * levels found, in order, the last scan finds nothing more, and the grid
     * is what `RunWaves` gives for them. Formulas and colors stay; the waves
     * keep `WavesOk`, each places at least one more cell, and the cells never
     * placed show `'Error'`. `d` holds the references of the grid's formulas.
     */
    method Recalculate(eval: string -> EvalResult, fuel: nat, ghost d: map<Location, seq<Location>>)
      returns (ghost waves: seq<seq<Location>>)
      requires Valid() && RefsAgree(d, FormulasOf(Contents()))
      modifies this`matrix
      ensures Valid()
      ensures FormulasOf(Contents()) == FormulasOf(old(Contents())) && ColorsOf(Contents()) == ColorsOf(old(Contents()))
      ensures |waves| <= |GridLocs(rows, cols)|
      ensures rows == old(rows) && cols == old(cols) && stack == old(stack)
      ensures Recalculated(old(Contents()), waves, eval, fuel)
    {
      ghost var t0 := Contents();
      ghost var f := FormulasOf(Contents());
      ghost var c := ColorsOf(Contents());
      ghost var r, k, s := rows, cols, stack;
      ghost var size := |GridLocs(r, k)|;
      waves := [];
      var prev: seq<Location> := [];
      ghost var scanned := Contents();
      var current := GetCurrentLevelDeps(prev, d);
      assert rows == r && cols == k && stack == s;
      LoopStart(t0, d, f, c, size, eval, fuel, r, k);
      while |current| != 0
        invariant Valid() && rows == r && cols == k && stack == s
        invariant LoopState(t0, d, f, c, waves, prev, current, scanned, size, eval, fuel, r, k, Contents())
        decreases |Unplaced(waves, r, k)|
      {
        LoopStep(t0, d, f, c, waves, prev, current, scanned, size, eval, fuel, r, k, Contents());
        var prev', next;
        ghost var scanned';
        prev', next, scanned' := CalculateWave(current, prev, d, f, eval, fuel);
        waves, prev, current, scanned := waves + [current], prev', next, scanned';
      }
      LoopEnd(t0, d, f, c, waves, prev, scanned, size, eval, fuel, r, k, Contents());
    }

    /**
     * One turn of the loop of `calculate_table`: the wave's cells are
     * calculated in order (`scanned`, the grid the level scan then reads, is
     * `CalcCells` of the grid before), the wave joins `prev`, and the next
     * level is found against it and marked. The grid's size stays.
     */
    method CalculateWave(wave: seq<Location>, prev: seq<Location>, ghost d: map<Location, seq<Location>>,
                         ghost f: map<Location, string>, eval: string -> EvalResult, fuel: nat)
      returns (prev': seq<Location>, next: seq<Location>, ghost scanned: map<Location, CellRecord>)
      requires Valid() && FormulasOf(Contents()) == f && RefsAgree(d, f)
      requires forall l :: l in wave ==> InGrid(l, rows, cols)
      modifies this`matrix
      ensures Valid() && rows == old(rows) && cols == old(cols) && stack == old(stack)
      ensures prev' == prev + wave
      ensures next == Level(d, prev', rows, cols)
      ensures scanned == CalcCells(old(Contents()), wave, eval, fuel)
      ensures Contents() == Marked(scanned, d, prev')
    {
      assert forall k :: 0 <= k < |wave| ==> wave[k] in wave;
      CalculateCells(wave, eval, fuel);
      assert rows == old(rows) && cols == old(cols) && stack == old(stack);
      CalcCellsLayout(old(Contents()), wave, eval, fuel);
      prev' := prev + wave;
      scanned := Contents();
      next := GetCurrentLevelDeps(prev', d);
    }

    /**
     * `push_state(location)`: a copy of the cell at `location` goes on top of
     * the undo stack; the grid is not touched. Outside the grid `get_cell`
     * raises `KeyError` and the stack stays as it was.
     */
    method PushState(loc: Location) returns (err: Option<PyError>)
      requires Valid()
      modifies this`stack
      ensures Valid()
      ensures err.Some? <==> !InGrid(loc, rows, cols)
      ensures err.Some? ==> err.value == KeyError && stack == old(stack)
      ensures err.None? ==> |stack| == |old(stack)| + 1 && stack[..|old(stack)|] == old(stack)
      ensures err.None? ==> fresh(stack[|old(stack)|])
      ensures err.None? ==> stack[|old(stack)|].location == loc && stack[|old(stack)|].Record() == Contents()[loc]
    {
      match GetCell(loc)
      case Failure(e) =>
        err := Some(e);
      case Success(cell) =>
        // The grid holds cell values rather than `Cell` objects, so the copy
        // `copy_cell` would make is built here from the cell's four attributes.
        var copy := new Cell(loc, cell.formula, cell.seen, cell.color);
        stack := stack + [copy];
        err := None;
    }

    /**
     * `pop_last_state()`: with an empty stack nothing happens. Otherwise the
     * newest copy is removed and its formula is recalculated into the grid at
     * its location, as `calculate_table` does, with all that it promises (a
     * copy whose location lies outside the grid ends in `KeyError`, the grid
     * untouched).
     */
    method PopLastState(eval: string -> EvalResult, fuel: nat) returns (err: Option<PyError>, ghost waves: seq<seq<Location>>)
      requires Valid()
      modifies this`stack, this`matrix
      ensures Valid()
      ensures old(stack) == [] ==> stack == [] && err == None && Contents() == old(Contents()) && waves == []
      ensures old(stack) != [] ==> stack == old(stack[..|stack| - 1])
      ensures old(stack) != [] ==> (err.Some? <==> !InGrid(old(stack[|stack| - 1].location), rows, cols))
      ensures err.Some? ==> err.value == KeyError && Contents() == old(Contents())
      ensures old(stack) != [] && err.None? ==>
        FormulasOf(Contents()) == FormulasOf(old(Contents()))[old(stack[|stack| - 1].location) := old(stack[|stack| - 1].formula)]
      ensures ColorsOf(Contents()) == ColorsOf(old(Contents()))
      ensures rows == old(rows) && cols == old(cols)
      ensures WavesOk(DepsOf(FormulasOf(Contents())), waves, rows, cols)
      ensures old(stack) != [] && err.None? ==>
        Recalculated(old(Contents())[old(stack[|stack| - 1].location) :=
                       old(Contents())[old(stack[|stack| - 1].location)].(formula := old(stack[|stack| - 1].formula))],
                     waves, eval, fuel)
    {
      if |stack| == 0 {
        NoWaves(DepsOf(FormulasOf(Contents())), rows, cols);
        return None, [];
      }
      var top := stack[|stack| - 1];
      stack := stack[..|stack| - 1];
      err, waves := CalculateTable(top.location, top.formula, eval, fuel);
    }

    /**
     * The back button after an edit: the cell's state is pushed, a new
     * formula is calculated into it, and popping the state puts the old
     * formula back. Every formula is then as before, and so is the stack.
     */
    method EditThenUndo(loc: Location, formula: string, eval: string -> EvalResult, fuel: nat)
      requires Valid() && InGrid(loc, rows, cols)
      modifies this`stack, this`matrix
      ensures Valid() && stack == old(stack)
      ensures FormulasOf(Contents()) == FormulasOf(old(Contents())) && ColorsOf(Contents()) == ColorsOf(old(Contents()))
    {
      ghost var f0, c0, s0 := FormulasOf(Contents()), ColorsOf(Contents()), stack;
      ghost var before := Contents()[loc].formula;
      var pushed := PushState(loc);
      ghost var top := stack[|s0|];
      assert stack == s0 + [top];
      assert top.location == loc && top.formula == before;
      var edited, w1 := CalculateTable(loc, formula, eval, fuel);
      assert FormulasOf(Contents()) == f0[loc := formula] && ColorsOf(Contents()) == c0;
      assert stack[|stack| - 1] == top && stack[..|stack| - 1] == s0;
      var undone, w2 := PopLastState(eval, fuel);
      assert undone.None? && stack == s0;
      assert FormulasOf(Contents()) == f0[loc := formula][loc := before];
      RestoreEntry(f0, loc, formula);
    }

    /**
     * `to_json()`: the title and, for every grid position in row-major
     * order, the cell's formula, seen value and color under its location.
     */
    method ToJson() returns (t: string, data: map<Location, CellRecord>)
      requires Valid()
      ensures t == title && data == Contents()
    {
      data := map[];
      for i := 0 to |matrix|
        invariant data.Keys == GridLocs(i, cols)
        invariant forall loc :: loc in data ==> data[loc] == Contents()[loc]
      {
        for j := 0 to |matrix[0]|
          invariant data.Keys == GridLocs(i, cols) + RowLocs(i, j)
          invariant forall loc :: loc in data ==> data[loc] == Contents()[loc]
        {
          var cell := GetCell((i, j)).value;
          data := data[(i, j) := cell];
        }
        GridLocsSplit(i + 1, cols);
      }
      t := title;
    }

    /**
     * `from_json(data)`: the grid is rebuilt from loaded data. Its size comes
     * from the largest row and column among the keys (`Extent`); every
     * position of that size must be present. A missing one raises
     * `KeyError`, which the method's handler re-raises as a plain
     * `Exception`, with the table left as it was. Otherwise each position
     * holds the loaded formula, seen value and color.
     */
    method FromJson(data: map<Location, CellRecord>) returns (err: Option<PyError>)
      requires Valid()
      modifies this`rows, this`cols, this`matrix
      ensures Valid()
      ensures exists r, c :: Extent(data.Keys, r, c)
      ensures forall r, c :: Extent(data.Keys, r, c) ==> (err.None? <==> GridLocs(r + 1, c + 1) <= data.Keys)
      ensures err.Some? ==> err.value == BareException && rows == old(rows) && cols == old(cols) && matrix == old(matrix)
      ensures err.None? ==> Extent(data.Keys, rows - 1, cols - 1)
      ensures err.None? ==> forall loc :: loc in Contents() ==> Contents()[loc] == data[loc]
    {
      var maxRow, maxCol := 0, 0;
      var rest := data.Keys;
      while rest != {}
        invariant rest <= data.Keys
        invariant Extent(data.Keys - rest, maxRow, maxCol)
        decreases rest
      {
        var k :| k in rest;
        maxRow := if k.0 > maxRow then k.0 else maxRow;
        maxCol := if k.1 > maxCol then k.1 else maxCol;
        rest := rest - {k};
      }
      assert data.Keys - rest == data.Keys;
      forall r, c | Extent(data.Keys, r, c)
        ensures r == maxRow && c == maxCol
      {
        ExtentUnique(data.Keys, r, c, maxRow, maxCol);
      }
      var m: seq<seq<CellRecord>> := [];
      for i := 0 to maxRow + 1
        invariant Shaped(m, i, maxCol + 1)
        invariant forall r, c :: 0 <= r < i && 0 <= c <= maxCol ==> (r, c) in data && m[r][c] == data[(r, c)]
      {
        var mid: seq<CellRecord> := [];
        for j := 0 to maxCol + 1
          invariant |mid| == j
          invariant forall c :: 0 <= c < j ==> (i, c) in data && mid[c] == data[(i, c)]
        {
          if (i, j) !in data {
            assert (i, j) in GridLocs(maxRow + 1, maxCol + 1);
            return Some(BareException);
          }
          mid := mid + [data[(i, j)]];
        }
        m := m + [mid];
      }
      matrix := m;
      rows := maxRow + 1;
      cols := maxCol + 1;
      err := None;
    }

    /**
     * What `to_json` exports, `from_json` loads back: the same size and the
     * same formula, seen value and color in every cell.
     */
    method ExportThenLoad() returns (err: Option<PyError>)
      requires Valid()
      modifies this`rows, this`cols, this`matrix
      ensures Valid() && err == None
      ensures rows == old(rows) && cols == old(cols) && Contents() == old(Contents())
    {
      var t, data := ToJson();
      GridExtent(rows, cols);
      err := FromJson(data);
      ExtentUnique(data.Keys, rows - 1, cols - 1, old(rows) - 1, old(cols) - 1);
    }
  }
}
