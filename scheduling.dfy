/**
 * The wave order of `get_current_level_deps` and `calculate_table`, stated
 * over a snapshot of the grid (location to `[formula, seen value, color]`)
 * and the references of each cell, converted to locations (`d`, which
 * `RefsAgree` ties to the formulas). A cell joins the next wave once every
 * location its formula references is in an earlier wave; cells that are not
 * ready are marked `'Error'`.
 */
module Scheduling {
  import opened Values
  import opened References
  import opened Calculation

  predicate InGrid(loc: Location, rows: int, cols: int)
  {
    0 <= loc.0 < rows && 0 <= loc.1 < cols
  }

  function GridLocs(rows: nat, cols: nat): (s: set<Location>)
    ensures forall loc :: loc in s <==> InGrid(loc, rows, cols)
  {
    set r, c | 0 <= r < rows && 0 <= c < cols :: (r, c)
  }

  function RowLocs(r: int, cols: nat): (s: set<Location>)
    ensures forall loc :: loc in s <==> loc.0 == r && 0 <= loc.1 < cols
  {
    set c | 0 <= c < cols :: (r, c)
  }

  lemma {:induction false} RowLocsCard(r: int, cols: nat)
    ensures |RowLocs(r, cols)| == cols
  {
    if cols == 0 {
      assert RowLocs(r, 0) == {};
    } else {
      RowLocsCard(r, cols - 1);
      assert RowLocs(r, cols) == RowLocs(r, cols - 1) + {(r, cols - 1)};
    }
  }

  /** A grid of `rows` by `cols` has `rows * cols` locations. */
  lemma {:induction false} GridLocsCard(rows: nat, cols: nat)
    ensures |GridLocs(rows, cols)| == rows * cols
  {
    if rows == 0 {
      assert GridLocs(0, cols) == {};
    } else {
      var above := GridLocs(rows - 1, cols);
      var last := RowLocs(rows - 1, cols);
      GridLocsCard(rows - 1, cols);
      RowLocsCard(rows - 1, cols);
      GridLocsSplit(rows, cols);
      assert |above + last| == |above| + |last|;
      assert (rows - 1) * cols + cols == rows * cols;
    }
  }

  lemma GridLocsSplit(rows: nat, cols: nat)
    requires rows > 0
    ensures GridLocs(rows, cols) == GridLocs(rows - 1, cols) + RowLocs(rows - 1, cols)
    ensures GridLocs(rows - 1, cols) !! RowLocs(rows - 1, cols)
  {
    var all := GridLocs(rows, cols);
    var above := GridLocs(rows - 1, cols);
    var last := RowLocs(rows - 1, cols);
    forall loc ensures loc in all <==> loc in above || loc in last {
    }
    forall loc | loc in above ensures loc !in last {
    }
  }

  /**
   * The locations `formula` references: `convert_location_to_cord` of each
   * token `get_cell_dependencies` extracts, in order.
   */
  function RefsOf(formula: string): seq<Location>
  {
    var deps := Dependencies(formula);
    seq(|deps|, k requires 0 <= k < |deps| => Coord(deps[k]))
  }

  /** Every location of `refs` is in `prev`. */
  predicate Ready(refs: seq<Location>, prev: seq<Location>)
  {
    forall k :: 0 <= k < |refs| ==> refs[k] in prev
  }

  /**
   * A formula is ready exactly when the coordinates of every token extracted
   * from it are in `prev`.
   */
  lemma ReadyMeansTokensPlaced(formula: string, prev: seq<Location>)
    ensures Ready(RefsOf(formula), prev) <==>
      forall k :: 0 <= k < |Dependencies(formula)| ==> Coord(Dependencies(formula)[k]) in prev
  {
    var deps := Dependencies(formula);
    var refs := RefsOf(formula);
    assert |refs| == |deps|;
    assert forall k :: 0 <= k < |deps| ==> refs[k] == Coord(deps[k]);
  }

  /** The references of every formula of a grid. */
  function DepsOf(f: map<Location, string>): (d: map<Location, seq<Location>>)
    ensures d.Keys == f.Keys
  {
    map loc | loc in f :: RefsOf(f[loc])
  }

  /**
   * `d` holds the references of the formulas `f`. The quantifier fires only
   * where a formula's references are asked for.
   */
  predicate RefsAgree(d: map<Location, seq<Location>>, f: map<Location, string>)
  {
    d.Keys == f.Keys && forall loc {:trigger RefsOf(f[loc])} :: loc in f ==> d[loc] == RefsOf(f[loc])
  }

  lemma AgreeIsDepsOf(d: map<Location, seq<Location>>, f: map<Location, string>)
    ensures RefsAgree(d, f) <==> d == DepsOf(f)
  {
    if RefsAgree(d, f) {
      forall loc | loc in f ensures d[loc] == DepsOf(f)[loc] {
        assert DepsOf(f)[loc] == RefsOf(f[loc]);
      }
    }
  }

  /** The formulas of a grid snapshot. */
  function FormulasOf(t: map<Location, CellRecord>): (f: map<Location, string>)
    ensures f.Keys == t.Keys
    ensures forall loc :: loc in t ==> f[loc] == t[loc].formula
  {
    map loc | loc in t :: t[loc].formula
  }

  /** The colors of a grid snapshot. */
  function ColorsOf(t: map<Location, CellRecord>): (colors: map<Location, string>)
    ensures colors.Keys == t.Keys
    ensures forall loc :: loc in t ==> colors[loc] == t[loc].color
  {
    map loc | loc in t :: t[loc].color
  }

  /** A cell that belongs to the next wave: not yet placed, and ready. */
  predicate Waiting(d: map<Location, seq<Location>>, prev: seq<Location>, loc: Location)
  {
    loc in d && loc !in prev && Ready(d[loc], prev)
  }

  /** Row-major order, the order of the two nested loops. */
  predicate RowMajorBefore(a: Location, b: Location)
  {
    a.0 < b.0 || (a.0 == b.0 && a.1 < b.1)
  }

  /** The waiting cells of row `r`, columns `0 .. c - 1`, left to right. */
  function RowLevel(d: map<Location, seq<Location>>, prev: seq<Location>, r: int, c: nat): seq<Location>
  {
    if c == 0 then []
    else RowLevel(d, prev, r, c - 1) + (if Waiting(d, prev, (r, c - 1)) then [(r, c - 1)] else [])
  }

  /** The waiting cells of rows `0 .. r - 1`, in row-major order: the list `get_current_level_deps` returns. */
  function Level(d: map<Location, seq<Location>>, prev: seq<Location>, r: nat, cols: nat): seq<Location>
  {
    if r == 0 then [] else Level(d, prev, r - 1, cols) + RowLevel(d, prev, r - 1, cols)
  }

  lemma {:induction false} RowLevelShape(d: map<Location, seq<Location>>, prev: seq<Location>, r: int, c: nat)
    ensures forall loc :: loc in RowLevel(d, prev, r, c) <==> loc.0 == r && 0 <= loc.1 < c && Waiting(d, prev, loc)
    ensures forall i, j :: 0 <= i < j < |RowLevel(d, prev, r, c)| ==>
      RowMajorBefore(RowLevel(d, prev, r, c)[i], RowLevel(d, prev, r, c)[j])
  {
    if c > 0 {
      RowLevelShape(d, prev, r, c - 1);
    }
  }

  /**
   * A location is in the level exactly when it lies in the grid, is not yet
   * placed and is ready; the level lists each such location once, in
   * row-major order.
   */
  lemma {:induction false} LevelShape(d: map<Location, seq<Location>>, prev: seq<Location>, r: nat, cols: nat)
    ensures forall loc :: loc in Level(d, prev, r, cols) <==> InGrid(loc, r, cols) && Waiting(d, prev, loc)
    ensures forall i, j :: 0 <= i < j < |Level(d, prev, r, cols)| ==>
      RowMajorBefore(Level(d, prev, r, cols)[i], Level(d, prev, r, cols)[j])
  {
    if r > 0 {
      LevelShape(d, prev, r - 1, cols);
      RowLevelShape(d, prev, r - 1, cols);
      var a := Level(d, prev, r - 1, cols);
      var b := RowLevel(d, prev, r - 1, cols);
      forall i, j | 0 <= i < j < |a + b| ensures RowMajorBefore((a + b)[i], (a + b)[j]) {
        if j >= |a| && i < |a| {
          assert a[i] in a && b[j - |a|] in b;
        }
      }
    }
  }

  /** No location occurs twice. */
  predicate Distinct(s: seq<Location>)
  {
    forall i, j :: 0 <= i < j < |s| ==> s[i] != s[j]
  }

  /**
   * What the nested loops leave in the grid: every cell not in `prev` whose
   * references are not all in `prev` shows `'Error'`; nothing else changes.
   */
  function Marked(t: map<Location, CellRecord>, d: map<Location, seq<Location>>, prev: seq<Location>): (after: map<Location, CellRecord>)
    ensures after.Keys == t.Keys
  {
    map loc | loc in t :: Mark(d, prev, loc, t[loc])
  }

  /** What the nested loops leave in the cell at `loc`, which held `cell`. */
  function Mark(d: map<Location, seq<Location>>, prev: seq<Location>, loc: Location, cell: CellRecord): CellRecord
  {
    if loc !in prev && !Waiting(d, prev, loc) then cell.(seen := Str(ErrorMarker)) else cell
  }

  /** The waves of a run, one after the other: the list `previous_level_deps`. */
  function Flatten(waves: seq<seq<Location>>): seq<Location>
  {
    if |waves| == 0 then [] else Flatten(waves[..|waves| - 1]) + waves[|waves| - 1]
  }

  lemma FlattenAppend(waves: seq<seq<Location>>, w: seq<Location>)
    ensures Flatten(waves + [w]) == Flatten(waves) + w
  {
    assert (waves + [w])[..|waves|] == waves;
  }

  /**
   * Once a level comes back empty, every grid cell outside `prev` is one
   * whose references are not all in `prev`, so `Marked` gives it `'Error'`.
   */
  lemma EmptyLevelMarksRest(t: map<Location, CellRecord>, d: map<Location, seq<Location>>, prev: seq<Location>, rows: nat, cols: nat)
    requires t.Keys == GridLocs(rows, cols)
    requires Level(d, prev, rows, cols) == []
    ensures forall loc :: loc in t && loc !in prev ==> Marked(t, d, prev)[loc].seen == Str(ErrorMarker)
  {
    LevelShape(d, prev, rows, cols);
  }

  /** Marking changes seen values only. */
  lemma MarkedKeepsFormulas(t: map<Location, CellRecord>, d: map<Location, seq<Location>>, prev: seq<Location>)
    ensures FormulasOf(Marked(t, d, prev)) == FormulasOf(t)
    ensures ColorsOf(Marked(t, d, prev)) == ColorsOf(t)
  {
  }

  /** Two snapshots with the same cells, formulas and colors have the same layout. */
  lemma SameLayout(a: map<Location, CellRecord>, b: map<Location, CellRecord>)
    requires a.Keys == b.Keys
    requires forall loc :: loc in a ==> a[loc].formula == b[loc].formula && a[loc].color == b[loc].color
    ensures FormulasOf(a) == FormulasOf(b) && ColorsOf(a) == ColorsOf(b)
  {
  }

  /** Storing a formula changes the formulas at that location only, and no color. */
  lemma FormulaUpdateLayout(t: map<Location, CellRecord>, loc: Location, formula: string)
    requires loc in t
    ensures FormulasOf(t[loc := t[loc].(formula := formula)]) == FormulasOf(t)[loc := formula]
    ensures ColorsOf(t[loc := t[loc].(formula := formula)]) == ColorsOf(t)
  {
  }

  /** The locations of a list, as a set. */
  function SetOf(s: seq<Location>): set<Location>
  {
    set loc | loc in s
  }

  /**
   * Each wave's cells reference only locations of earlier waves.
   */
  predicate WavesReady(d: map<Location, seq<Location>>, waves: seq<seq<Location>>)
  {
    forall i, l :: 0 <= i < |waves| && l in waves[i] ==> l in d && Ready(d[l], Flatten(waves[..i]))
  }

  /**
   * The waves of a run so far: none is empty, no cell occurs twice, all are
   * in the grid, and each wave only references earlier waves.
   */
  predicate WavesOk(d: map<Location, seq<Location>>, waves: seq<seq<Location>>, rows: nat, cols: nat)
  {
    && (forall i :: 0 <= i < |waves| ==> waves[i] != [])
    && Distinct(Flatten(waves))
    && (forall l :: l in Flatten(waves) ==> InGrid(l, rows, cols))
    && WavesReady(d, waves)
  }

  /** The grid cells not yet in any wave. */
  function Unplaced(waves: seq<seq<Location>>, rows: nat, cols: nat): set<Location>
  {
    GridLocs(rows, cols) - SetOf(Flatten(waves))
  }

  /**
   * A non-empty level added as the next wave keeps the waves' properties and
   * places at least one more cell, so the number of waves plus the number of
   * unplaced cells never exceeds the grid size.
   */
  lemma NewWave(d: map<Location, seq<Location>>, waves: seq<seq<Location>>, current: seq<Location>, rows: nat, cols: nat, size: nat)
    requires WavesOk(d, waves, rows, cols)
    requires |waves| + |Unplaced(waves, rows, cols)| <= size
    requires current == Level(d, Flatten(waves), rows, cols) && current != []
    ensures Flatten(waves + [current]) == Flatten(waves) + current
    ensures WavesOk(d, waves + [current], rows, cols)
    ensures |Unplaced(waves + [current], rows, cols)| < |Unplaced(waves, rows, cols)|
    ensures |waves + [current]| + |Unplaced(waves + [current], rows, cols)| <= size
  {
    var prev := Flatten(waves);
    FlattenAppend(waves, current);
    LevelShape(d, prev, rows, cols);
    NewWaveDistinct(prev, current, rows, cols);
    NewWaveReady(d, waves, current);
    NewWaveUnplaced(waves, current, rows, cols);
  }

  lemma NewWaveDistinct(prev: seq<Location>, current: seq<Location>, rows: nat, cols: nat)
    requires Distinct(prev) && forall l :: l in prev ==> InGrid(l, rows, cols)
    requires forall l :: l in current ==> InGrid(l, rows, cols) && l !in prev
    requires forall i, j :: 0 <= i < j < |current| ==> RowMajorBefore(current[i], current[j])
    ensures Distinct(prev + current)
    ensures forall l :: l in prev + current ==> InGrid(l, rows, cols)
  {
    var all := prev + current;
    forall i, j | 0 <= i < j < |all| ensures all[i] != all[j] {
      if j < |prev| {
      } else if i < |prev| {
        assert all[j] == current[j - |prev|] && all[j] in current;
      } else {
        assert RowMajorBefore(current[i - |prev|], current[j - |prev|]);
      }
    }
  }

  lemma NewWaveReady(d: map<Location, seq<Location>>, waves: seq<seq<Location>>, current: seq<Location>)
    requires WavesReady(d, waves)
    requires forall l :: l in current ==> Waiting(d, Flatten(waves), l)
    ensures WavesReady(d, waves + [current])
  {
    var next := waves + [current];
    forall i, l | 0 <= i < |next| && l in next[i] ensures l in d && Ready(d[l], Flatten(next[..i])) {
      if i < |waves| {
        assert next[..i] == waves[..i];
      } else {
        assert next[..i] == waves;
      }
    }
  }

  lemma NewWaveUnplaced(waves: seq<seq<Location>>, current: seq<Location>, rows: nat, cols: nat)
    requires Flatten(waves + [current]) == Flatten(waves) + current
    requires current != [] && InGrid(current[0], rows, cols) && current[0] !in Flatten(waves)
    ensures |Unplaced(waves + [current], rows, cols)| < |Unplaced(waves, rows, cols)|
  {
    var before := Unplaced(waves, rows, cols);
    var placed := SetOf(current);
    assert SetOf(Flatten(waves) + current) == SetOf(Flatten(waves)) + placed;
    assert Unplaced(waves + [current], rows, cols) == before - placed;
    assert current[0] in before && current[0] in placed;
    RemovingShrinks(before, placed, current[0]);
  }

  /** Taking away a set that shares an element with `a` leaves fewer elements. */
  lemma RemovingShrinks<T>(a: set<T>, b: set<T>, x: T)
    requires x in a && x in b
    ensures |a - b| < |a|
  {
    assert x in a * b;
    assert |a - b| + |a * b| == |a|;
  }

  /** Before the first wave every grid cell is unplaced. */
  lemma NoWaves(d: map<Location, seq<Location>>, rows: nat, cols: nat)
    ensures WavesOk(d, [], rows, cols)
    ensures Unplaced([], rows, cols) == GridLocs(rows, cols)
  {
  }

  /** Each wave is the level the scan finds against the waves before it. */
  predicate AreLevels(d: map<Location, seq<Location>>, waves: seq<seq<Location>>, rows: nat, cols: nat)
  {
    forall i :: 0 <= i < |waves| ==> waves[i] == Level(d, Flatten(waves[..i]), rows, cols)
  }

  /** The level found against all waves so far, added as the next wave, keeps the waves levels. */
  lemma LevelsAppend(d: map<Location, seq<Location>>, waves: seq<seq<Location>>, current: seq<Location>, rows: nat, cols: nat)
    requires AreLevels(d, waves, rows, cols)
    requires current == Level(d, Flatten(waves), rows, cols)
    ensures AreLevels(d, waves + [current], rows, cols)
  {
    var next := waves + [current];
    forall i | 0 <= i < |next| ensures next[i] == Level(d, Flatten(next[..i]), rows, cols) {
      if i < |waves| {
        assert next[..i] == waves[..i];
      } else {
        assert next[..i] == waves;
      }
    }
  }

  /** Every location a placed cell references is placed too. */
  lemma {:induction false} PlacedRefsPlaced(d: map<Location, seq<Location>>, waves: seq<seq<Location>>, l: Location)
    requires WavesReady(d, waves) && l in Flatten(waves)
    ensures l in d && forall k :: 0 <= k < |d[l]| ==> d[l][k] in Flatten(waves)
    decreases |waves|
  {
    var init := waves[..|waves| - 1];
    var w := waves[|waves| - 1];
    assert Flatten(waves) == Flatten(init) + w;
    if l in Flatten(init) {
      forall i, x | 0 <= i < |init| && x in init[i] ensures x in d && Ready(d[x], Flatten(init[..i])) {
        assert init[i] == waves[i] && init[..i] == waves[..i];
      }
      PlacedRefsPlaced(d, init, l);
    } else {
      assert waves[..|waves| - 1] == init;
    }
  }

  /**
   * A cell that references a location outside the grid (a column past the
   * last, a row past the last, or row -1 from `a0`) is never placed, so it
   * ends showing `'Error'`.
   */
  lemma OutsideReferenceNeverPlaced(d: map<Location, seq<Location>>, waves: seq<seq<Location>>, rows: nat, cols: nat, l: Location, k: nat)
    requires WavesOk(d, waves, rows, cols)
    requires l in d && k < |d[l]| && !InGrid(d[l][k], rows, cols)
    ensures l !in Flatten(waves)
  {
    if l in Flatten(waves) {
      PlacedRefsPlaced(d, waves, l);
    }
  }

  /**
   * Cells that each reference some cell of the same set (a cell referencing
   * itself, two cells referencing each other, any longer cycle) are never
   * placed: there is no cycle guard, they simply never become ready.
   */
  lemma {:induction false} CycleNeverPlaced(d: map<Location, seq<Location>>, waves: seq<seq<Location>>, cycle: set<Location>)
    requires WavesReady(d, waves)
    requires forall l :: l in cycle ==> l in d && exists k :: 0 <= k < |d[l]| && d[l][k] in cycle
    ensures forall l :: l in cycle ==> l !in Flatten(waves)
    decreases |waves|
  {
    if |waves| > 0 {
      var init := waves[..|waves| - 1];
      var w := waves[|waves| - 1];
      forall i, x | 0 <= i < |init| && x in init[i] ensures x in d && Ready(d[x], Flatten(init[..i])) {
        assert init[i] == waves[i] && init[..i] == waves[..i];
      }
      CycleNeverPlaced(d, init, cycle);
      assert Flatten(waves) == Flatten(init) + w;
      assert waves[..|waves| - 1] == init;
    }
  }

  /** Calculating cells changes seen values only: formulas and colors stay. */
  lemma CalcCellsLayout(t: map<Location, CellRecord>, locs: seq<Location>, eval: string -> EvalResult, fuel: nat)
    requires forall l :: l in locs ==> l in t
    ensures FormulasOf(CalcCells(t, locs, eval, fuel)) == FormulasOf(t)
    ensures ColorsOf(CalcCells(t, locs, eval, fuel)) == ColorsOf(t)
  {
    CalcCellsFrame(t, locs, eval, fuel);
    SameLayout(t, CalcCells(t, locs, eval, fuel));
  }

  /**
   * The grid a run of `calculate_table`'s loop leaves, starting from `t`:
   * the first scan marks against no placed cell, then each wave in turn is
   * calculated (`CalcCells`) and the next scan marks against all waves so
   * far.
   */
  function RunWaves(t: map<Location, CellRecord>, d: map<Location, seq<Location>>, waves: seq<seq<Location>>,
                    eval: string -> EvalResult, fuel: nat): (after: map<Location, CellRecord>)
    requires forall l :: l in Flatten(waves) ==> l in t
    ensures after.Keys == t.Keys
    decreases |waves|
  {
    if |waves| == 0 then Marked(t, d, [])
    else
      var init := waves[..|waves| - 1];
      var w := waves[|waves| - 1];
      var before := RunWaves(t, d, init, eval, fuel);
      Marked(CalcCells(before, w, eval, fuel), d, Flatten(waves))
  }

  /** One more wave: it is calculated on the grid the earlier waves left, and the grid is marked against all of them. */
  lemma RunWavesStep(t: map<Location, CellRecord>, d: map<Location, seq<Location>>, waves: seq<seq<Location>>,
                     w: seq<Location>, eval: string -> EvalResult, fuel: nat)
    requires forall l :: l in Flatten(waves) ==> l in t
    requires forall l :: l in Flatten(waves + [w]) ==> l in t
    ensures forall k :: 0 <= k < |w| ==> w[k] in RunWaves(t, d, waves, eval, fuel)
    ensures RunWaves(t, d, waves + [w], eval, fuel) ==
      Marked(CalcCells(RunWaves(t, d, waves, eval, fuel), w, eval, fuel), d, Flatten(waves) + w)
  {
    assert (waves + [w])[..|waves|] == waves;
    FlattenAppend(waves, w);
  }

  /**
   * The scheduling half of the state of `calculate_table`'s loop: `prev` is
   * the waves so far one after the other, each the level found against the
   * ones before, they keep `WavesOk` and number at most `size` minus the
   * cells still unplaced, and `current` is the level found against `prev`.
   */
  ghost predicate ScheduleState(d: map<Location, seq<Location>>, waves: seq<seq<Location>>,
                                prev: seq<Location>, current: seq<Location>, size: nat, rows: nat, cols: nat)
  {
    && prev == Flatten(waves)
    && WavesOk(d, waves, rows, cols)
    && AreLevels(d, waves, rows, cols)
    && |waves| + |Unplaced(waves, rows, cols)| <= size
    && current == Level(d, prev, rows, cols)
  }

  /** A non-empty level is the next wave, and fewer cells stay unplaced. */
  lemma ScheduleStep(d: map<Location, seq<Location>>, waves: seq<seq<Location>>,
                     prev: seq<Location>, current: seq<Location>, size: nat, rows: nat, cols: nat)
    requires ScheduleState(d, waves, prev, current, size, rows, cols) && current != []
    ensures forall l :: l in current ==> InGrid(l, rows, cols)
    ensures ScheduleState(d, waves + [current], prev + current, Level(d, prev + current, rows, cols), size, rows, cols)
    ensures |Unplaced(waves + [current], rows, cols)| < |Unplaced(waves, rows, cols)|
  {
    LevelShape(d, prev, rows, cols);
    NewWave(d, waves, current, rows, cols, size);
    LevelsAppend(d, waves, current, rows, cols);
  }

  /**
   * The grid half of the loop's state, started on the grid `t0`, the grid
   * now being `now`: formulas `f` and colors `c` as stored, `d` their
   * references, `now` what `RunWaves` gives for the waves so far and what
   * `Marked` left of the snapshot `scanned` that the last level scan read.
   */
  ghost predicate GridState(t0: map<Location, CellRecord>, d: map<Location, seq<Location>>,
                            f: map<Location, string>, c: map<Location, string>,
                            waves: seq<seq<Location>>, prev: seq<Location>,
                            scanned: map<Location, CellRecord>, eval: string -> EvalResult, fuel: nat,
                            rows: nat, cols: nat, now: map<Location, CellRecord>)
  {
    && now.Keys == GridLocs(rows, cols) && t0.Keys == GridLocs(rows, cols)
    && FormulasOf(now) == f && ColorsOf(now) == c && RefsAgree(d, f)
    && FormulasOf(scanned) == f && scanned.Keys == GridLocs(rows, cols)
    && now == Marked(scanned, d, prev)
    && (forall l :: l in Flatten(waves) ==> l in t0)
    && now == RunWaves(t0, d, waves, eval, fuel)
  }

  /** Calculating the next wave and scanning again keeps the grid half. */
  lemma GridStep(t0: map<Location, CellRecord>, d: map<Location, seq<Location>>,
                 f: map<Location, string>, c: map<Location, string>,
                 waves: seq<seq<Location>>, prev: seq<Location>, current: seq<Location>,
                 scanned: map<Location, CellRecord>, eval: string -> EvalResult, fuel: nat,
                 rows: nat, cols: nat, before: map<Location, CellRecord>)
    requires GridState(t0, d, f, c, waves, prev, scanned, eval, fuel, rows, cols, before)
    requires prev == Flatten(waves) && forall l :: l in current ==> InGrid(l, rows, cols)
    ensures GridState(t0, d, f, c, waves + [current], prev + current, CalcCells(before, current, eval, fuel),
                      eval, fuel, rows, cols, Marked(CalcCells(before, current, eval, fuel), d, prev + current))
  {
    var scanned' := CalcCells(before, current, eval, fuel);
    CalcCellsLayout(before, current, eval, fuel);
    CalcCellsFrame(before, current, eval, fuel);
    MarkedKeepsFormulas(scanned', d, prev + current);
    FlattenAppend(waves, current);
    RunWavesStep(t0, d, waves, current, eval, fuel);
  }

  /** The state of `calculate_table`'s loop: both halves. */
  ghost predicate LoopState(t0: map<Location, CellRecord>, d: map<Location, seq<Location>>,
                            f: map<Location, string>, c: map<Location, string>,
                            waves: seq<seq<Location>>, prev: seq<Location>, current: seq<Location>,
                            scanned: map<Location, CellRecord>, size: nat, eval: string -> EvalResult, fuel: nat,
                            rows: nat, cols: nat, now: map<Location, CellRecord>)
  {
    && ScheduleState(d, waves, prev, current, size, rows, cols)
    && GridState(t0, d, f, c, waves, prev, scanned, eval, fuel, rows, cols, now)
  }

  /**
   * One turn of the loop keeps its state: the non-empty level `current`,
   * calculated on `before` and followed by the next scan, is the next wave,
   * and fewer cells stay unplaced.
   */
  lemma LoopStep(t0: map<Location, CellRecord>, d: map<Location, seq<Location>>,
                 f: map<Location, string>, c: map<Location, string>,
                 waves: seq<seq<Location>>, prev: seq<Location>, current: seq<Location>,
                 scanned: map<Location, CellRecord>, size: nat, eval: string -> EvalResult, fuel: nat,
                 rows: nat, cols: nat, before: map<Location, CellRecord>)
    requires LoopState(t0, d, f, c, waves, prev, current, scanned, size, eval, fuel, rows, cols, before)
    requires current != []
    ensures forall l :: l in current ==> InGrid(l, rows, cols)
    ensures LoopState(t0, d, f, c, waves + [current], prev + current, Level(d, prev + current, rows, cols),
                      CalcCells(before, current, eval, fuel), size, eval, fuel, rows, cols,
                      Marked(CalcCells(before, current, eval, fuel), d, prev + current))
    ensures |Unplaced(waves + [current], rows, cols)| < |Unplaced(waves, rows, cols)|
  {
    ScheduleStep(d, waves, prev, current, size, rows, cols);
    GridStep(t0, d, f, c, waves, prev, current, scanned, eval, fuel, rows, cols, before);
  }

  /** The first scan, against no placed cell, starts the loop's state. */
  lemma LoopStart(t0: map<Location, CellRecord>, d: map<Location, seq<Location>>,
                  f: map<Location, string>, c: map<Location, string>, size: nat,
                  eval: string -> EvalResult, fuel: nat, rows: nat, cols: nat)
    requires t0.Keys == GridLocs(rows, cols) && size == |GridLocs(rows, cols)|
    requires f == FormulasOf(t0) && c == ColorsOf(t0) && RefsAgree(d, f)
    ensures LoopState(t0, d, f, c, [], [], Level(d, [], rows, cols), t0, size, eval, fuel, rows, cols, Marked(t0, d, []))
  {
    NoWaves(d, rows, cols);
    MarkedKeepsFormulas(t0, d, []);
    assert Flatten([]) == [];
    assert RunWaves(t0, d, [], eval, fuel) == Marked(t0, d, []);
  }

  /**
   * When the scan finds an empty level the loop stops: the waves are all the
   * levels there are, no more of them than grid cells, `d` is the references
   * of the stored formulas, and every cell never placed shows `'Error'`.
   */
  lemma LoopEnd(t0: map<Location, CellRecord>, d: map<Location, seq<Location>>,
                f: map<Location, string>, c: map<Location, string>,
                waves: seq<seq<Location>>, prev: seq<Location>,
                scanned: map<Location, CellRecord>, size: nat, eval: string -> EvalResult, fuel: nat,
                rows: nat, cols: nat, now: map<Location, CellRecord>)
    requires LoopState(t0, d, f, c, waves, prev, [], scanned, size, eval, fuel, rows, cols, now)
    ensures |waves| <= size && Level(d, Flatten(waves), rows, cols) == []
    ensures d == DepsOf(FormulasOf(now))
    ensures forall l :: l in now && l !in Flatten(waves) ==> now[l].seen == Str(ErrorMarker)
  {
    EmptyLevelMarksRest(scanned, d, prev, rows, cols);
    AgreeIsDepsOf(d, f);
  }

  /** `=b1` references `b1`, which is `(0, 1)`; `=a1` references `(0, 0)`. */
  lemma MutualReferenceRefs()
    ensures RefsOf("=b1") == [(0, 1)] && RefsOf("=a1") == [(0, 0)]
  {
    SingleReference((0, 1));
    SingleReference((0, 0));
    CoordOfRef((0, 1));
    CoordOfRef((0, 0));
    assert RefOf((0, 1)) == "b1" && RefOf((0, 0)) == "a1";
  }

  /**
   * With `a1` holding `=b1` and `b1` holding `=a1`, neither cell is ever
   * placed in a wave.
   */
  lemma MutualReferencesNeverPlaced(f: map<Location, string>, waves: seq<seq<Location>>)
    requires WavesReady(DepsOf(f), waves)
    requires (0, 0) in f && (0, 1) in f && f[(0, 0)] == "=b1" && f[(0, 1)] == "=a1"
    ensures (0, 0) !in Flatten(waves) && (0, 1) !in Flatten(waves)
  {
    var d := DepsOf(f);
    MutualReferenceRefs();
    var cycle := {(0, 0), (0, 1)};
    assert d[(0, 0)][0] in cycle && d[(0, 1)][0] in cycle;
    CycleNeverPlaced(d, waves, cycle);
  }
}
