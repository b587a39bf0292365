# Baby Excel calculation core, in Dafny

This project models the calculation engine of a small spreadsheet. The engine has three parts:

- a grid of cells, 40 rows by 26 columns to start with, growing by whole rows up to 1000;
- a per-cell calculation of a formula;
- a recalculation of the whole grid in dependency "waves" after every edit.

## What each cell holds

Every cell holds three things:

- a **formula**, the text the user typed;
- a **seen value**, what the cell displays;
- a **color**.

A formula that does not start with `=` is shown as it is. A formula that starts with `=` goes through these steps:

1. It is lower-cased.
2. Its references (one letter and one to three digits, such as `b12`, bounded by non-word characters) are found.
3. The resolver looks at them:
   - with no reference, the text is the result;
   - with exactly one reference in a text of at most four characters (such as `=b12`), the result is that cell's seen value as it stands, not resolved any further: if `a1` holds the literal `b2`, `=a1` resolves to `b2`; an empty cell gives the integer `0`;
   - otherwise each reference is replaced, by plain text replacement, with the seen value of the cell it names (an empty cell counts as `0`), and the resolver starts again on the new text. Nothing guards against cycles; a formula that resolves to itself ends in Python's recursion error.
4. A resolved text without any digit is never evaluated. It is rejected as a syntax error when a letter stands next to `+`, `-`, `*` or `/`, or when the lower-cased formula holds a prohibited operator; otherwise it is stored as it is.
5. For any other text, a prohibited operator in the lower-cased formula is a syntax error, and one in the resolved text makes that text the seen value.
6. Only a resolved text that starts with `=` is handed, without the `=`, to an expression evaluator, whose result is stored. Any other resolved text is stored as it is: if `a1` holds the literal `2+3`, `=a1` shows `2+3`, not `5`. The integer `0` from step 3 skips steps 4 to 6 and is stored.

Every `Exception` raised on the way ends up in the cell as a fixed marker text, for example `ZeroDivision Error` or `Error`. Exceptions outside that hierarchy, such as `SystemExit` and `KeyboardInterrupt`, are not caught (see "Left out").

## Recalculation

`calculate_table` stores a formula and then recalculates in waves. A wave is every not-yet-placed cell whose references all lie in earlier waves. Cells that are not ready are marked `Error` during the scan. Recalculation stops at the first empty wave.

## Undo and export

The undo stack holds copies of cells: pushing copies a cell, and popping recalculates the old formula back in. A table can be exported to a dictionary keyed by location and loaded back from one.

## Modules

The modules follow the source files:

| module | file | contents |
|---|---|---|
| `Values` | `values.dfy` | shared datatypes: locations, seen values, Python errors and their markers |
| `Cells` | `cell.dfy` | `cell.py`: `Cell` is a class whose setters update its fields in place |
| `MathFunctions` | `math_functions.dfy` | `custom_sum`, `avg` and the domain check of `sqrt` |
| `References` | `references.dfy` | `get_cell_dependencies` and `convert_location_to_cord` |
| `Resolver` | `resolver.dfy` | `resolve_cell` |
| `Calculation` | `calculation.dfy` | `calculate_cell`, `non_numeric_formula` and `calculate_cells` as functions of a grid snapshot |
| `Scheduling` | `scheduling.dfy` | the level scan and the wave order of `calculate_table`, over snapshots |
| `Spreadsheet` | `table_calculator.dfy` | `TableCalculator` as a class |

`TableCalculator` holds the matrix of cells, the row and column counts, the title and the undo stack. Its methods update these in place. Its loops are written as loops, each proved against the snapshot functions above.

### How the evaluator and the stack limit are modelled

Python's `eval` is a parameter `eval: string -> EvalResult`. It yields the `str()` of a value or the exception it raised, and nothing is assumed about it. The lemmas say exactly which text the evaluator sees, and that the seen value depends on the evaluator only through that text.

`resolve_cell` has no cycle guard. Python's recursion limit is the parameter `fuel`. Running out of it is the `RecursionError` that `calculate_cell` reports as `Error`.

### Integer 0 versus the text "0"

A seen value is text, or the Python integer `0`. The single-reference short-cut of `resolve_cell` returns the integer `0` for an empty cell (table_calculator.py:232-234). The guards `resolved_formula != 0` (lines 267, 269, 273 and 305) then skip every check for it.

Replacing that integer by the text `"0"` would change results. For example, `=a1!` with `a1` empty stores `0` in the source, but the text `"0"` would give the syntax marker. So the model keeps the two apart as `IntZero` and `Str("0")`.

### Substitution is not token-aware

`resolve_cell` substitutes with plain `str.replace` (line 239). The replacement of `a1` therefore also rewrites the front of `a12`. The model keeps this behaviour, and `Resolver.ReplacementInsideLongerToken` exhibits it.

## Model

| member | source | states |
|---|---|---|
| Values.Marker | table_calculator.py:284-293 | each exception class maps to its own marker text; `ValueError`, `KeyError`, `RecursionError`, `TypeError` and a plain `Exception` map to the generic `Error`, and only they do |
| Cells.Cell.constructor | cell.py:16-20 | a new cell holds exactly the given location, formula, seen value and color |
| Cells.NewCellDefaults | cell.py:14-20 | a cell built from a location alone has an empty formula, an empty seen value and the color `#ffffff` |
| Cells.Cell.CopyCell | cell.py:22-24 | the copy is a new object with the same location, formula, seen value and color |
| Cells.CopyIsIndependent | cell.py:22-24 | a copy and its original are distinct objects: setting one's formula or color leaves the other's as it was |
| Cells.Cell.SetSeenValue | cell.py:42-44 | the seen value becomes the new one; formula and color are unchanged |
| Cells.Cell.SetFormula | cell.py:46-48 | the formula becomes the new one; seen value and color are unchanged |
| Cells.Cell.SetColor | cell.py:50-52 | the color becomes the new one; formula and seen value are unchanged |
| MathFunctions.CustomSum | math_functions.py:26-35 | the running total over the arguments equals their sum (`Sum`), proved by loop invariant |
| MathFunctions.SumBounds | math_functions.py:32-35 | `n` values each between `lo` and `hi` sum to between `n*lo` and `n*hi` |
| MathFunctions.Avg | math_functions.py:16-23 | fails exactly on no arguments, with `ZeroDivisionError`; otherwise the result times the count is the sum |
| MathFunctions.AvgWithinBounds | math_functions.py:16-23 | the average of values between `lo` and `hi` lies between `lo` and `hi` |
| MathFunctions.EmptyAvgMarker | math_functions.py:23 | `average()` with no arguments leaves the `ZeroDivision Error` marker |
| MathFunctions.Sqrt | math_functions.py:5-13 | definition: the negative-input guard of `sqrt`, raising `ValueError` below zero and otherwise passing the argument to the floating-point power; what the guard means for a cell is stated by `NegativeSqrtMarker` |
| MathFunctions.NegativeSqrtMarker | math_functions.py:11-12 | the `ValueError` of a negative square root shows the generic `Error` marker |
| References.Lower | table_calculator.py:211 | no upper-case ASCII letter is left, every other character stays in place, and each upper-case letter becomes the lower-case letter that upper-cases back to it; `LowerKeepsWordChars` and `DependenciesIgnoreCase` state what this means for reference extraction |
| References.LowerIdempotent | table_calculator.py:211 | lower-casing an already lower-cased formula changes nothing |
| References.LowerKeepsWordChars | table_calculator.py:210-211 | lower-casing neither creates nor removes word characters or digits, so word boundaries stay where they were |
| References.TokenEndDetermined | table_calculator.py:210 | a match starting at a position ends exactly where that position's run of digits ends |
| References.SpansFromSound | table_calculator.py:210-211 | every span the scan reports is a match of `\b[a-z]\d{1,3}\b`, and the spans are in strictly increasing order |
| References.SpansFromComplete | table_calculator.py:210-211 | every match of the pattern is reported by the scan |
| References.TokenAt | table_calculator.py:210 | definition: a match of `\b[a-z]\d{1,3}\b` from position `i` to `j` (a lower-case letter, one to three digits, no word character on either side) |
| References.SpansFrom | table_calculator.py:210-211 | definition: the left-to-right, non-overlapping scan of `re.findall` from position `i`; `SpansFromSound` and `SpansFromComplete` prove it finds exactly the matches |
| References.Dependencies | table_calculator.py:201-212 | every extracted dependency is one letter followed by one to three digits |
| References.DependenciesCharacterized | table_calculator.py:201-212 | a text is an extracted dependency if and only if it is a match of the pattern in the lower-cased formula |
| References.DependenciesIgnoreCase | table_calculator.py:211 | a formula and its lower-cased form have the same dependencies |
| References.SingleReference | table_calculator.py:201-212 | `=` followed by the token of a location has exactly that one dependency |
| References.Coord | table_calculator.py:374-383 | the column of a token is in 0..25 and its row in -1..998 (`a0` names row -1) |
| References.DigitsOfValue | table_calculator.py:382 | the decimal digits of a positive number read back as that number |
| References.CoordOfRef | table_calculator.py:374-383 | converting the token a user types for an in-grid location gives that location back |
| Resolver.Replace | table_calculator.py:239 | definition: `str.replace`, every non-overlapping occurrence from the left, not token-aware |
| Resolver.SubstituteAll | table_calculator.py:235-239 | definition: the `for dep in dependencies` loop; each reference's seen value (an empty one as `0`) replaces it, and a reference outside the grid fails with `KeyError` |
| Resolver.ResolveStep | table_calculator.py:225-240 | definition: one call of `resolve_cell`: no reference returns the text, a lone short reference returns the cell's seen value (the integer 0 when empty), otherwise substitute and recurse |
| Resolver.Resolve | table_calculator.py:214-240 | definition: `resolve_cell` with the recursion limit as `fuel`; running out is `RecursionError` |
| Resolver.ReplaceSame | table_calculator.py:239 | replacing a text by itself leaves a string unchanged |
| Resolver.ReplaceKeepsHead | table_calculator.py:239 | a first character that cannot start the pattern survives the replacement |
| Resolver.SubstituteAllKeepsEquals | table_calculator.py:235-239 | substituting every reference keeps a leading `=` |
| Resolver.ResolveFuelMonotone | table_calculator.py:214-240 | a resolution that finishes gives the same value with any larger stack |
| Resolver.StepShape | table_calculator.py:225-240 | one call returns reference-free text, the integer 0, or a non-empty seen value of the grid, or recurses on text that keeps the leading `=` |
| Resolver.ResolvedShape | table_calculator.py:214-240 | a successful resolution gives reference-free text, which keeps a leading `=`, or the integer 0, or a non-empty seen value of some grid cell |
| Resolver.StepToItselfLoops | table_calculator.py:235-240 | a formula that substitutes to itself exhausts any stack with `RecursionError` |
| Resolver.SelfReferenceStep | table_calculator.py:235-240 | with `a1` showing `a1`, one call on `=a1+1` recurses on `=a1+1` itself |
| Resolver.SelfReferenceExhaustsFuel | table_calculator.py:214-240 | with `a1` showing `a1`, resolving `=a1+1` always ends in `RecursionError`, because there is no cycle guard |
| Resolver.TwoSteps | table_calculator.py:235-240 | a formula whose first call recurses on text that the next call finishes resolves to that finished value |
| Resolver.ReplacementInsideLongerToken | table_calculator.py:235-240 | with `a1` showing 5 and `a12` showing 7, `=a1+a12` resolves to `=5+52`: replacing `a1` also rewrites the front of `a12` |
| Calculation.NonNumeric | table_calculator.py:295-315 | definition: `non_numeric_formula`: digit-free resolved text is rejected with `SyntaxError` beside an operator or with a prohibited character, otherwise stored |
| Calculation.EvalInput | table_calculator.py:267-275 | definition: the text handed to `eval`, present only when resolution gives text that starts with `=` and passes the guards |
| Calculation.Route | table_calculator.py:264-281 | definition: the branches after resolution, in source order: non-numeric text, prohibited operators, evaluation, plain text |
| Calculation.CalcSeen | table_calculator.py:242-293 | definition: `calculate_cell`'s seen value: a literal as it is, otherwise the routed result or the marker of the exception raised |
| Calculation.LiteralStoredVerbatim | table_calculator.py:256-258 | a formula without a leading `=` becomes the seen value unevaluated |
| Calculation.OnlyEvalInputIsEvaluated | table_calculator.py:267-281 | the seen value depends on the evaluator only through its result on `EvalInput`, and not at all when there is no such input |
| Calculation.EvaluatedResultStored | table_calculator.py:273-293 | what the evaluator yields on `EvalInput` is stored: its text, or the marker of the exception it raised |
| Calculation.ProhibitedCharacterRejected | table_calculator.py:267-268 | a prohibited character in the lower-cased formula gives the syntax marker whenever resolution yields text |
| Calculation.DigitFreeTextStored | table_calculator.py:305-314 | resolved text with no digit, no operator beside a letter and no prohibited character in the formula is stored as it is and never evaluated |
| Calculation.FailedResolutionIsGenericError | table_calculator.py:259-293 | a resolution that fails leaves the generic `Error` marker |
| Calculation.ResolveFailsWithLookupOrStack | table_calculator.py:214-240 | resolution fails only by `KeyError` (a reference outside the grid) or `RecursionError` |
| Calculation.StepFailsWithLookup | table_calculator.py:227-239 | one resolution call that fails does so with `KeyError` |
| Calculation.SubstituteAllFailsWithLookup | table_calculator.py:235-239 | the substitution loop fails only with `KeyError` |
| Calculation.CalcCells | table_calculator.py:317-323 | calculating a list of in-grid cells keeps the set of grid locations |
| Calculation.CalcCellsFrame | table_calculator.py:317-323 | formulas and colors stay; unlisted cells are unchanged; a listed cell with a literal formula shows that literal |
| Scheduling.RefsOf | table_calculator.py:341-343 | definition: the converted coordinates of the tokens extracted from a formula, in order |
| Scheduling.Mark | table_calculator.py:338-350 | definition: one cell after the scan: an unplaced cell with a reference outside `prev` shows `Error`, any other is kept |
| Scheduling.Marked | table_calculator.py:338-352 | the scan's marking keeps the set of locations; each cell becomes `Mark` of it |
| Scheduling.RowLevel | table_calculator.py:337-352 | definition: the cells of one row the scan appends to the level, left to right |
| Scheduling.Level | table_calculator.py:335-353 | definition: the level the scan returns, row by row |
| Scheduling.GridLocs | table_calculator.py:336-337 | definition: the set of in-grid locations, the reference the nested scans are proved against; `GridLocsCard` counts it |
| Scheduling.GridLocsCard | table_calculator.py:336-337 | the grid has `rows * cols` locations |
| Scheduling.ReadyMeansTokensPlaced | table_calculator.py:341-350 | a cell is ready exactly when the coordinates of every token extracted from its formula are in the previous levels |
| Scheduling.AgreeIsDepsOf | table_calculator.py:341-343 | the reference map agrees with the formulas exactly when it is the map of their converted tokens |
| Scheduling.RowLevelShape | table_calculator.py:337-352 | one row's scan finds exactly the row's waiting cells, left to right |
| Scheduling.LevelShape | table_calculator.py:325-353 | a location is in the level exactly when it is in the grid, not yet placed and ready; the level lists each once, in row-major order |
| Scheduling.EmptyLevelMarksRest | table_calculator.py:366-372 | once a level is empty, every cell not yet placed shows `Error` |
| Scheduling.MarkedKeepsFormulas | table_calculator.py:345-348 | the scan's marking changes seen values only |
| Scheduling.FormulaUpdateLayout | table_calculator.py:363-364 | storing a formula changes the formula at that location only, and no color |
| Scheduling.NewWave | table_calculator.py:368-372 | a non-empty level added as the next wave keeps the waves disjoint, in the grid and ready, and places at least one more cell, so the loop terminates |
| Scheduling.NoWaves | table_calculator.py:365-366 | before the first wave every grid cell is unplaced |
| Scheduling.LevelsAppend | table_calculator.py:368-372 | adding the level found against all waves so far keeps each wave the level found against the ones before it |
| Scheduling.CalcCellsLayout | table_calculator.py:317-323 | calculating cells keeps every formula and color |
| Scheduling.RunWaves | table_calculator.py:365-372 | the fold of the loop of `calculate_table` (first scan, then calculate each wave and scan against all waves so far) keeps the set of locations |
| Scheduling.RunWavesStep | table_calculator.py:369-372 | one more wave runs on the grid the earlier waves left: it is calculated there, then the scan marks against all waves so far |
| Scheduling.ScheduleStep | table_calculator.py:368-372 | a non-empty level becomes the next wave: the waves stay well formed and levels, and fewer cells stay unplaced |
| Scheduling.GridStep | table_calculator.py:369-372 | calculating the next wave and scanning again leaves the grid `RunWaves` of the longer list of waves, with formulas and colors kept |
| Scheduling.LoopStart | table_calculator.py:365-366 | the first scan against no placed cell establishes the loop's state |
| Scheduling.LoopStep | table_calculator.py:368-372 | one turn of the loop keeps its state with the wave appended, and places at least one more cell |
| Scheduling.LoopEnd | table_calculator.py:368 | when the level comes out empty the waves are all there are, no more than the grid's cells, and every unplaced cell shows `Error` |
| Scheduling.PlacedRefsPlaced | table_calculator.py:341-352 | every reference of a placed cell was placed too |
| Scheduling.OutsideReferenceNeverPlaced | table_calculator.py:341-352 | a cell referencing a location outside the grid (such as `a0`, row -1) is never placed |
| Scheduling.CycleNeverPlaced | table_calculator.py:341-372 | cells that each reference another cell of the same set (a cycle) are never placed: there is no cycle guard |
| Scheduling.MutualReferenceRefs | table_calculator.py:341-343 | `=b1` references `(0, 1)` and `=a1` references `(0, 0)` |
| Scheduling.MutualReferencesNeverPlaced | table_calculator.py:341-372 | with `a1` holding `=b1` and `b1` holding `=a1`, neither is ever placed |
| Spreadsheet.BlankTable | table_calculator.py:33-46 | definition: the blank grid, every in-grid location holding a blank white cell; `InitialTable` and `ClearAll` are proved equal to it |
| Spreadsheet.GridExtent | table_calculator.py:407-414 | the largest row and column among a grid's keys are `rows - 1` and `cols - 1` |
| Spreadsheet.ExtentUnique | table_calculator.py:407-414 | the maxima `from_json` computes are determined by the keys |
| Spreadsheet.MarkedGrid | table_calculator.py:345-348 | a matrix marked cell by cell is `Marked` of the grid |
| Spreadsheet.TableCalculator.InitialTable | table_calculator.py:33-46 | builds a `rows` by `cols` matrix of blank white cells |
| Spreadsheet.TableCalculator.constructor | table_calculator.py:19-30 | a new table is titled as given, 40 by 26, all blank, with an empty undo stack |
| Spreadsheet.TableCalculator.SetCell | table_calculator.py:143-149 | the cell at the location takes the new value; every other cell stays |
| Spreadsheet.TableCalculator.GetCell | table_calculator.py:119-125 | succeeds exactly inside the grid, with that cell's contents; outside it fails with `KeyError` |
| Spreadsheet.TableCalculator.AddRow | table_calculator.py:60-75 | below 1000 rows, appends one row of blank cells and leaves every other cell as it was; at 1000 rows nothing changes |
| Spreadsheet.TableCalculator.ClearAll | table_calculator.py:429-435 | every cell becomes blank, the size is kept, and the new matrix is returned |
| Spreadsheet.TableCalculator.UpdateCellSeenValue | table_calculator.py:173-180 | only the seen value of that cell changes; outside the grid `KeyError` and nothing changes |
| Spreadsheet.TableCalculator.UpdateCellFormula | table_calculator.py:182-189 | only the formula of that cell changes; outside the grid `KeyError` and nothing changes |
| Spreadsheet.TableCalculator.UpdateTableWithColor | table_calculator.py:191-198 | only the color of that cell changes; outside the grid `KeyError` and nothing changes |
| Spreadsheet.TableCalculator.CalculateCell | table_calculator.py:242-293 | only the seen value of that cell changes, to `CalcSeen` of the formula against the grid's seen values |
| Spreadsheet.TableCalculator.CalculateCells | table_calculator.py:317-323 | the cells are calculated in list order, each against the grid as the earlier ones left it (`CalcCells`) |
| Spreadsheet.TableCalculator.ScanCell | table_calculator.py:338-352 | the cell joins the level exactly when it is unplaced and ready, and is marked `Error` exactly when it is unplaced and not ready |
| Spreadsheet.TableCalculator.ScanRow | table_calculator.py:337-352 | one row's pass finds that row's waiting cells, left to right, and marks each cell as `Mark` says |
| Spreadsheet.TableCalculator.ScanGrid | table_calculator.py:335-353 | the nested loops find `Level` and mark every cell as `Mark` says |
| Spreadsheet.TableCalculator.GetCurrentLevelDeps | table_calculator.py:325-355 | returns the unplaced ready cells in row-major order, and the grid becomes `Marked`: unplaced cells that are not ready show `Error` |
| Spreadsheet.TableCalculator.CalculateTable | table_calculator.py:357-372 | stores the formula; the grid becomes `RunWaves` of the edited grid over the waves; each wave is the level found against the earlier ones, and the level after the last is empty; waves are non-empty, disjoint, in the grid and reference only earlier waves, at most `rows * cols` of them; cells never placed show `Error`; outside the grid `KeyError` and nothing changes |
| Spreadsheet.TableCalculator.Recalculate | table_calculator.py:365-372 | the wave loop keeps formulas and colors, terminates, and leaves the grid `RunWaves` of the starting grid over the waves it found: each the level found against the earlier ones, the next level empty, the waves well formed, every unplaced cell showing `Error` |
| Spreadsheet.TableCalculator.MutualReferencesShowError | table_calculator.py:341-372 | after a recalculation with `a1` holding `=b1` and `b1` holding `=a1`, both show `Error` |
| Spreadsheet.TableCalculator.CalculateWave | table_calculator.py:369-372 | one turn: the grid the next scan reads is `CalcCells` of the grid before over the wave; the wave joins the placed cells; the next level is `Level` against them and the grid becomes `Marked`; the size stays |
| Spreadsheet.TableCalculator.PushState | table_calculator.py:437-442 | pushes a fresh copy of the cell, with its location and contents, onto the stack; the grid is untouched; outside the grid `KeyError` and the stack is unchanged |
| Spreadsheet.TableCalculator.PopLastState | table_calculator.py:444-451 | with an empty stack nothing happens; otherwise the newest copy is removed and its formula is stored back and recalculated, with everything `CalculateTable` promises (`RunWaves` over levels, unplaced cells showing `Error`) |
| Spreadsheet.TableCalculator.EditThenUndo | table_calculator.py:437-451 | push, edit, then pop restores every formula, every color and the stack |
| Spreadsheet.TableCalculator.ToJson | table_calculator.py:386-398 | the export is the title and every cell's formula, seen value and color under its location |
| Spreadsheet.TableCalculator.FromJson | table_calculator.py:400-427 | the size comes from the largest row and column among the keys; it succeeds exactly when every position of that size is present, in which case each cell holds the loaded triple; otherwise the missing key's `KeyError` is re-raised as a plain `Exception` and the table is unchanged |
| Spreadsheet.TableCalculator.ExportThenLoad | table_calculator.py:386-427 | loading what was exported succeeds and gives back the same size and contents |

## Left out

- Aliasing: the grid is a matrix of values. `get_cell` returning a live `Cell` that its caller then mutates is modelled as replacing that cell's entry, and aliasing between grid cells is not modelled. `Cell` objects appear only on the undo stack.
- Spreadsheet.TableCalculator.GetCurrentLevelDeps: the scan builds the marked matrix and stores it at the end; the source marks cells in place while it scans, which gives the same final grid.
- Python's `eval`: it is a parameter, so arithmetic, `min`, `max` and the names of the evaluation environment are not modelled.
- The trigonometric helpers `sinus`, `cosinus` and `tangens`, and the numeric value of `x ** 0.5` (a parameter), are floating point and not modelled.
- MathFunctions.CustomSum: Python floats are modelled as exact reals, with no rounding, no overflow to `inf` and no mixing of `int` and `float`.
- MathFunctions.Avg: the same exact reals; in floats `avg(1e308, 1e308)` overflows to `inf` while the model gives `1e308`.
- MathFunctions.AvgWithinBounds: holds for exact reals only; with float overflow or rounding the average can leave the bounds.
- Unicode: `str.lower`, `\w`, `\d` and `isdigit` are modelled on ASCII only.
- pandas: the data frame is a matrix of rows, and `.loc` lookups outside it raise `KeyError`.
- Output and helper operations: charts, the Excel and data-frame export helpers (`get_data_frame_formula`, `get_data_frame_seen_values`), `set_rows`, `set_cols`, the title getter and setter, and the `data_frame` constructor argument. These are output or plain field access outside the calculation core.
- Spreadsheet.TableCalculator.SetCell: stores a cell record, not a `Cell` object, so a cell whose own location differs from the index it is stored at cannot arise in the model; it also requires an in-grid location, since the model calls it only after `GetCell` succeeded, and the pandas chained indexing `loc[row][col]` is not modelled.
- `file.py` and `main.py` (GUI and file I/O) are not part of this model.
- Spreadsheet.TableCalculator.FromJson: the source loads only the matrix and leaves `rows` and `COLUMNS` for its caller to set. The model sets both from the loaded size, so that the row and column counts always describe the matrix.
- Spreadsheet.TableCalculator.FromJson: the keys of the exported dictionary are the strings `"(i, j)"`. The model keys by location, so the parsing of those strings is not modelled.
- Spreadsheet.TableCalculator.CalculateCell: the location is required to be inside the grid. Every caller in the source passes a location that it has already looked up.
- Exceptions that are not `Exception`s (`SystemExit` from an `exit()` or `quit()` in a formula, `KeyboardInterrupt`) escape the handlers of `calculate_cell` and abort `calculate_table`; the evaluator's results are values or `Exception` subclasses only.
- Resolver.Resolve: `fuel` stands for Python's recursion limit, whose actual depth is not modelled.
