/**
 * `calculate_cell` and `non_numeric_formula`: how the seen value of one cell
 * is decided from its formula and the seen values of the grid. Python's
 * `eval` is a parameter, `eval`, that yields the `str()` of a value or the
 * exception it raised; nothing is assumed about it.
 */
module Calculation {
  import opened Values
  import opened References
  import opened Resolver

  /** The characters `calculate_cell` refuses in a formula. */
  const ProhibitOperators: seq<char> :=
    ['!', '@', '#', '$', '%', '^', '&', '<', '>', '}', '{', '|', '_', '\\', '`', '~', '?', ':', ';', '\'', '"']

  predicate HasProhibited(s: string)
  {
    exists k :: 0 <= k < |s| && s[k] in ProhibitOperators
  }

  predicate HasDigit(s: string)
  {
    exists k :: 0 <= k < |s| && IsDigit(s[k])
  }

  predicate IsArithmeticOperator(c: char)
  {
    c == '+' || c == '*' || c == '/' || c == '-'
  }

  /** An arithmetic operator directly before or after a lower-case letter. */
  predicate OperatorNextToLetter(s: string)
  {
    exists k :: 0 <= k < |s| - 1 &&
      ((IsArithmeticOperator(s[k]) && IsLowerLetter(s[k + 1])) ||
       (IsLowerLetter(s[k]) && IsArithmeticOperator(s[k + 1])))
  }

  /**
   * `non_numeric_formula`: `None` when it returns `False`; otherwise the
   * stored value, or the `SyntaxError` it raises.
   */
  function NonNumeric(resolved: SeenValue, lower: string): Option<Result<SeenValue, PyError>>
  {
    if resolved.Str? && !HasDigit(resolved.text) then
      if OperatorNextToLetter(resolved.text) then Some(Failure(SyntaxError))
      else if HasProhibited(lower) then Some(Failure(SyntaxError))
      else Some(Success(resolved))
    else None
  }

  /** The `try` block of `calculate_cell` once the formula has been resolved. */
  function Route(resolved: SeenValue, lower: string, eval: string -> EvalResult): Result<SeenValue, PyError>
  {
    match NonNumeric(resolved, lower)
    case Some(r) => r
    case None =>
      if resolved.Str? && HasProhibited(lower) then Failure(SyntaxError)
      else if resolved.Str? && HasProhibited(resolved.text) then Success(resolved)
      else if resolved.Str? && StartsWithEquals(resolved.text) then
        match eval(resolved.text[1..])
        case Value(t) => Success(Str(t))
        case Raised(e) => Failure(e)
      else Success(resolved)
  }

  /**
   * `calculate_cell(location, formula)`: the seen value it stores. A formula
   * without a leading `=` is stored as it is; every exception of the `try`
   * block ends as its marker.
   */
  function CalcSeen(seen: SeenMap, formula: string, eval: string -> EvalResult, fuel: nat): SeenValue
  {
    if !StartsWithEquals(formula) then Str(formula)
    else
      var lower := Lower(formula);
      var outcome :=
        match Resolve(seen, lower, fuel)
        case Failure(e) => Failure(e)
        case Success(r) => Route(r, lower, eval);
      match outcome
      case Success(v) => v
      case Failure(e) => Str(Marker(e))
  }

  /**
   * The text handed to the evaluator, if any: the resolved formula without its
   * `=`, when resolution gave text starting with `=` that contains a digit and
   * no prohibited character, and the lower-cased formula has none either.
   */
  function EvalInput(seen: SeenMap, formula: string, fuel: nat): Option<string>
  {
    var lower := Lower(formula);
    var r := Resolve(seen, lower, fuel);
    if StartsWithEquals(formula) && r.Success? && r.value.Str?
       && StartsWithEquals(r.value.text) && HasDigit(r.value.text)
       && !HasProhibited(lower) && !HasProhibited(r.value.text)
    then Some(r.value.text[1..])
    else None
  }

  /** A formula without a leading `=` is the seen value, unevaluated. */
  lemma LiteralStoredVerbatim(seen: SeenMap, formula: string, eval: string -> EvalResult, fuel: nat)
    requires !StartsWithEquals(formula)
    ensures CalcSeen(seen, formula, eval, fuel) == Str(formula)
  {
  }

  /**
   * The evaluator is consulted only on `EvalInput`: two evaluators that agree
   * there give the same seen value, and when there is no such input the seen
   * value does not depend on the evaluator at all.
   */
  lemma OnlyEvalInputIsEvaluated(seen: SeenMap, formula: string, e1: string -> EvalResult,
                                 e2: string -> EvalResult, fuel: nat)
    requires var x := EvalInput(seen, formula, fuel); x.None? || e1(x.value) == e2(x.value)
    ensures CalcSeen(seen, formula, e1, fuel) == CalcSeen(seen, formula, e2, fuel)
  {
    if StartsWithEquals(formula) {
      var lower := Lower(formula);
      var r := Resolve(seen, lower, fuel);
      if r.Success? && r.value.Str? && StartsWithEquals(r.value.text) && !HasDigit(r.value.text) {
        assert NonNumeric(r.value, lower).Some?;
      }
    }
  }

  /** What the evaluator yields on `EvalInput` becomes the seen value: its text, or its marker. */
  lemma EvaluatedResultStored(seen: SeenMap, formula: string, eval: string -> EvalResult, fuel: nat)
    requires EvalInput(seen, formula, fuel).Some?
    ensures var res := eval(EvalInput(seen, formula, fuel).value);
      CalcSeen(seen, formula, eval, fuel) ==
        (match res case Value(t) => Str(t) case Raised(e) => Str(Marker(e)))
  {
  }

  /**
   * A prohibited character anywhere in the lower-cased formula gives the
   * syntax marker whenever resolution yields text.
   */
  lemma ProhibitedCharacterRejected(seen: SeenMap, formula: string, eval: string -> EvalResult, fuel: nat)
    requires StartsWithEquals(formula) && HasProhibited(Lower(formula))
    requires Resolve(seen, Lower(formula), fuel).Success? && Resolve(seen, Lower(formula), fuel).value.Str?
    ensures CalcSeen(seen, formula, eval, fuel) == Str(SyntaxMarker)
  {
  }

  /**
   * Resolved text without digits, without an operator beside a lower-case
   * letter and from a formula free of prohibited characters is stored as it
   * is, its leading `=` included.
   */
  lemma DigitFreeTextStored(seen: SeenMap, formula: string, eval: string -> EvalResult, fuel: nat)
    requires StartsWithEquals(formula) && !HasProhibited(Lower(formula))
    requires var r := Resolve(seen, Lower(formula), fuel);
      r.Success? && r.value.Str? && !HasDigit(r.value.text) && !OperatorNextToLetter(r.value.text)
    ensures CalcSeen(seen, formula, eval, fuel) == Resolve(seen, Lower(formula), fuel).value
    ensures EvalInput(seen, formula, fuel).None?
  {
  }

  /** A resolution that fails (a missing cell, a stack overflow) leaves the generic marker. */
  lemma FailedResolutionIsGenericError(seen: SeenMap, formula: string, eval: string -> EvalResult, fuel: nat)
    requires StartsWithEquals(formula) && Resolve(seen, Lower(formula), fuel).Failure?
    ensures CalcSeen(seen, formula, eval, fuel) == Str(ErrorMarker)
  {
    ResolveFailsWithLookupOrStack(seen, Lower(formula), fuel);
  }

  /** Resolution can only fail by a `KeyError` or a `RecursionError`. */
  lemma {:induction false} ResolveFailsWithLookupOrStack(seen: SeenMap, formula: string, fuel: nat)
    requires Resolve(seen, formula, fuel).Failure?
    ensures Resolve(seen, formula, fuel).error in {KeyError, RecursionError}
    decreases fuel
  {
    StepFailsWithLookup(seen, formula);
    match ResolveStep(seen, formula)
    case Done(r) =>
    case Again(next) =>
      if fuel > 0 {
        ResolveFailsWithLookupOrStack(seen, next, fuel - 1);
      }
  }

  /** A step that stops with a failure stops with a `KeyError`. */
  lemma StepFailsWithLookup(seen: SeenMap, formula: string)
    ensures ResolveStep(seen, formula).Done? && ResolveStep(seen, formula).result.Failure? ==>
      ResolveStep(seen, formula).result.error == KeyError
  {
    var deps := Dependencies(formula);
    if |deps| > 1 || |formula| > 4 {
      SubstituteAllFailsWithLookup(seen, formula, deps);
    }
  }

  lemma {:induction false} SubstituteAllFailsWithLookup(seen: SeenMap, formula: string, deps: seq<string>)
    requires forall k :: 0 <= k < |deps| ==> IsRef(deps[k])
    ensures SubstituteAll(seen, formula, deps).Failure? ==> SubstituteAll(seen, formula, deps).error == KeyError
    decreases |deps|
  {
    if deps != [] {
      match Lookup(seen, Coord(deps[0]))
      case Failure(e) =>
      case Success(v) =>
        SubstituteAllFailsWithLookup(seen, Replace(formula, deps[0], Spliced(v)), deps[1..]);
    }
  }

  /** The seen values of a grid snapshot. */
  function SeenOf(t: map<Location, CellRecord>): (seen: SeenMap)
    ensures seen.Keys == t.Keys
    ensures forall loc :: loc in t ==> seen[loc] == t[loc].seen
  {
    map loc | loc in t :: t[loc].seen
  }

  /**
   * `calculate_cells(locations)`: each location in turn gets the seen value
   * `calculate_cell` gives its current formula against the grid as it is at
   * that moment.
   */
  function CalcCells(t: map<Location, CellRecord>, locs: seq<Location>,
                     eval: string -> EvalResult, fuel: nat): (after: map<Location, CellRecord>)
    requires forall k :: 0 <= k < |locs| ==> locs[k] in t
    ensures after.Keys == t.Keys
  {
    if |locs| == 0 then t
    else
      var before := CalcCells(t, locs[..|locs| - 1], eval, fuel);
      var loc := locs[|locs| - 1];
      before[loc := before[loc].(seen := CalcSeen(SeenOf(before), before[loc].formula, eval, fuel))]
  }

  /**
   * `calculate_cells` keeps every formula and color, leaves the seen value of
   * every cell outside the list as it was, and gives a listed cell whose
   * formula is a literal that literal.
   */
  lemma {:induction false} CalcCellsFrame(t: map<Location, CellRecord>, locs: seq<Location>,
                                          eval: string -> EvalResult, fuel: nat)
    requires forall k :: 0 <= k < |locs| ==> locs[k] in t
    ensures var after := CalcCells(t, locs, eval, fuel);
      && after.Keys == t.Keys
      && (forall loc :: loc in t ==> after[loc].formula == t[loc].formula && after[loc].color == t[loc].color)
      && (forall loc :: loc in t && loc !in locs ==> after[loc] == t[loc])
      && (forall loc :: loc in locs && !StartsWithEquals(t[loc].formula) ==> after[loc].seen == Str(t[loc].formula))
  {
    if |locs| > 0 {
      var init := locs[..|locs| - 1];
      CalcCellsFrame(t, init, eval, fuel);
      forall loc | loc in locs ensures loc == locs[|locs| - 1] || loc in init {
        var k :| 0 <= k < |locs| && locs[k] == loc;
        assert k < |locs| - 1 ==> init[k] == loc;
      }
    }
  }

}
