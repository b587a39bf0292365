/**
 * `resolve_cell` as a function of the grid's seen values: references are
 * replaced by the seen values they name, with plain `str.replace`, and the
 * result is resolved again. There is no cycle guard; `fuel` is the number of
 * recursive calls Python's stack allows, and running out of it is the
 * `RecursionError` that `calculate_cell` reports as the generic marker.
 */
module Resolver {
  import opened Values
  import opened References

  /** The seen value of every cell of the grid, by location. */
  type SeenMap = map<Location, SeenValue>

  /** `get_cell(location).get_seen_value()`; a location outside the grid raises `KeyError`. */
  function Lookup(seen: SeenMap, loc: Location): Result<SeenValue, PyError>
  {
    if loc in seen then Success(seen[loc]) else Failure(KeyError)
  }

  /** The text spliced in for a reference: `f'{cell_value}'`, an empty cell counting as `0`. */
  function Spliced(v: SeenValue): string
  {
    if v == Blank then "0" else Show(v)
  }

  predicate StartsWithEquals(s: string)
  {
    |s| > 0 && s[0] == '='
  }

  /** `s.replace(old, new)`: every non-overlapping occurrence, scanning left to right. */
  function Replace(s: string, pat: string, rep: string): string
    requires |pat| > 0
    decreases |s|
  {
    if |s| < |pat| then s
    else if s[..|pat|] == pat then rep + Replace(s[|pat|..], pat, rep)
    else [s[0]] + Replace(s[1..], pat, rep)
  }

  /** Replacing a string by itself changes nothing. */
  lemma {:induction false} ReplaceSame(s: string, pat: string)
    requires |pat| > 0
    ensures Replace(s, pat, pat) == s
    decreases |s|
  {
    if |s| < |pat| {
    } else if s[..|pat|] == pat {
      ReplaceSame(s[|pat|..], pat);
      assert s == pat + s[|pat|..];
    } else {
      ReplaceSame(s[1..], pat);
      assert s == [s[0]] + s[1..];
    }
  }

  /** A first character that cannot start the pattern survives the replacement. */
  lemma ReplaceKeepsHead(s: string, pat: string, rep: string)
    requires |pat| > 0 && |s| > 0 && s[0] != pat[0]
    ensures |Replace(s, pat, rep)| > 0 && Replace(s, pat, rep)[0] == s[0]
  {
  }

  /** The `for dep in dependencies` loop: each token is replaced in turn. */
  function SubstituteAll(seen: SeenMap, formula: string, deps: seq<string>): Result<string, PyError>
    requires forall k :: 0 <= k < |deps| ==> IsRef(deps[k])
    decreases |deps|
  {
    if deps == [] then Success(formula)
    else
      match Lookup(seen, Coord(deps[0]))
      case Failure(e) => Failure(e)
      case Success(v) => SubstituteAll(seen, Replace(formula, deps[0], Spliced(v)), deps[1..])
  }

  /** Substitution never touches the leading `=`: no token starts with it. */
  lemma {:induction false} SubstituteAllKeepsEquals(seen: SeenMap, formula: string, deps: seq<string>)
    requires forall k :: 0 <= k < |deps| ==> IsRef(deps[k])
    requires StartsWithEquals(formula)
    ensures SubstituteAll(seen, formula, deps).Success? ==>
      StartsWithEquals(SubstituteAll(seen, formula, deps).value)
    decreases |deps|
  {
    if deps != [] {
      match Lookup(seen, Coord(deps[0]))
      case Failure(e) =>
      case Success(v) =>
        ReplaceKeepsHead(formula, deps[0], Spliced(v));
        SubstituteAllKeepsEquals(seen, Replace(formula, deps[0], Spliced(v)), deps[1..]);
    }
  }

  /** One call of `resolve_cell` up to its recursive call. */
  datatype Step = Done(result: Result<SeenValue, PyError>) | Again(next: string)

  /**
   * The body of `resolve_cell`. No token: the text itself. One token in a
   * formula of at most four characters: that cell's seen value, the integer
   * `0` if it is empty. Otherwise: substitute every token, then resolve the
   * new text.
   */
  function ResolveStep(seen: SeenMap, formula: string): Step
  {
    var deps := Dependencies(formula);
    if |deps| == 0 then Done(Success(Str(formula)))
    else if |deps| == 1 && |formula| <= 4 then
      match Lookup(seen, Coord(deps[0]))
      case Failure(e) => Done(Failure(e))
      case Success(v) => Done(Success(if v == Blank then IntZero else v))
    else
      match SubstituteAll(seen, formula, deps)
      case Failure(e) => Done(Failure(e))
      case Success(next) => Again(next)
  }

  /** `resolve_cell`, with `fuel` recursive calls left before the stack overflows. */
  function Resolve(seen: SeenMap, formula: string, fuel: nat): Result<SeenValue, PyError>
    decreases fuel
  {
    match ResolveStep(seen, formula)
    case Done(r) => r
    case Again(next) => if fuel == 0 then Failure(RecursionError) else Resolve(seen, next, fuel - 1)
  }

  /** Fuel only bounds the recursion: a resolution that finishes gives the same value with more. */
  lemma {:induction false} ResolveFuelMonotone(seen: SeenMap, formula: string, fuel: nat, more: nat)
    requires fuel <= more
    requires Resolve(seen, formula, fuel).Success?
    ensures Resolve(seen, formula, more) == Resolve(seen, formula, fuel)
    decreases fuel
  {
    match ResolveStep(seen, formula)
    case Done(r) =>
    case Again(next) =>
      ResolveFuelMonotone(seen, next, fuel - 1, more - 1);
  }

  /**
   * A step either stops with text free of references, the integer `0` or a
   * non-empty seen value of the grid, or continues with text that keeps the
   * leading `=`.
   */
  lemma StepShape(seen: SeenMap, formula: string)
    ensures match ResolveStep(seen, formula)
      case Done(Success(v)) =>
        || (v == Str(formula) && Dependencies(formula) == [])
        || v == IntZero
        || (v != Blank && exists loc :: loc in seen && seen[loc] == v)
      case Done(Failure(e)) => true
      case Again(next) => StartsWithEquals(formula) ==> StartsWithEquals(next)
  {
    var deps := Dependencies(formula);
    if |deps| == 1 && |formula| <= 4 {
      var loc := Coord(deps[0]);
      assert Lookup(seen, loc).Success? ==> loc in seen;
    } else if |deps| > 0 && StartsWithEquals(formula) {
      SubstituteAllKeepsEquals(seen, formula, deps);
    }
  }

  /**
   * What a successful resolution gives: text with no reference left (which
   * still starts with `=` when the formula did), the integer `0`, or the
   * non-empty seen value of a cell of the grid (the single-reference
   * short-circuit returns it as it is, references included).
   */
  lemma {:induction false} ResolvedShape(seen: SeenMap, formula: string, fuel: nat)
    requires Resolve(seen, formula, fuel).Success?
    ensures var v := Resolve(seen, formula, fuel).value;
      || (v.Str? && Dependencies(v.text) == []
          && (StartsWithEquals(formula) ==> StartsWithEquals(v.text)))
      || v == IntZero
      || (v != Blank && exists loc :: loc in seen && seen[loc] == v)
    decreases fuel
  {
    StepShape(seen, formula);
    match ResolveStep(seen, formula)
    case Done(r) =>
    case Again(next) =>
      ResolvedShape(seen, next, fuel - 1);
  }

  /**
   * A cell whose seen value is its own reference text makes resolution loop:
   * `=a1+1` with `a1` showing `a1` exhausts any amount of fuel.
   */
  lemma SelfReferenceExhaustsFuel(seen: SeenMap, fuel: nat)
    requires (0, 0) in seen && seen[(0, 0)] == Str("a1")
    ensures Resolve(seen, "=a1+1", fuel) == Failure(RecursionError)
  {
    SelfReferenceStep(seen);
    StepToItselfLoops(seen, "=a1+1", fuel);
  }

  /** A formula whose step hands on the formula itself never resolves. */
  lemma {:induction false} StepToItselfLoops(seen: SeenMap, formula: string, fuel: nat)
    requires ResolveStep(seen, formula) == Again(formula)
    ensures Resolve(seen, formula, fuel) == Failure(RecursionError)
    decreases fuel
  {
    if fuel > 0 {
      StepToItselfLoops(seen, formula, fuel - 1);
    }
  }

  /** With `a1` showing `a1`, one step of `=a1+1` gives `=a1+1` back. */
  lemma SelfReferenceStep(seen: SeenMap)
    requires (0, 0) in seen && seen[(0, 0)] == Str("a1")
    ensures ResolveStep(seen, "=a1+1") == Again("=a1+1")
  {
    DependenciesOfSum();
    ReplaceSame("=a1+1", "a1");
    CoordOfA1();
    assert SubstituteAll(seen, "=a1+1", ["a1"]) == Success("=a1+1");
  }

  lemma DependenciesOfSum()
    ensures Dependencies("=a1+1") == ["a1"]
  {
    var s := "=a1+1";
    assert Lower(s) == s;
    SpansOfSum();
    assert s[1..3] == "a1";
  }

  lemma SpansOfSum()
    ensures SpansFrom("=a1+1", 0) == [(1, 3)]
  {
    var s := "=a1+1";
    SpansFromNoLetter(s, 2);
    assert TokenAt(s, 1, 3);
    TokenEndDetermined(s, 1, 3);
  }

  lemma CoordOfA1()
    ensures Coord("a1") == (0, 0)
  {
  }

  lemma CoordOfA12()
    ensures Coord("a12") == (11, 0)
  {
    assert "12"[..1] == "1";
  }

  /**
   * Substitution is not token-aware: in `=a1+a12` the replacement of `a1`
   * also rewrites the front of `a12`, so with `a1` showing 5 and `a12`
   * showing 7 the text handed on is `=5+52`, not `=5+7`.
   */
  lemma ReplacementInsideLongerToken(seen: SeenMap, fuel: nat)
    requires (0, 0) in seen && seen[(0, 0)] == Str("5")
    requires (11, 0) in seen && seen[(11, 0)] == Str("7")
    requires fuel >= 1
    ensures Resolve(seen, "=a1+a12", fuel) == Success(Str("=5+52"))
  {
    TwoReferencesStep(seen);
    NoReferenceLeft();
    assert ResolveStep(seen, "=5+52") == Done(Success(Str("=5+52")));
    TwoSteps(seen, "=a1+a12", "=5+52", fuel);
  }

  /** A formula that steps to a text that stops resolves, with fuel for one call, to what that text stops with. */
  lemma TwoSteps(seen: SeenMap, formula: string, next: string, fuel: nat)
    requires ResolveStep(seen, formula) == Again(next) && ResolveStep(seen, next).Done?
    requires fuel >= 1
    ensures Resolve(seen, formula, fuel) == ResolveStep(seen, next).result
  {
  }

  /** One step of `=a1+a12` with `a1` showing 5 and `a12` showing 7. */
  lemma TwoReferencesStep(seen: SeenMap)
    requires (0, 0) in seen && seen[(0, 0)] == Str("5")
    requires (11, 0) in seen && seen[(11, 0)] == Str("7")
    ensures ResolveStep(seen, "=a1+a12") == Again("=5+52")
  {
    DependenciesOfTwoReferences();
    SubstituteTwoReferences(seen);
  }

  /** `=5+52` holds no letter, so no reference. */
  lemma NoReferenceLeft()
    ensures Dependencies("=5+52") == []
  {
    SpansFromNoLetter("=5+52", 0);
    assert Lower("=5+52") == "=5+52";
  }

  lemma DependenciesOfTwoReferences()
    ensures Dependencies("=a1+a12") == ["a1", "a12"]
  {
    var s := "=a1+a12";
    LowerOfTwoReferences();
    SpansOfTwoReferences();
    assert s[1..3] == "a1" && s[4..7] == "a12";
  }

  lemma LowerOfTwoReferences()
    ensures Lower("=a1+a12") == "=a1+a12"
  {
  }

  lemma SpansOfTwoReferences()
    ensures SpansFrom("=a1+a12", 0) == [(1, 3), (4, 7)]
  {
    var s := "=a1+a12";
    SpanOfSecondReference();
    assert TokenAt(s, 1, 3);
    TokenEndDetermined(s, 1, 3);
  }

  lemma SpanOfSecondReference()
    ensures SpansFrom("=a1+a12", 4) == [(4, 7)]
  {
    var s := "=a1+a12";
    assert TokenAt(s, 4, 7);
    TokenEndDetermined(s, 4, 7);
    SpansFromNoLetter(s, 5);
  }

  lemma SubstituteTwoReferences(seen: SeenMap)
    requires (0, 0) in seen && seen[(0, 0)] == Str("5")
    requires (11, 0) in seen && seen[(11, 0)] == Str("7")
    ensures SubstituteAll(seen, "=a1+a12", ["a1", "a12"]) == Success("=5+52")
  {
    CoordOfA1();
    ReplaceFirstReference();
    assert ["a1", "a12"][1..] == ["a12"];
    SubstituteSecondReference(seen);
  }

  lemma ReplaceFirstReference()
    ensures Replace("=a1+a12", "a1", "5") == "=5+52"
  {
    assert "a12"[..2] == "a1" && "a12"[2..] == "2";
    assert Replace("a12", "a1", "5") == "52";
    assert "+a12"[..2] != "a1" && "+a12"[1..] == "a12";
    assert Replace("+a12", "a1", "5") == "+52";
    assert "a1+a12"[..2] == "a1" && "a1+a12"[2..] == "+a12";
    assert Replace("a1+a12", "a1", "5") == "5+52";
    assert "=a1+a12"[..2] != "a1" && "=a1+a12"[1..] == "a1+a12";
  }

  lemma SubstituteSecondReference(seen: SeenMap)
    requires (11, 0) in seen && seen[(11, 0)] == Str("7")
    ensures SubstituteAll(seen, "=5+52", ["a12"]) == Success("=5+52")
  {
    CoordOfA12();
    assert Replace("=5+52", "a12", "7") == "=5+52";
    assert ["a12"][1..] == [];
  }
}
