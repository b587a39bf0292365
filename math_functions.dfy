/**
 * The helpers the expression evaluator can call: `custom_sum`, `avg` and the
 * domain check of `sqrt`. Python floats are modelled as exact reals.
 */
module MathFunctions {
  import opened Values

  /** Python's built-in `sum`: the values added from left to right, starting at 0. */
  function Sum(args: seq<real>): real
  {
    if |args| == 0 then 0.0 else Sum(args[..|args| - 1]) + args[|args| - 1]
  }

  /** Values all between `lo` and `hi` add up to between `n * lo` and `n * hi`. */
  lemma {:induction false} SumBounds(args: seq<real>, lo: real, hi: real)
    requires forall k :: 0 <= k < |args| ==> lo <= args[k] <= hi
    ensures |args| as real * lo <= Sum(args) <= |args| as real * hi
    decreases |args|
  {
    if |args| > 0 {
      var init := args[..|args| - 1];
      var m := |init| as real;
      SumBounds(init, lo, hi);
      assert Sum(args) == Sum(init) + args[|args| - 1];
      assert |args| as real * lo == m * lo + lo;
      assert |args| as real * hi == m * hi + hi;
    }
  }

  /** `custom_sum(*args)`: a running total over the arguments, which is `sum(args)`. */
  method CustomSum(args: seq<real>) returns (total: real)
    ensures total == Sum(args)
  {
    total := 0.0;
    var i := 0;
    while i < |args|
      invariant 0 <= i <= |args|
      invariant total == Sum(args[..i])
    {
      assert args[..i + 1][..i] == args[..i];
      total := total + args[i];
      i := i + 1;
    }
    assert args[..|args|] == args;
  }

  /**
   * `avg(*args)`: `sum(args) / len(args)`; with no arguments the division by
   * zero raises `ZeroDivisionError`.
   */
  function Avg(args: seq<real>): (r: Result<real, PyError>)
    ensures r.Failure? <==> |args| == 0
    ensures r.Failure? ==> r.error == ZeroDivisionError
    ensures r.Success? ==> r.value * |args| as real == Sum(args)
  {
    if |args| == 0 then Failure(ZeroDivisionError) else Success(Sum(args) / |args| as real)
  }

  /** The average of values between `lo` and `hi` is between `lo` and `hi`. */
  lemma AvgWithinBounds(args: seq<real>, lo: real, hi: real)
    requires |args| > 0
    requires forall k :: 0 <= k < |args| ==> lo <= args[k] <= hi
    ensures lo <= Avg(args).value <= hi
  {
    SumBounds(args, lo, hi);
    var n := |args| as real;
    var a := Avg(args).value;
    assert a * n == Sum(args);
    assert (a - lo) * n >= 0.0;
    assert (hi - a) * n >= 0.0;
  }

  /** An `avg()` with no arguments leaves the division-by-zero marker in its cell. */
  lemma EmptyAvgMarker()
    ensures Avg([]).Failure? && Marker(Avg([]).error) == ZeroDivisionMarker
  {
  }

  /**
   * `sqrt(x)`: a negative argument raises `ValueError`; otherwise the result is
   * `x ** 0.5`, a floating-point power passed in as `power_half`.
   */
  function Sqrt(x: real, power_half: real -> real): (r: Result<real, PyError>)
    ensures r.Failure? <==> x < 0.0
    ensures r.Failure? ==> r.error == ValueError
    ensures r.Success? ==> r.value == power_half(x)
  {
    if x < 0.0 then Failure(ValueError) else Success(power_half(x))
  }

  /** The `ValueError` of a negative square root leaves the generic marker. */
  lemma NegativeSqrtMarker(x: real, power_half: real -> real)
    requires x < 0.0
    ensures Marker(Sqrt(x, power_half).error) == ErrorMarker
  {
  }
}
