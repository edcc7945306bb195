/** The error metrics of `calculate_metrics` in scripts/features.py, over exact reals. */
module Metrics {
  import opened Wrappers

  /** The default `epsilon` of `calculate_metrics`, 1e-10. */
  const DefaultEpsilon: real := 0.0000000001

  function Abs(x: real): (r: real)
    ensures r >= 0.0 && (r == x || r == -x)
  {
    if x < 0.0 then -x else x
  }

  function Sum(s: seq<real>): real
  {
    if |s| == 0 then 0.0 else s[0] + Sum(s[1..])
  }

  function Mean(s: seq<real>): real
    requires |s| > 0
  {
    Sum(s) / |s| as real
  }

  predicate AllNonNegative(s: seq<real>)
  {
    forall i :: 0 <= i < |s| ==> s[i] >= 0.0
  }

  /** A sum of non-negative terms is non-negative, and it is zero exactly when every term is. */
  lemma {:induction false} SumNonNegative(s: seq<real>)
    requires AllNonNegative(s)
    ensures Sum(s) >= 0.0
    ensures Sum(s) == 0.0 <==> forall i :: 0 <= i < |s| ==> s[i] == 0.0
  {
    if |s| > 0 {
      assert AllNonNegative(s[1..]) by {
        forall i | 0 <= i < |s[1..]| ensures s[1..][i] >= 0.0 {
          assert s[1..][i] == s[i + 1];
        }
      }
      SumNonNegative(s[1..]);
      if Sum(s) == 0.0 {
        forall i | 0 <= i < |s| ensures s[i] == 0.0 {
          if i > 0 {
            assert s[i] == s[1..][i - 1];
          }
        }
      }
      if forall i :: 0 <= i < |s| ==> s[i] == 0.0 {
        assert forall i :: 0 <= i < |s[1..]| ==> s[1..][i] == 0.0 by {
          forall i | 0 <= i < |s[1..]| ensures s[1..][i] == 0.0 {
            assert s[1..][i] == s[i + 1];
          }
        }
      }
    }
  }

  /** `np.where(np.abs(actual) < epsilon, epsilon, actual)`: near-zero actual values are replaced
      by `epsilon`, so that no MAPE denominator is zero. */
  function SafeActual(actual: seq<real>, epsilon: real): (safe: seq<real>)
    ensures |safe| == |actual|
    ensures epsilon > 0.0 ==> forall i :: 0 <= i < |safe| ==> Abs(safe[i]) >= epsilon && safe[i] != 0.0
    ensures forall i :: 0 <= i < |safe| && Abs(actual[i]) >= epsilon ==> safe[i] == actual[i]
    ensures forall i :: 0 <= i < |safe| && Abs(actual[i]) < epsilon ==> safe[i] == epsilon
  {
    seq(|actual|, i requires 0 <= i < |actual| => if Abs(actual[i]) < epsilon then epsilon else actual[i])
  }

  /** |actual[i] - predicted[i]| for each position. */
  function AbsoluteErrors(actual: seq<real>, predicted: seq<real>): (e: seq<real>)
    requires |actual| == |predicted|
    ensures |e| == |actual| && AllNonNegative(e)
  {
    seq(|actual|, i requires 0 <= i < |actual| => Abs(actual[i] - predicted[i]))
  }

  /** (actual[i] - predicted[i])^2 for each position. */
  function SquaredErrors(actual: seq<real>, predicted: seq<real>): (e: seq<real>)
    requires |actual| == |predicted|
    ensures |e| == |actual| && AllNonNegative(e)
  {
    seq(|actual|, i requires 0 <= i < |actual| => (actual[i] - predicted[i]) * (actual[i] - predicted[i]))
  }

  /** |(safe[i] - predicted[i]) / safe[i]| for each position. */
  function RelativeErrors(safe: seq<real>, predicted: seq<real>): (e: seq<real>)
    requires |safe| == |predicted|
    requires forall i :: 0 <= i < |safe| ==> safe[i] != 0.0
    ensures |e| == |safe| && AllNonNegative(e)
  {
    seq(|safe|, i requires 0 <= i < |safe| => Abs((safe[i] - predicted[i]) / safe[i]))
  }

  /** The three error metrics. `mse` is the mean squared error whose square root the
      source reports as RMSE; the square root itself is not modelled. */
  datatype Scores = Scores(mae: real, mse: real, mape: real)

  datatype MetricsError =
    | LengthMismatch   // scikit-learn refuses arrays of different lengths
    | EmptyInput       // scikit-learn refuses zero samples
    | ZeroDenominator  // a MAPE denominator is 0 (only possible when epsilon <= 0)

  predicate HasZero(s: seq<real>)
  {
    exists i :: 0 <= i < |s| && s[i] == 0.0
  }

  /** The three metrics of inputs that scikit-learn accepts and whose MAPE denominators are non-zero. */
  function Score(actual: seq<real>, predicted: seq<real>, safe: seq<real>): (s: Scores)
    requires 0 < |actual| == |predicted| == |safe|
    requires forall i :: 0 <= i < |safe| ==> safe[i] != 0.0
    ensures s.mae >= 0.0 && s.mse >= 0.0 && s.mape >= 0.0
  {
    var absolute := AbsoluteErrors(actual, predicted);
    var squared := SquaredErrors(actual, predicted);
    var relative := RelativeErrors(safe, predicted);
    SumNonNegative(absolute);
    SumNonNegative(squared);
    SumNonNegative(relative);
    Scores(Mean(absolute), Mean(squared), Mean(relative) * 100.0)
  }

  /** `calculate_metrics(actual, predicted, epsilon)`. */
  function CalculateMetrics(actual: seq<real>, predicted: seq<real>, epsilon: real): (r: Result<Scores, MetricsError>)
    // scikit-learn compares the lengths before it looks for an empty input
    ensures r == Failure(LengthMismatch) <==> |actual| != |predicted|
    ensures r == Failure(EmptyInput) <==> |actual| == 0 && |predicted| == 0
    ensures r == Failure(ZeroDenominator) ==> epsilon <= 0.0
    // the epsilon floor: with a positive epsilon, equal non-empty inputs are always scored,
    // even when every actual value is zero
    ensures epsilon > 0.0 && 0 < |actual| == |predicted| ==> r.Success?
    ensures r.Success? ==> r.value.mae >= 0.0 && r.value.mse >= 0.0 && r.value.mape >= 0.0
  {
    if |actual| != |predicted| then Failure(LengthMismatch)
    else if |actual| == 0 then Failure(EmptyInput)
    else
      var safe := SafeActual(actual, epsilon);
      if HasZero(safe) then Failure(ZeroDenominator)
      else Success(Score(actual, predicted, safe))
  }

  /** With the default floor of 1e-10, any non-empty forecast of the right length is scored,
      whatever the actual values are (all zero included). */
  lemma DefaultEpsilonAlwaysScores(actual: seq<real>, predicted: seq<real>)
    requires 0 < |actual| == |predicted|
    ensures CalculateMetrics(actual, predicted, DefaultEpsilon).Success?
    ensures CalculateMetrics(actual, predicted, DefaultEpsilon).value.mape >= 0.0
  {
  }

  /** MAE is zero exactly for a perfect forecast. */
  lemma MaeZeroIff(actual: seq<real>, predicted: seq<real>, epsilon: real)
    requires CalculateMetrics(actual, predicted, epsilon).Success?
    ensures CalculateMetrics(actual, predicted, epsilon).value.mae == 0.0 <==> predicted == actual
  {
    var e := AbsoluteErrors(actual, predicted);
    var safe := SafeActual(actual, epsilon);
    assert CalculateMetrics(actual, predicted, epsilon) == Success(Score(actual, predicted, safe));
    assert Score(actual, predicted, safe).mae == Sum(e) / |e| as real;
    SumNonNegative(e);
    if predicted != actual {
      var i :| 0 <= i < |actual| && actual[i] != predicted[i];
      assert e[i] != 0.0;
    }
  }

  /** MAPE is zero exactly when the forecast equals the floored actual values. */
  lemma MapeZeroIff(actual: seq<real>, predicted: seq<real>, epsilon: real)
    requires CalculateMetrics(actual, predicted, epsilon).Success?
    ensures CalculateMetrics(actual, predicted, epsilon).value.mape == 0.0 <==> predicted == SafeActual(actual, epsilon)
  {
    var safe := SafeActual(actual, epsilon);
    var e := RelativeErrors(safe, predicted);
    SumNonNegative(e);
    if predicted != safe {
      var i :| 0 <= i < |actual| && safe[i] != predicted[i];
      assert (safe[i] - predicted[i]) / safe[i] != 0.0;
      assert e[i] != 0.0;
    } else {
      forall i | 0 <= i < |e| ensures e[i] == 0.0 {
        assert (safe[i] - predicted[i]) / safe[i] == 0.0;
      }
    }
  }

  /** A perfect forecast scores zero on every metric, provided no actual value is
      below the epsilon floor (otherwise MAPE compares against epsilon instead). */
  lemma PerfectForecastScoresZero(actual: seq<real>, epsilon: real)
    requires |actual| > 0 && epsilon > 0.0
    requires forall i :: 0 <= i < |actual| ==> Abs(actual[i]) >= epsilon
    ensures CalculateMetrics(actual, actual, epsilon) == Success(Scores(0.0, 0.0, 0.0))
  {
    MaeZeroIff(actual, actual, epsilon);
    MapeZeroIff(actual, actual, epsilon);
    var sq := SquaredErrors(actual, actual);
    SumNonNegative(sq);
    assert forall i :: 0 <= i < |sq| ==> sq[i] == 0.0;
  }
}
