/** The positional bookkeeping of `run_forecasting` in scripts/features.py: which observations
    each model is scored against, and how the LSTM test windows line up with the test series. */
module Forecast {
  import opened Wrappers
  import opened Windowing
  import opened Metrics

  /** `time_step=60` at both `prepare_lstm_data` calls and the `[-60:]` tail of the training data. */
  const LstmTimeStep: nat := 60

  /** `train[-60:]`: the last 60 observations, or all of them when there are fewer. */
  function TrainTail<T>(train: seq<T>): (tail: seq<T>)
    ensures |tail| == if |train| >= LstmTimeStep then LstmTimeStep else |train|
    ensures train == train[..|train| - |tail|] + tail
  {
    if |train| >= LstmTimeStep then train[|train| - LstmTimeStep..] else train
  }

  /** `s[:forecast_days]`: the first `forecast_days` elements, or all of them when there are fewer. */
  function Head<T>(s: seq<T>, forecastDays: nat): (h: seq<T>)
    ensures |h| == if |s| >= forecastDays then forecastDays else |s|
    ensures h == s[..|h|]
  {
    if |s| >= forecastDays then s[..forecastDays] else s
  }

  /** `np.concatenate((scaled_train[-60:], scaled_test[:forecast_days]))`. */
  function LstmInputs<T>(train: seq<T>, test: seq<T>, forecastDays: nat): seq<T>
  {
    TrainTail(train) + Head(test, forecastDays)
  }

  /** Lines 113 and 119 read `X.shape[1]` of a window array, and `prepare_lstm_data` returns a
      one-dimensional empty array when it builds no sample, so that read raises. The LSTM stage
      reaches its forecast exactly when both windowings (training data, test inputs) build a sample. */
  predicate LstmStageRuns<T>(train: seq<T>, test: seq<T>, forecastDays: nat)
  {
    && SampleCount(|train|, LstmTimeStep) > 0
    && SampleCount(|LstmInputs(train, test, forecastDays)|, LstmTimeStep) > 0
  }

  /** The LSTM stage runs exactly when there are more than 60 training observations and at least
      one truncated test value. Otherwise the source raises before scoring: at line 101 or 102
      when the training or test part is empty (scaling rejects zero samples), else at line 113
      or 119. */
  lemma LstmStageRunsIff<T>(train: seq<T>, test: seq<T>, forecastDays: nat)
    ensures LstmStageRuns(train, test, forecastDays) <==> |train| > LstmTimeStep && |Head(test, forecastDays)| > 0
  {
  }

  /** With at least 60 training observations the LSTM test windows produce exactly one forecast
      per truncated test value. With fewer, the test windowing alone would yield fewer forecasts
      than test values; the program never gets that far, because the training windowing then has
      no sample and line 113 raises (line 101 already, for an empty training part). */
  lemma LstmWindowCount<T>(train: seq<T>, test: seq<T>, forecastDays: nat, xs: seq<seq<T>>, ys: seq<T>)
    requires IsWindowing(LstmInputs(train, test, forecastDays), LstmTimeStep, xs, ys)
    ensures |train| >= LstmTimeStep ==> |xs| == |Head(test, forecastDays)|
    ensures |train| < LstmTimeStep && |Head(test, forecastDays)| > 0 ==> |xs| < |Head(test, forecastDays)|
  {
  }

  /** With at least 60 training observations, the target of test window `i` is `test[i]`. */
  lemma {:induction false} LstmTargetsAreTest<T>(train: seq<T>, test: seq<T>, forecastDays: nat,
                                                 xs: seq<seq<T>>, ys: seq<T>)
    requires |train| >= LstmTimeStep
    requires IsWindowing(LstmInputs(train, test, forecastDays), LstmTimeStep, xs, ys)
    ensures ys == Head(test, forecastDays)
  {
    var inputs := LstmInputs(train, test, forecastDays);
    var h := Head(test, forecastDays);
    forall i | 0 <= i < |ys| ensures ys[i] == h[i] {
      assert ys[i] == inputs[LstmTimeStep + i];
    }
  }

  /** With at least 60 training observations, test window `i` is exactly the 60 observations
      that immediately precede `test[i]` in the full series. */
  lemma {:induction false} LstmWindowsPrecedeTest<T>(train: seq<T>, test: seq<T>, forecastDays: nat,
                                                     xs: seq<seq<T>>, ys: seq<T>)
    requires |train| >= LstmTimeStep
    requires IsWindowing(LstmInputs(train, test, forecastDays), LstmTimeStep, xs, ys)
    ensures forall i :: 0 <= i < |xs| ==> xs[i] == (train + test)[|train| - LstmTimeStep + i..|train| + i]
  {
    var inputs := LstmInputs(train, test, forecastDays);
    var full := train + test;
    var start := |train| - LstmTimeStep;
    assert inputs == full[start..|train| + |Head(test, forecastDays)|];
    forall i | 0 <= i < |xs| ensures xs[i] == full[start + i..|train| + i] {
      assert xs[i] == inputs[i..i + LstmTimeStep];
      forall j | 0 <= j < LstmTimeStep ensures xs[i][j] == full[start + i + j] {
        assert inputs[i + j] == full[start + i + j];
      }
    }
  }

  /** The ARIMA and SARIMA forecasts have `forecast_days` values; after truncation they can be
      scored against `test[:forecast_days]` exactly when the test series is at least that long. */
  lemma FixedHorizonScoredIff(test: seq<real>, forecast: seq<real>, forecastDays: nat, epsilon: real)
    requires |forecast| == forecastDays
    requires epsilon > 0.0
    ensures CalculateMetrics(Head(test, forecastDays), Head(forecast, forecastDays), epsilon).Success?
            <==> 0 < forecastDays <= |test|
  {
    var a := Head(test, forecastDays);
    var p := Head(forecast, forecastDays);
    if !(0 < forecastDays <= |test|) {
      assert |a| == 0 || |a| != |p|;
    }
  }

  /** The LSTM forecast (one prediction per test window) always has as many values as
      `test[:forecast_days]` once the training part holds 60 observations, so it is scored
      whenever there is something to score. When `test[:forecast_days]` is empty the program
      does not reach the scoring: it raises at line 102 for an empty test part and at line 119
      when `forecast_days` is 0 (see `LstmStageRunsIff`). */
  lemma LstmScoredIff(train: seq<real>, test: seq<real>, forecastDays: nat, epsilon: real,
                      xs: seq<seq<real>>, ys: seq<real>, forecast: seq<real>)
    requires |train| >= LstmTimeStep && epsilon > 0.0
    requires IsWindowing(LstmInputs(train, test, forecastDays), LstmTimeStep, xs, ys)
    requires |forecast| == |xs|
    ensures CalculateMetrics(Head(test, forecastDays), Head(forecast, forecastDays), epsilon).Success?
            <==> forecastDays > 0 && |test| > 0
  {
    LstmWindowCount(train, test, forecastDays, xs, ys);
  }
}
