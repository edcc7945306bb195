/** The sliding-window sample builder `prepare_lstm_data` in scripts/features.py. */
module Windowing {

  /** Number of samples `range(len(data) - time_step)` produces. */
  function SampleCount(n: nat, timeStep: nat): nat
  {
    if n > timeStep then n - timeStep else 0
  }

  /** `xs` and `ys` are the inputs and targets built from `data`: sample `i` has as input
      the `timeStep` observations starting at `i` and as target the observation right after. */
  ghost predicate IsWindowing<T>(data: seq<T>, timeStep: nat, xs: seq<seq<T>>, ys: seq<T>)
  {
    && |xs| == SampleCount(|data|, timeStep)
    && |ys| == |xs|
    && forall i :: 0 <= i < |xs| ==> xs[i] == data[i..i + timeStep] && ys[i] == data[i + timeStep]
  }

  /** `prepare_lstm_data(data, time_step)`: one window per start position, in order. */
  method PrepareLstmData<T>(data: seq<T>, timeStep: nat) returns (xs: seq<seq<T>>, ys: seq<T>)
    ensures IsWindowing(data, timeStep, xs, ys)
    ensures forall i :: 0 <= i < |xs| ==> |xs[i]| == timeStep
  {
    xs, ys := [], [];
    var count := SampleCount(|data|, timeStep);
    var i := 0;
    while i < count
      invariant 0 <= i <= count
      invariant |xs| == i && |ys| == i
      invariant forall k :: 0 <= k < i ==> xs[k] == data[k..k + timeStep] && ys[k] == data[k + timeStep]
    {
      xs := xs + [data[i..i + timeStep]];
      ys := ys + [data[i + timeStep]];
      i := i + 1;
    }
  }

  /** Each window followed by its target is a contiguous stretch of the series, and the next
      window is the current one slid forward by one observation. */
  lemma {:induction false} WindowsSlide<T>(data: seq<T>, timeStep: nat, xs: seq<seq<T>>, ys: seq<T>)
    requires IsWindowing(data, timeStep, xs, ys)
    ensures forall i :: 0 <= i < |xs| ==> xs[i] + [ys[i]] == data[i..i + timeStep + 1]
    ensures forall i :: 0 < i < |xs| && timeStep > 0 ==> xs[i] == xs[i - 1][1..] + [ys[i - 1]]
  {
    forall i | 0 <= i < |xs|
      ensures xs[i] + [ys[i]] == data[i..i + timeStep + 1]
    {
      assert data[i..i + timeStep + 1] == data[i..i + timeStep] + [data[i + timeStep]];
    }
    forall i | 0 < i < |xs| && timeStep > 0
      ensures xs[i] == xs[i - 1][1..] + [ys[i - 1]]
    {
      assert xs[i - 1][1..] == data[i..i - 1 + timeStep];
      assert data[i..i + timeStep] == data[i..i - 1 + timeStep] + [data[i - 1 + timeStep]];
    }
  }

  /** The targets, in order, are the series without its first `timeStep` observations. */
  lemma {:induction false} TargetsAreSuffix<T>(data: seq<T>, timeStep: nat, xs: seq<seq<T>>, ys: seq<T>)
    requires IsWindowing(data, timeStep, xs, ys)
    ensures |data| >= timeStep ==> ys == data[timeStep..]
    ensures |data| < timeStep ==> ys == []
  {
    if |data| >= timeStep {
      assert |ys| == |data[timeStep..]|;
      forall i | 0 <= i < |ys|
        ensures ys[i] == data[timeStep..][i]
      {
      }
    }
  }
}
