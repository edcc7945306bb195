/** The chronological train/test split of `split_data` in scripts/features.py. */
module Split {

  /** Python's `int(x)` on a float: truncation toward zero. */
  function TruncateToward0(x: real): (k: int)
    ensures 0.0 <= x ==> 0 <= k && k as real <= x < k as real + 1.0
    ensures x < 0.0 ==> k <= 0 && x <= k as real < x + 1.0
  {
    if x >= 0.0 then x.Floor else -((-x).Floor)
  }

  /** The position a Python slice bound `k` denotes in a sequence of length `n`:
      a negative bound counts from the end, and bounds are clamped to `0..n`. */
  function SliceBound(k: int, n: nat): (j: nat)
    ensures j <= n
    ensures 0 <= k <= n ==> j == k
  {
    if k < 0 then (if n + k < 0 then 0 else n + k)
    else if k > n then n
    else k
  }

  /** The default `train_size` of `split_data`. */
  const DefaultTrainSize: real := 0.8

  datatype TrainTest<T> = TrainTest(train: seq<T>, test: seq<T>)

  /** A length scaled by a ratio in [0, 1] stays between 0 and the length; a ratio of 1 or
      more gives at least the length. */
  lemma ScaledLengthInRange(n: nat, ratio: real)
    ensures 0.0 <= ratio <= 1.0 ==> 0.0 <= n as real * ratio <= n as real
    ensures ratio >= 1.0 ==> n as real * ratio >= n as real
  {
    var m := n as real;
    if 0.0 <= ratio {
      assert m * ratio >= 0.0;
      assert m - m * ratio == m * (1.0 - ratio);
    }
  }

  /** `int(x)` used as a slice bound on a sequence of length `n`. */
  function TruncatedBound(x: real, n: nat): (k: nat)
    ensures k <= n
    ensures 0.0 <= x <= n as real ==> k == x.Floor
    ensures x >= n as real ==> k == n
  {
    SliceBound(TruncateToward0(x), n)
  }

  /** `split_index = int(len(data) * train_size)`, read as a slice bound. */
  function SplitIndex(n: nat, trainSize: real): (k: nat)
    ensures k <= n
    ensures 0.0 <= trainSize <= 1.0 ==> k == (n as real * trainSize).Floor
    ensures trainSize >= 1.0 ==> k == n
  {
    ScaledLengthInRange(n, trainSize);
    TruncatedBound(n as real * trainSize, n)
  }

  /** `data[:split_index], data[split_index:]` with `split_index = int(len(data) * train_size)`. */
  function SplitData<T>(data: seq<T>, trainSize: real): (r: TrainTest<T>)
    // no shuffling: the two halves put back together give the series unchanged
    ensures r.train + r.test == data
    ensures 0.0 <= trainSize <= 1.0 ==> |r.train| == (|data| as real * trainSize).Floor
    ensures trainSize >= 1.0 ==> r.train == data && r.test == []
  {
    var k := SplitIndex(|data|, trainSize);
    TrainTest(data[..k], data[k..])
  }

  /** With the default 80/20 ratio, the training part is the first `floor(4n/5)` observations
      and the test part the remaining ones, in their original order. */
  lemma DefaultSplitSizes<T>(data: seq<T>)
    ensures |SplitData(data, DefaultTrainSize).train| == (4 * |data|) / 5
    ensures SplitData(data, DefaultTrainSize).test == data[(4 * |data|) / 5..]
  {
    var n := |data|;
    var x := n as real * DefaultTrainSize;
    assert x == (4 * n) as real / 5.0;
    var q := (4 * n) / 5;
    assert 4 * n == 5 * q + (4 * n) % 5;
    assert q as real <= x < q as real + 1.0;
  }
}
