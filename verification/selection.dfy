/** The best-model choice of `summarize_model_performance` in scripts/features.py:
    `min` over the metrics dictionary keyed by MAPE, where a missing MAPE counts as +infinity. */
module Selection {
  import opened Wrappers

  datatype ModelName = Arima | Sarima | Lstm

  /** `a < b` on MAPE keys, with `None` standing for `float('inf')`. */
  predicate KeyLess(a: Option<real>, b: Option<real>)
  {
    match (a, b)
    case (Some(x), Some(y)) => x < y
    case (Some(_), None) => true
    case (None, _) => false
  }

  /** `a <= b` on MAPE keys. */
  predicate KeyAtMost(a: Option<real>, b: Option<real>)
  {
    !KeyLess(b, a)
  }

  /** Position `i` holds a smallest key, and every earlier key is strictly larger:
      the element Python's `min` returns. */
  predicate IsFirstMinimum(keys: seq<Option<real>>, i: int)
  {
    && 0 <= i < |keys|
    && (forall j :: 0 <= j < |keys| ==> KeyAtMost(keys[i], keys[j]))
    && (forall j :: 0 <= j < i ==> KeyLess(keys[i], keys[j]))
  }

  /** The key order is a strict weak order: transitive, and its incomparability is transitive. */
  lemma KeyOrder(a: Option<real>, b: Option<real>, c: Option<real>)
    ensures !KeyLess(a, a)
    ensures KeyLess(a, b) && KeyLess(b, c) ==> KeyLess(a, c)
    ensures KeyAtMost(a, b) && KeyAtMost(b, c) ==> KeyAtMost(a, c)
    ensures KeyAtMost(a, b) || KeyAtMost(b, a)
  {
  }

  /** Python's `min(iterable, key=...)`: scan left to right, replacing the candidate only
      when a strictly smaller key appears. */
  method ArgMin(keys: seq<Option<real>>) returns (best: nat)
    requires |keys| > 0
    ensures IsFirstMinimum(keys, best)
    ensures keys[best].None? ==> forall j :: 0 <= j < |keys| ==> keys[j].None?
  {
    best := 0;
    var i := 1;
    while i < |keys|
      invariant 0 <= best < i <= |keys|
      invariant forall j :: 0 <= j < i ==> KeyAtMost(keys[best], keys[j])
      invariant forall j :: 0 <= j < best ==> KeyLess(keys[best], keys[j])
    {
      if KeyLess(keys[i], keys[best]) {
        forall j | 0 <= j < i ensures KeyLess(keys[i], keys[j]) {
          KeyOrder(keys[i], keys[best], keys[j]);
        }
        best := i;
      }
      i := i + 1;
    }
  }

  /** The order in which `run_forecasting` inserts the models into its metrics dictionary. */
  const ModelOrder: seq<ModelName> := [Arima, Sarima, Lstm]

  /** `min(metrics, key=lambda x: metrics[x][2] if metrics[x][2] is not None else float('inf'))`
      for the dictionary {ARIMA, SARIMA, LSTM}: the lowest MAPE wins, a tie goes to the model
      inserted first, and a missing MAPE loses to any present one. */
  method BestModel(arimaMape: Option<real>, sarimaMape: Option<real>, lstmMape: Option<real>)
    returns (best: ModelName)
    ensures best == Arima <==> KeyAtMost(arimaMape, sarimaMape) && KeyAtMost(arimaMape, lstmMape)
    ensures best == Sarima <==> KeyLess(sarimaMape, arimaMape) && KeyAtMost(sarimaMape, lstmMape)
    ensures best == Lstm <==> KeyLess(lstmMape, arimaMape) && KeyLess(lstmMape, sarimaMape)
  {
    var keys := [arimaMape, sarimaMape, lstmMape];
    var i := ArgMin(keys);
    assert keys[0] == arimaMape && keys[1] == sarimaMape && keys[2] == lstmMape;
    assert ModelOrder[0] == Arima && ModelOrder[1] == Sarima && ModelOrder[2] == Lstm;
    best := ModelOrder[i];
  }
}
