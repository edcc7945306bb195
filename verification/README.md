# Forecast-evaluation core of a portfolio forecasting script suite

This project models the parts of `scripts/features.py` that are plain sequence handling rather
than calls into statistics or machine-learning libraries. The Dafny proofs are about positions,
lengths and exact real arithmetic:

- **Chronological split** (`split_data`). The price series is cut by position at
  `int(len * train_size)`, with no shuffling (module `Split`).
- **Sliding windows** (`prepare_lstm_data`). Each sample's input is `time_step` consecutive
  observations and its target is the next observation (module `Windowing`).
- **LSTM test alignment** (`run_forecasting`). The last 60 scaled training points are joined to
  the first `forecast_days` scaled test points and windowed. Each resulting forecast lines up with
  one truncated test value, and the fixed-horizon ARIMA/SARIMA forecasts are scored against the
  same truncated values (module `Forecast`).
- **Error metrics** (`calculate_metrics`). MAE, MSE (what RMSE takes the square root of) and MAPE
  are computed over exact reals. Near-zero actual values are floored to `epsilon` so that no MAPE
  denominator is zero (module `Metrics`).
- **Best-model choice** (`summarize_model_performance`). Python's `min` over the ARIMA, SARIMA
  and LSTM entries is keyed by MAPE. A missing MAPE counts as +infinity, and on a tie the model
  inserted first wins (module `Selection`).
- **Price merge** (`merge_data`). The TSLA, BND and SPY closing prices are outer-joined on date and
  sorted by date (module `Merge`). Dates are day numbers.

Modelling choices:

- Element types are generic where only positions matter. Min-max scaling is pointwise, so the
  windowing facts hold for the scaled series unchanged.
- `train_size` is an exact `real`. Python's `int()` truncation toward zero is modelled, and so are
  Python's rules for negative and oversized slice bounds. `SplitData` is total.
- `calculate_metrics` returns a `Result`. A length mismatch and an empty input are the errors
  scikit-learn's metric functions raise for those inputs; the lengths are compared first, so an
  empty `actual` beside a non-empty `predicted` is a length mismatch. A zero MAPE denominator can only arise
  when `epsilon <= 0`. numpy would then produce `inf`/`nan`, and the model reports an error value.
- The floor in `calculate_metrics` replaces every value with `|a| < epsilon` by `+epsilon`, even
  a slightly negative one. The code does this, and so does the model.
- `merge_data` is modelled as two outer joins followed by a sort. Each join yields one row per date
  of either side, with the right rows whose date is new placed after the left rows. pandas sorts an
  outer join's rows by date instead; the final `sort_values('Date')` makes the two orders give the
  same result. The sort's ordering among equal dates never matters, because the joined table has
  distinct dates.

## Model

| member | source | states |
|---|---|---|
| Split.TruncateToward0 | scripts/features.py:24 | `int()` of a float truncates toward zero: the result lies between zero and the argument and within 1 of it |
| Split.TruncatedBound | scripts/features.py:24-25 | `int(x)` used as a slice bound is `floor(x)` for `x` in `[0, n]` and `n` for `x >= n` |
| Split.SplitIndex | scripts/features.py:24 | the split position is `floor(n * train_size)` for a ratio in `[0, 1]`, the whole length for a ratio of 1 or more, and never past the end |
| Split.SplitData | scripts/features.py:23-25 | train followed by test is the original series (no shuffling); for a ratio in [0,1] the train part has `floor(n * train_size)` elements; a ratio of 1 or more leaves the test part empty |
| Split.DefaultSplitSizes | scripts/features.py:23-25 | with the default 0.8 ratio the train part is the first `floor(4n/5)` observations and the test part is the rest |
| Windowing.PrepareLstmData | scripts/features.py:39-44 | builds `max(0, n - time_step)` samples; sample `i` has input `data[i..i+time_step)` (length `time_step`) and target `data[i+time_step]` |
| Windowing.WindowsSlide | scripts/features.py:41-43 | each input followed by its target is a contiguous stretch of the series; each window is the previous one shifted by one observation |
| Windowing.TargetsAreSuffix | scripts/features.py:41-43 | the targets in order are the series without its first `time_step` observations |
| Forecast.TrainTail | scripts/features.py:117 | `train[-60:]` is a suffix of the training data, of length 60 or the whole training part when it is shorter |
| Forecast.Head | scripts/features.py:117 | `s[:forecast_days]` is a prefix of length `min(forecast_days, |s|)` |
| Forecast.LstmStageRunsIff | scripts/features.py:112-119 | the LSTM stage gets past `X.shape[1]` at lines 113 and 119 exactly when there are more than 60 training points and `test[:forecast_days]` is non-empty; otherwise the source raises before scoring (at lines 101/102 when a part is empty, else at line 113 or 119) |
| Forecast.LstmWindowCount | scripts/features.py:117-118 | with at least 60 training points there are exactly `min(forecast_days, |test|)` test windows, as many as truncated test values; with fewer, the test windowing alone would yield fewer windows than test values, a case the program never reaches because it raises first (at line 101 for no training points, at line 113 for 1 to 60) |
| Forecast.LstmTargetsAreTest | scripts/features.py:117-118 | with at least 60 training points the targets of the test windows are exactly `test[:forecast_days]`, in order |
| Forecast.LstmWindowsPrecedeTest | scripts/features.py:117-118 | with at least 60 training points window `i` is the 60 observations immediately before `test[i]` in the full series |
| Forecast.FixedHorizonScoredIff | scripts/features.py:106-128 | a `forecast_days`-long ARIMA/SARIMA forecast can be scored against `test[:forecast_days]` exactly when `0 < forecast_days <= |test|` |
| Forecast.LstmScoredIff | scripts/features.py:117-129 | given 60 training points, the one-per-window LSTM forecast is scored exactly when there is at least one test value and one forecast day (otherwise the source has already raised: at line 102 for an empty test part, at line 119 when `forecast_days` is 0) |
| Metrics.SafeActual | scripts/features.py:61 | every floored value has magnitude at least `epsilon` and so is non-zero; values with `abs(a) >= epsilon` are unchanged, the others become `epsilon` |
| Metrics.SumNonNegative | scripts/features.py:58-63 | a sum of non-negative error terms is non-negative, and zero exactly when every term is zero |
| Metrics.Score | scripts/features.py:58-63 | MAE, MSE and MAPE of accepted inputs are all non-negative |
| Metrics.CalculateMetrics | scripts/features.py:57-65 | unequal lengths (checked first) and two empty inputs are the only errors when `epsilon > 0`, so an all-zero actual series is still scored; every computed metric is non-negative |
| Metrics.DefaultEpsilonAlwaysScores | scripts/features.py:57-63 | with the default `epsilon` of 1e-10, every non-empty pair of equal length is scored, all-zero actual values included |
| Metrics.MaeZeroIff | scripts/features.py:58 | MAE is zero if and only if the forecast equals the actual values |
| Metrics.MapeZeroIff | scripts/features.py:61-63 | MAPE is zero if and only if the forecast equals the epsilon-floored actual values |
| Metrics.PerfectForecastScoresZero | scripts/features.py:57-63 | a perfect forecast of values all at least `epsilon` in magnitude scores zero MAE, MSE and MAPE |
| Selection.ArgMin | scripts/features.py:213 | returns a position whose key is at most every key and strictly below every earlier key (None = +infinity); a missing key wins only when all are missing |
| Selection.BestModel | scripts/features.py:213 | over the metrics dictionary built at lines 148-152 in the order ARIMA, SARIMA, LSTM: ARIMA wins iff its MAPE is at most both others; SARIMA iff strictly below ARIMA and at most LSTM; LSTM iff strictly below both; None counts as +infinity |
| Merge.Lookup | scripts/features.py:236-237 | an asset's close for a date is present exactly when the asset has a row with that date, and it is that row's close |
| Merge.LookupFindsRow | scripts/features.py:236-237 | with unique dates, the lookup for a row's date returns that row's close |
| Merge.Insert | scripts/features.py:240 | inserting a row with a new date into a date-sorted table keeps it strictly sorted and adds exactly that row |
| Merge.SortByDate | scripts/features.py:240 | sorting a table with distinct dates yields a strictly increasing permutation of its rows |
| Merge.UnmatchedDates | scripts/features.py:236-237 | the rows an outer join appends for new right-side dates have distinct dates, namely the right dates not already present |
| Merge.UnmatchedValuesOfRight | scripts/features.py:236-237 | each appended row carries only the right table's close for its date |
| Merge.AttachKeepsDates | scripts/features.py:236-237 | the rows an outer join builds from the left table keep the left dates, position by position |
| Merge.ConcatDistinct | scripts/features.py:236-237 | two tables with distinct, disjoint dates concatenate to one with distinct dates covering both |
| Merge.AttachValues | scripts/features.py:236-237 | every left row gains the new asset's close for its date and keeps its other columns |
| Merge.UnmatchedValues | scripts/features.py:236-237 | every appended row holds the new asset's close and NaN for the previously joined assets |
| Merge.OuterJoinExtends | scripts/features.py:236-237 | outer-joining one more asset onto a join of others gives the join of all of them: one row per date, each column holding that asset's close or NaN |
| Merge.MergeData | scripts/features.py:229-242 | the merged table is strictly sorted by date, its dates are the union of the three assets' dates, and each column holds that asset's close on the row's date exactly when the asset has that date |

## Left out

- Model fitting and forecasting (`fit_arima`, `fit_sarima`, `build_and_train_lstm`, `predict`, `forecast`). These are opaque library calls. Forecasts enter the lemmas as arbitrary sequences, with only their lengths assumed: `forecast_days` values for ARIMA/SARIMA and one per window for the LSTM.
- `MinMaxScaler` scaling and inverse scaling: floating-point library code. The model works on positions, which scaling does not change.
- RMSE: the model computes the mean squared error and leaves out the square root.
- Metrics.CalculateMetrics: MAPE's `* 100` and the means are exact real arithmetic. IEEE-754 rounding, `inf` and `nan` are not modelled.
- Windowing.PrepareLstmData: `time_step` is a natural number. A negative `time_step` would bring in Python's negative indexing; no caller uses one.
- Forecast.Head: `forecast_days` is a natural number. Negative values would slice from the end; no caller uses one.
- Merge.MergeData: requires unique dates within each asset's table. With duplicate dates pandas would emit the cross product of the duplicated rows, and that is not modelled.
- Merge.MergeData: pandas' NaN cells are `None` and dates are integers; timestamp parsing is not modelled.
- `summarize_model_performance` and `plot_forecasts_vs_actual`: the printing and plotting are left out. `summarize_model_performance` only reads the stored metrics; `plot_forecasts_vs_actual` recomputes them with the same `calculate_metrics`.
- Merge.OuterJoin: the order of the rows inside each outer join is the model's own (left rows, then new right dates), not pandas' date order. Only the sorted result of `merge_data` is promised, and the final sort makes it the same.
- `plot_data`, `plot_metrics`, `plot_forecasts_vs_actual` and `scripts/plots.py`: rendering only.
- `reset_index` (features.py:221) and `scripts/data_cleaning.py`: pandas index reshuffles and a print.
- `scripts/data_loader.py`: a network download of price data.
- `calculate_returns`, `portfolio_annual_return`, `optimal_portfolio_no_sharpe`, `optimal_portfolio_sharpe`, `portfolio_variance`, `total_portfolio` and `portfolio_calculations`. They are percentage changes, compounding with `**252`, square roots, percentiles, normal quantiles and `scipy.optimize.minimize`. Any property of them would be about floating point or the optimiser, not this code.
