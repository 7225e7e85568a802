# E-commerce demand dashboards: the table logic, verified

This project models the deterministic table logic under two retail sales
dashboards and proves what that logic promises. It leaves out the
statistical libraries the dashboards call.

- **V1, single-series anomaly detection.** Order records are summed per
  day and laid onto a gap-free daily calendar (`DailyGrid`). The STL and
  isolation-forest results are attached to that table as columns. Flagged
  days are tagged Spike or Drop by the sign of their residual. The flagged
  days are then ranked by forest score for the top-anomaly list
  (`Anomalies`).
- **V2, multi-series forecasting.** Every distinct (store, item) pair gets
  its own forecast, fitted on exactly that pair's rows. Each forecast is
  tagged with its pair and concatenated into one table (`BatchForecast`).
  The dashboard builds sorted store and item selectors and filters both
  tables down to the selected pair (`Selection`).

Dates are integer day numbers and sales amounts are `real`. Four library
results come in as parameters: the STL residuals (or the fact that STL
failed), the 3-sigma threshold, the isolation forest (a function from the
feature matrix to scores and labels) and the forecasting model (a function
from one series to its prediction rows, or `None` when it raises).
These results are assumed to have one entry per day (per feature row),
as the libraries guarantee; that is the only precondition the model places
on them. `wrappers.dfy` holds the `Option` and `Result` types used for missing
values and errors.

Where the intended design and the code disagree, the model follows the code:

- **STL failure.** The design says a failed STL fit falls back to
  value-only features. In the code, `detect_anomalies` sets `stl_anomaly`
  to 0 (V1_sales_forecasting/V1_app.py:43) and then reads the `residuals`
  column, which was never added (line 46). That read raises, so there is
  no fallback. `DetectAnomalies` returns `Failure(MissingResiduals)`.
- **Per-series forecast failures.** The design says they are isolated. In
  the code, an exception from the model for one pair ends the whole
  loader (V2_multi_series_forecasting/V2_app.py:37-48).
  `LoadAndForecast` returns `FitFailed` with the first such pair.
- **Empty input.** The design calls this `DataUnavailable`. In the code it
  raises. V1 builds a calendar with no start date (line 24). V2
  concatenates an empty list (line 50). The model returns
  `EmptyDateRange` and `NothingToConcatenate`.
- **Ties in the top-anomaly list.** The design breaks ties by the most
  recent date. The code sorts by score alone, with a sort that is not
  stable.

## Model

| member | source | states |
|---|---|---|
| `DailyGrid.MinDay` | V1_sales_forecasting/V1_app.py:24 | The calendar start is an order date, and no order is earlier. |
| `DailyGrid.MaxDay` | V1_sales_forecasting/V1_app.py:24 | The calendar end is an order date, and no order is later. |
| `DailyGrid.AddOrder` | V1_sales_forecasting/V1_app.py:22 | Adding one record to the grouped table keeps it strictly ascending. It adds the record's date to the table's days and adds its Sales to that day only. |
| `DailyGrid.GroupByDay` | V1_sales_forecasting/V1_app.py:22 | Group-by-date-and-sum gives one row per order date, strictly ascending. Each row holds the sum of Sales over all records with that date. |
| `DailyGrid.GroupBounds` | V1_sales_forecasting/V1_app.py:24 | The first and last grouped rows are the earliest and latest order dates. |
| `DailyGrid.LoadAndPreprocess` | V1_sales_forecasting/V1_app.py:13-27 | A missing file gives FileNotFound. An empty table gives EmptyDateRange. Otherwise the result has (max − min) + 1 rows, row i is day min + i, and each row holds the summed Sales of its day. |
| `DailyGrid.GridCoversOrderDays` | V1_sales_forecasting/V1_app.py:24-25 | The densified series is strictly ascending with no duplicates, and it contains every order date. |
| `DailyGrid.GridZeroFill` | V1_sales_forecasting/V1_app.py:25 | A calendar day that has no order holds 0. |
| `DailyGrid.GridPreservesTotal` | V1_sales_forecasting/V1_app.py:22-25 | Gap filling only inserts zeros: the series sums to the total Sales of all records. |
| `Anomalies.StlColumn` | V1_sales_forecasting/V1_app.py:36-43 | `stl_anomaly` is 0 or 1. It is 1 exactly when STL succeeded and the residual lies outside [−threshold, threshold]. It is 0 everywhere when STL failed. |
| `Anomalies.Classify` | V1_sales_forecasting/V1_app.py:55-57 | Spike exactly when the forest flags the row and the residual is > 0. Drop exactly when it flags the row and the residual is < 0. Untyped otherwise, including a residual of exactly 0. |
| `Anomalies.AnomalyFrame.CopyOf` | V1_sales_forecasting/V1_app.py:33-34 | The working frame is a fresh copy: the caller's days and totals in the caller's order, with no added columns yet. |
| `Anomalies.AnomalyFrame.AttachStl` | V1_sales_forecasting/V1_app.py:36-43 | On success the residual column and its flag column are added. On failure only an all-zero flag column is added. Every other column is unchanged. |
| `Anomalies.AnomalyFrame.AttachForest` | V1_sales_forecasting/V1_app.py:45-52 | The forest is fitted on the [y, residual] rows. Its scores and labels become two columns, one entry per day. Every other column is unchanged. |
| `Anomalies.AnomalyFrame.TagDirections` | V1_sales_forecasting/V1_app.py:55-57 | The three masked assignments (NaN, then Spike, then Drop) leave each row with exactly `Classify(label, residual)`. Every other column is unchanged. |
| `Anomalies.DetectAnomalies` | V1_sales_forecasting/V1_app.py:31-59 | The result fails exactly when STL failed (the residual column is missing). Otherwise it is a fresh frame with the input's rows in the input's order, plus the residual, flag, score, label and direction columns as specified above. |
| `Anomalies.DetectedRowsClassified` | V1_sales_forecasting/V1_app.py:55-57 | Every row of the finished table carries the direction its label and residual call for. |
| `Anomalies.Flagged` | V1_sales_forecasting/V1_app.py:126-127 | The filter keeps every row labelled 1, as often as it occurs, and nothing else. |
| `Anomalies.Markers` | V1_sales_forecasting/V1_app.py:89-91 | A row is a Spike (or Drop) marker exactly when it is labelled 1 and tagged Spike (or Drop). |
| `Anomalies.MarkersSplitAnomalies` | V1_sales_forecasting/V1_app.py:89-91 | In a classified table, Spike markers have residual > 0 and Drop markers have residual < 0. No row is both. A flagged row is a marker exactly when its residual is non-zero. |
| `Anomalies.InsertByScore` | V1_sales_forecasting/V1_app.py:128 | Inserting a row into a score-descending list keeps it descending and adds exactly that row. |
| `Anomalies.SortByScore` | V1_sales_forecasting/V1_app.py:128 | The sort by score, descending, is a permutation of its input. |
| `Anomalies.TakeOfDescending` | V1_sales_forecasting/V1_app.py:131 | The head of a descending list is descending, and no row left out scores above a row kept. |
| `Anomalies.TopAnomalies` | V1_sales_forecasting/V1_app.py:126-131 | The list holds min(10, number of flagged rows) rows. All of them are flagged input rows, ordered by score from highest to lowest. No flagged row left out scores above a row shown. |
| `BatchForecast.DistinctPairs` | V2_multi_series_forecasting/V2_app.py:33 | Every (store, item) pair of the table appears exactly once, and no other pair appears. |
| `BatchForecast.DistinctPairsOfPrefix` | V2_multi_series_forecasting/V2_app.py:33 | The pairs of any prefix of the table are a prefix of the whole list, which is order of first occurrence. |
| `BatchForecast.FirstOccurrenceOrder` | V2_multi_series_forecasting/V2_app.py:33 | If a prefix of the table contains a pair, it also contains every pair listed before it. |
| `BatchForecast.Slice` | V2_multi_series_forecasting/V2_app.py:38 | Every row of a pair's slice has that store and that item. |
| `BatchForecast.SliceCounts` | V2_multi_series_forecasting/V2_app.py:38 | The slice holds every matching row as often as the table does, and no other row. |
| `BatchForecast.SliceAppend` | V2_multi_series_forecasting/V2_app.py:38 | Slicing keeps table order: the slice of a concatenation is the concatenation of the slices. |
| `BatchForecast.Tag` | V2_multi_series_forecasting/V2_app.py:46-47 | Every row of a tagged block carries the pair's store and item and keeps the model's date and values. |
| `BatchForecast.RunPairsBlocks` | V2_multi_series_forecasting/V2_app.py:37-48 | A successful run yields one block per pair, in pair order. Block k is the model run on pair k's slice, tagged with pair k. |
| `BatchForecast.RunPairsFailure` | V2_multi_series_forecasting/V2_app.py:37-44 | A failed run names the first pair for which the model raised. |
| `BatchForecast.RunPairsSucceeds` | V2_multi_series_forecasting/V2_app.py:37-48 | A run succeeds exactly when the model returns a forecast for every pair. |
| `BatchForecast.LoadAndForecast` | V2_multi_series_forecasting/V2_app.py:17-53 | A missing file gives FileNotFound. A raising fit gives FitFailed for the first such pair. An empty table gives NothingToConcatenate. Otherwise the loader returns the table and the concatenated per-pair blocks in pair order. The model is called once per pair, on exactly that pair's slice. |
| `BatchForecast.FilterForecast` | V2_multi_series_forecasting/V2_app.py:101-103 | Every row the forecast filter keeps carries the selected store and item. |
| `BatchForecast.FilterAppend` | V2_multi_series_forecasting/V2_app.py:101-103 | The filter keeps table order: the filter of a concatenation is the concatenation of the filters. |
| `BatchForecast.FilterBlock` | V2_multi_series_forecasting/V2_app.py:101-103 | Filtering a block tagged with pair q by pair p keeps the whole block when p = q and nothing otherwise. |
| `BatchForecast.RecoverBlock` | V2_multi_series_forecasting/V2_app.py:46-50 | The pairs are distinct and each block is tagged with its own pair. So filtering the concatenation by a pair gives exactly that pair's block, and nothing for an absent pair. |
| `BatchForecast.SelectedForecast` | V2_multi_series_forecasting/V2_app.py:101-103 | After a successful run, the forecast rows for a selected pair are the model's forecast on that pair's rows, tagged with the pair. They are empty when the pair never occurs. |
| `Selection.InsertUnique` | V2_multi_series_forecasting/V2_app.py:79-80 | Inserting a value into a strictly increasing list keeps it strictly increasing and adds exactly that value. |
| `Selection.SortedUnique` | V2_multi_series_forecasting/V2_app.py:79-80 | `sorted(unique(...))` is strictly increasing and holds exactly the values of its input. |
| `Selection.Stores` | V2_multi_series_forecasting/V2_app.py:79 | The store selector is strictly increasing and lists exactly the stores of the table. |
| `Selection.Items` | V2_multi_series_forecasting/V2_app.py:80 | The item selector is strictly increasing and lists exactly the items of the table. |
| `Selection.Dashboard` | V2_multi_series_forecasting/V2_app.py:78-108 | Nothing is computed unless the loader returned both tables. Otherwise the view holds both selector lists and the forecast and history rows filtered to the selected pair. |
| `Selection.DashboardShowsSelectedPair` | V2_multi_series_forecasting/V2_app.py:101-108 | After a successful load, the forecast shown for a selected pair is the model's forecast on exactly the history shown, tagged with the pair. Both are empty for a pair that never occurs. |
| `Selection.SliceOfAbsentPair` | V2_multi_series_forecasting/V2_app.py:106-108 | The history filter for a pair that never occurs is empty. |

## Left out

- CSV reading and date parsing (V1_sales_forecasting/V1_app.py:15-21, V2_multi_series_forecasting/V2_app.py:23-30) are I/O. A table is a sequence of records with day-number dates, and a missing file is `None`.
- The STL fit, the `3 * std` threshold, the isolation-forest fit and Prophet's fit and predict are library numerics. Their results are parameters. The model claims nothing about forecast length, interval order or the fraction of flagged points.
- The backtest (`get_backtest_metrics`, V2_multi_series_forecasting/V2_app.py:56-72, with its button and metric charts at lines 89-92 and 162-194) is one call into cross-validation and performance metrics. It has no table logic of its own.
- Floating point is left out. Sales, residuals and scores are exact reals, so summation order does not matter. NaN values are not modelled (for example, a NaN residual compares false both ways).
- Anomalies.TopAnomalies: the order among rows with equal scores is not stated, because the source sorts with an unstable sort. The model uses a stable insertion sort.
- The column selection and number formatting of the top-anomaly table (line 131) are display. The model keeps whole rows.
- Prophet output columns other than the date, estimate and bounds are left out. So are the series' other columns, which the rename at V2_multi_series_forecasting/V2_app.py:39 only relabels.
- Streamlit, Plotly and tqdm are UI and framework plumbing, left out. This covers page setup, messages, widgets, session state, charts, progress bars and `@st.cache_data` memoisation. The script-level `st.stop()` after a failed V1 load (V1_sales_forecasting/V1_app.py:62-66) is the `Failure` result of `LoadAndPreprocess`.
