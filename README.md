# Seoul_House: district price forecasting, modelled in Dafny

Seoul_House is a Streamlit app. It reads a wide Excel sheet of Seoul apartment
price indices, with one row per district and one column per month. It reshapes
the sheet into a long table of `(date, district, price)` rows. Then, for every
district, it compares three forecasting model families: Prophet, linear
regression and random forest. It picks the most accurate one and reports
Prophet's expected change over the coming months.

This project models the two functions that hold the logic:

- `load_excel_data` (`utils/data_loader.py`) is modelled as pure functions on
  sequences of rows (modules `DataLoader`, `Seqs`, `Sorting`, `Strings`). It
  chooses the district column, drops the level-one column, melts the sheet,
  trims district names and drops rows with excluded keywords. It normalises
  and parses dates, drops rows whose date or price does not convert, and sorts
  by district then date.
- `predict_district_prices` (`utils/predictor.py`) is modelled imperatively,
  like the source:
  - `Backtest.CrossValidate` is the walk-forward validation loop. Twelve-month
    test windows are cut back from the end of the history, each model is scored
    on each window, a failure scores the 100.0 penalty, and the scores are
    averaged. A history too short for any window gets the 99.9 sentinel.
  - `Predictor.PredictDistrictPrices` is the loop over districts. It runs the
    validation, refits the three models on the whole history and picks the best
    model by minimum error, with ties going to Prophet, then Linear. It computes
    the change from the last price to Prophet's last forecast, collects one
    report row and one forecast bundle per district, and sorts the rows by
    change, largest first.

  Each loop is proved equal to a specification function (`AverageError`,
  `Predict`). The properties are proved about those functions.

The libraries the code calls are parameters, not code:

- `Converters` holds `str()` of numbers and timestamps, `pd.to_datetime` and
  `pd.to_numeric`.
- `Models` holds fit-and-predict for each model family, and Prophet's
  `make_future_dataframe`.
- `Upload.File(read)` holds the result of `pd.read_excel`.

A library call that raises is `None`.

## Model

| member | source | states |
|---|---|---|
| Seqs.Filter | utils/data_loader.py:47-48 | a boolean-mask selection keeps exactly the rows satisfying the mask and adds none |
| Seqs.FilterConcat | utils/data_loader.py:47-48 | selecting from a concatenation selects from each part, so kept rows keep their relative order |
| Seqs.Collect | utils/data_loader.py:64-71 | convert-then-`dropna` keeps the converted value of every row that converts, and only such values |
| Seqs.CollectConcat | utils/data_loader.py:64-71 | convert-then-`dropna` keeps relative order: it distributes over concatenation |
| Seqs.SameElements | utils/predictor.py:164 | a reordering holds exactly the values it reorders |
| Seqs.Distinct | utils/predictor.py:18 | `unique()` has the same values as the column, each exactly once |
| Sorting.SortBy | utils/data_loader.py:74 | the sort returns a permutation of its input |
| Sorting.SortBySorted | utils/data_loader.py:74 | for any total preorder the result is sorted |
| Sorting.FilterSorted | utils/predictor.py:29 | selecting rows from a sorted table leaves them sorted |
| Strings.Strip | utils/data_loader.py:44 | `str.strip()` returns the text found in the input with only white space around it, and neither end of the result is white space |
| Strings.StripKeepsOut | utils/data_loader.py:59 | stripping never introduces a character |
| Strings.StripIdempotent | utils/data_loader.py:44 | stripping twice is stripping once |
| Strings.ReplaceChar | utils/data_loader.py:59 | `replace('.', '-')` changes every `.` and nothing else, position by position |
| Strings.ReplaceAbsent | utils/data_loader.py:59 | replacing an absent character is the identity |
| Strings.ContainsAt | utils/data_loader.py:47 | `keyword in x` holds exactly when the keyword occurs at some position of `x` |
| Strings.LexLeTotal | utils/data_loader.py:74 | string order compares every pair of district names |
| Strings.LexLeAntisymmetric | utils/data_loader.py:74 | names ordered both ways are equal |
| Strings.LexLeTransitive | utils/data_loader.py:74 | string order is transitive |
| DataLoader.DistrictColumn | utils/data_loader.py:21-25 | `자치구별(2)` when present, else the second column, else failure, and the choice is a column of the sheet |
| DataLoader.DropColumn | utils/data_loader.py:31-33 | no `자치구별(1)` column is left, and every other column stays |
| DataLoader.KeptHeader | utils/data_loader.py:31-33 | a column not labelled `자치구별(1)` keeps its label through the drop |
| DataLoader.DroppedHeaders | utils/data_loader.py:31-33 | dropping `자치구별(1)` brings in no label |
| DataLoader.IndexOf | utils/data_loader.py:36 | a label lookup finds the first column with that label, or fails exactly when none has it |
| DataLoader.Melt | utils/data_loader.py:36 | the long table has one row per value column per sheet row |
| DataLoader.MeltAt | utils/data_loader.py:36 | sheet row `i` of value column `j` becomes the row holding that row's district, the column label as date and the cell as price |
| DataLoader.Reshape | utils/data_loader.py:21-39 | choosing the district column, dropping `자치구별(1)` and melting, which fails on a frame that already has a `price` column or whose district column is labelled `date`; when it fails is stated by `ReshapeFails`, the layout by `MeltAt` |
| DataLoader.ReshapeFails | utils/data_loader.py:21-39 | reshaping fails exactly when: there is no `자치구별(2)` column and the second column is missing, is the dropped `자치구별(1)` or is labelled `date`; or some column is labelled `price` |
| DataLoader.NormalizeDateText | utils/data_loader.py:59 | the text handed to the date parser contains no `.` and is no longer than the input |
| DataLoader.ParseDate | utils/data_loader.py:53-62 | a value that is already a Timestamp is returned unchanged |
| DataLoader.CellText | utils/data_loader.py:44 | `str()` of a cell, also used at line 59; an empty cell prints as `nan` (used by `BlankDistrictDropped`) |
| DataLoader.ToNumeric | utils/data_loader.py:70 | `pd.to_numeric(errors='coerce')` on one cell: numbers stay, empty cells and Timestamps give NaN, text goes to the converter; its effect on the table is stated by `ParsePrices` |
| DataLoader.TrimmedRows | utils/data_loader.py:44 | each row's district becomes the printed cell with only the white space around it removed, neither of its ends is white space, and date and price are carried over |
| DataLoader.TrimmedRow | utils/data_loader.py:44 | one row's trimmed district is its printed cell stripped of the white space around it |
| DataLoader.KeepDistricts | utils/data_loader.py:45-48 | a row is kept exactly when its trimmed district contains none of the five keywords |
| DataLoader.ParseDates | utils/data_loader.py:64-67 | rows whose date parses are kept with the parsed date, and no other rows |
| DataLoader.ParsePrices | utils/data_loader.py:69-71 | rows whose price converts are kept with the numeric price, and no other rows |
| DataLoader.Clean | utils/data_loader.py:44-71 | steps 5-1 to 5-3 in order; `CleanContents` states its rows exactly and `CleanConcat` its order |
| DataLoader.Survives | utils/data_loader.py:44-71 | the three conditions a melted row must meet to reach the cleaned table, as the record it becomes; used by `CleanContents` |
| DataLoader.KeptFrom | utils/data_loader.py:44-48 | a kept row is the trimmed form of some melted row and is not excluded |
| DataLoader.CleanedSurvives | utils/data_loader.py:44-71 | every cleaned row comes from a melted row that survives all three cleaning steps |
| DataLoader.SurvivorCleaned | utils/data_loader.py:44-71 | every melted row that survives all three cleaning steps is in the cleaned table |
| DataLoader.CleanContents | utils/data_loader.py:44-71 | the cleaned rows are exactly the survivors: trimmed district not excluded, date parses, price numeric |
| DataLoader.CleanConcat | utils/data_loader.py:44-71 | cleaning keeps the relative order of the rows it keeps |
| DataLoader.BlankDistrictDropped | utils/data_loader.py:44-47 | an empty district cell prints as `nan`, an excluded keyword, so its row never survives |
| DataLoader.RecordLeTotalPreorder | utils/data_loader.py:74 | ordering by district then date is a total preorder |
| DataLoader.LoadExcelData | utils/data_loader.py:9-80 | no upload or an unreadable file gives `None`; for a readable sheet the result is `None` exactly when reshaping fails or the long table is empty; a result is sorted by district then date with every district trimmed and not excluded |
| DataLoader.NoDataRowsFails | utils/data_loader.py:36-80 | a sheet with a header row and no data rows melts to an empty table, on which the mask selects no columns and the `date` lookup raises, so loading gives `None` |
| DataLoader.PriceColumnFails | utils/data_loader.py:36-80 | a sheet that already has a `price` column makes the melt raise, so loading gives `None` |
| DataLoader.DateColumnFails | utils/data_loader.py:22-80 | a sheet with no `자치구별(2)` column whose second column is labelled `date` gives `None`: the melted date column and the district column are both renamed to `district` |
| DataLoader.LoadExcelDataContents | utils/data_loader.py:36-74 | a sheet that melts to a non-empty table loads, and the result is a permutation of the cleaned rows, and contains a row exactly when some melted row survives as it |
| Backtest.CvDepth | utils/predictor.py:41-47 | the depth is 3 when `n > 60`, 0 exactly when `n <= 36`, 1 otherwise, and each window leaves at least 25 training rows |
| Backtest.SliceBound | utils/predictor.py:57-62 | a negative slice bound counts back from the end, and every bound is clamped to the sequence |
| Backtest.PySlice | utils/predictor.py:57-62 | Python's `iloc[start:stop]` with negative bounds; its use in the windows is stated by `WindowSlices` and `LastWindowSlice` |
| Backtest.TrainSlice | utils/predictor.py:57 | `iloc[:-12k]`; `WindowSlices` states it is every row before window `k` |
| Backtest.TestSlice | utils/predictor.py:58-62 | `iloc[-12:]` for `k = 1`, `iloc[-12k:-(12k-12)]` otherwise; `WindowSlices` states it is the twelve rows of window `k` |
| Backtest.WindowSlices | utils/predictor.py:55-62 | window `k` tests the 12 rows starting `12k` rows from the end and trains on exactly the rows before them |
| Backtest.ValidatedWindows | utils/predictor.py:41-62 | every window the depth rule asks for has 12 test rows and at least 25 training rows |
| Backtest.LastWindowSlice | utils/predictor.py:58-62 | the general formula would give an empty test slice for `k = 1`, and the special case gives the last 12 rows |
| Backtest.WindowsCoverTail | utils/predictor.py:51-62 | the test windows, visited from `k = depth` down to 1, tile the last `12 * depth` rows in chronological order |
| Backtest.RelativeErrorSum | utils/predictor.py:75 | the summed relative error is never negative, and is zero for a perfect prediction |
| Backtest.Mape | utils/predictor.py:75 | MAPE is never negative, and is zero for a perfect prediction |
| Backtest.ScoreWindow | utils/predictor.py:70-93 | a window's score is never negative, is exactly 100.0 when the fit or prediction fails, and is 0 for a perfect prediction |
| Backtest.WindowScore | utils/predictor.py:55-93 | the score of window `k` on its own slices; `WindowErrorsAt` states that entry `depth - k` of the scores is this one |
| Backtest.WindowErrors | utils/predictor.py:51-93 | each model gets exactly one score per window |
| Backtest.WindowErrorsAt | utils/predictor.py:51-93 | score `j` is the score of window `depth - j` on its own slices, so a failure never displaces or aborts another window |
| Backtest.Scores | utils/predictor.py:51-93 | a loop from window `k` down to window 1 collects exactly `k` scores |
| Backtest.ScoresAt | utils/predictor.py:51-93 | the `j`-th collected score is the score of window `k - j` |
| Backtest.ScoresStep | utils/predictor.py:51-93 | collecting from window `k` is appending window `k`'s score, then collecting from window `k - 1` |
| Backtest.WindowStep | utils/predictor.py:51-93 | one loop iteration appends the score of window `k`'s own train and test slices |
| Backtest.AverageOfWindows | utils/predictor.py:95-98 | once the loop has collected every window's score, their mean is the model's final error |
| Backtest.SumAtLeast | utils/predictor.py:96-98 | a sum is at least its length times any lower bound of its entries |
| Backtest.SumAtMost | utils/predictor.py:96-98 | a sum is at most its length times any upper bound of its entries |
| Backtest.MeanAtLeast | utils/predictor.py:96-98 | `np.mean` is at least any lower bound of the entries |
| Backtest.MeanAtMost | utils/predictor.py:96-98 | `np.mean` is at most any upper bound of the entries |
| Backtest.AverageError | utils/predictor.py:95-102 | a model's final error is never negative, and is exactly 99.9 when there are no windows |
| Backtest.AllWindowsFailed | utils/predictor.py:71-98 | when every window fails for a model, its final error is exactly 100.0 |
| Backtest.CrossValidate | utils/predictor.py:36-102 | the validation loop returns, for each model, the mean of its window scores or the sentinel |
| Predictor.ChangePct | utils/predictor.py:134-136 | a finite change carries the current price to Prophet's last value, and for a positive current price its sign is the direction of the move; a zero current price gives an infinity of the move's sign, or NaN when both prices are zero |
| Predictor.ChangeAtLeastMeaning | utils/predictor.py:164 | the descending order puts larger finite changes first, `+inf` before everything and NaN last |
| Predictor.ChangeAtLeastTotalPreorder | utils/predictor.py:164 | the order of changes is a total preorder |
| Predictor.Min3 | utils/predictor.py:138 | `min` returns one of its arguments, no larger than any of them |
| Predictor.BestModel | utils/predictor.py:138-141 | the chosen model's error is the minimum; Prophet wins exactly when it ties or beats both, Linear when it beats Prophet and ties or beats RandomForest, RandomForest when it beats both |
| Predictor.Projection | utils/predictor.py:117-131 | one model's final forecast on the future dates; stated by `ProjectionFacts` |
| Predictor.Refit | utils/predictor.py:113-131 | step 2's three final fits on the whole history; stated by `RefitFacts` |
| Predictor.Finish | utils/predictor.py:113-159 | step 2 and the result row and bundle for one district; stated by `FinishFacts` |
| Predictor.ProjectionFacts | utils/predictor.py:117-131 | a final forecast exists exactly when the model predicts one value per date, and pairs each date with its prediction |
| Predictor.RefitFacts | utils/predictor.py:113-131 | the refit fails as soon as one fit fails, and otherwise the three forecasts are on the same future dates |
| Predictor.FinishFacts | utils/predictor.py:113-159 | step 2 fails exactly when a refit fails, the history is empty or Prophet's forecast is empty; otherwise the current price is the last historical price, the change runs to Prophet's last value, the best model has the minimum error, and the row and the bundle carry the same three errors |
| Predictor.DistrictRows | utils/predictor.py:29 | a district's rows are exactly the table's rows with that district |
| Predictor.HistoryChronological | utils/predictor.py:134 | on a table sorted like the loader's output, a district's history is in date order, so the current price is the one at the latest date |
| Predictor.Analyze | utils/predictor.py:29-159 | one district: its own rows, validated and refitted; `ShortHistoryPicksProphet` and, through `Finish`, `FinishFacts` state what it gives |
| Predictor.ShortHistoryPicksProphet | utils/predictor.py:100-141 | a district too short to validate gets 99.9 for every model and Prophet as best model |
| Predictor.AnalyzeAllFails | utils/predictor.py:24-159 | the loop fails exactly when some district fails |
| Predictor.AnalyzeAll | utils/predictor.py:24-159 | the loop over districts; `AnalyzeAllFails`, `AnalyzeAllSnoc` and `AnalyzeAllShape` state its failure and its contents |
| Predictor.AnalyzeAllSnoc | utils/predictor.py:24-159 | one district's iteration either ends the run or appends that district's row and stores its bundle under its name |
| Predictor.AnalyzeAllPrefixFails | utils/predictor.py:24-159 | a failure in one district ends the whole run |
| Predictor.AnalyzeAllShape | utils/predictor.py:143-159 | the loop appends one row per district in order and stores one bundle per district, each what that district's analysis gives |
| Predictor.ReportBeforeTotalPreorder | utils/predictor.py:164 | the report order is a total preorder |
| Predictor.Collate | utils/predictor.py:164 | the final sort; stated by `CollateFails` and `CollateFacts` |
| Predictor.CollateFails | utils/predictor.py:164 | the final step fails exactly when there are no districts or some district fails |
| Predictor.CollateFacts | utils/predictor.py:143-166 | the rows are sorted by change, largest first, and are a permutation of the rows the loop appended, so every district's report is among them; there is one row and one bundle per district, and each row matches the bundle stored under its district |
| Predictor.SortedReportsMatch | utils/predictor.py:143-164 | reordering the appended rows keeps every district's row, and each row still matches the bundle stored under its district |
| Predictor.DistrictsOfTable | utils/predictor.py:18 | the visited districts are exactly those of the table, and there are none exactly when the table is empty |
| Predictor.Predict | utils/predictor.py:10-166 | the whole function on the table's districts in order of first appearance; stated by `PredictFails` and `PredictFacts` |
| Predictor.SameFailures | utils/predictor.py:18-29 | a failing district of the list is a failing district of some row, and back |
| Predictor.PredictFails | utils/predictor.py:10-166 | the function fails exactly when the table is empty or some district of it fails |
| Predictor.PredictFacts | utils/predictor.py:10-166 | a result's rows are sorted by change and are a permutation of the rows the loop appended; every district of the table has its row there, with as many rows as districts; there is one bundle per district of the table, and each row and bundle is what validating and refitting that district's own rows gives |
| Predictor.PredictDistrictPrices | utils/predictor.py:10-166 | the loop with its appends, dict writes, early failure and final sort computes `Predict` |

## Left out

- Model internals are parameters (`Models.fitPredict`): Prophet's decomposition, least squares, and random-forest training with its fixed seed. So is how `make_future_dataframe` builds dates (`Models.futureDates`). `toordinal` is not modelled, because the fitters see dates as they are.
- `pd.read_excel`, `str()` of a number or a Timestamp, `pd.to_datetime` and `pd.to_numeric` on text are parameters (`Upload`, `Converters`).
- The Streamlit progress bar, the status text and `st.error` are left out. They are display side effects.
- Rounding of the current price and change, and the `%`-string formatting of the errors (utils/predictor.py:145-150), are left out.
  - Report rows hold the unrounded values.
  - The sort is by the unrounded change. Rounding is monotone, so any order the model produces is also descending in the rounded change. The converse does not hold for changes that differ but round alike.
- The order of tied rows is not stated for either sort; for both, sortedness and permutation are stated.
  - The loader sorts on two keys, which pandas does with a stable lexsort, so rows tied on district and date keep their cleaned order. `Sorting.SortBy` is an insertion sort and keeps that order too, but no lemma states it.
  - The report sort is on one key with pandas' default quicksort, which is not stable, so the order of reports with equal changes is left open.
- Seqs.Distinct: the order of first appearance is computed but not stated. Only the report rows depend on it, and only before the final sort.
- Predictor.ProjectionFacts: a model prediction whose length differs from the requested dates counts as a failure. The libraries always return one value per date, so this case is only a guard on the parameter.
- Prices and errors are exact reals, not float64.
  - The model does not cover NaN prices or NaN/inf predictions.
  - It does not cover floating-point error in MAPE or in the mean.
  - The one float effect kept is division by a zero current price, which numpy turns into an infinity or NaN.
- Duplicate column labels in the sheet are not modelled. `IndexOf` takes the first such column.
- A price cell that holds a Timestamp is treated as not numeric.
- Error paths of the code, which the model follows:
  - There is no per-district `try`. A failing final refit, an empty history or an empty Prophet forecast makes the whole call fail.
  - No district is skipped for having few rows.
  - A table with no rows makes the final `sort_values` raise, because the results frame has no change column.
  - A sheet with a column labelled `price` fails to load: from pandas 2.0 on, `melt` with `value_name='price'` raises on such a frame. pandas 1.x only warned and melted it; the model follows pandas 2.
  - A sheet with no `자치구별(2)` column whose second column is labelled `date` fails to load. The melt's `var_name='date'` then gives two `date` columns. The rename makes both of them `district`, and `df_melted['district']` is a frame with no `.str` accessor.
  - A sheet that melts to an empty long table (no data rows, or no value columns) fails to load: the keyword mask is then an empty object Series, which pandas reads as a list of column labels, and the `date` lookup raises.
- The stored Prophet forecast (`Bundle.prophet`) keeps only the date and the point forecast (`ds`, `yhat`). The source keeps Prophet's whole forecast frame, including `yhat_lower`, `yhat_upper` and the trend components. The stored history (`Bundle.history`) has no `date_ordinal` column. The source adds that column to the district's rows in place before storing them (utils/predictor.py:109, 154).
- app.py is not part of this model: widgets, session state, charts, Excel export.
