# Inventory analytics and demand forecasting: a Dafny model

This project models the core of a command-line inventory analytics tool. The tool takes a
table of stock-keeping-unit rows, cleans it, and reports on it:

- low-stock alerts, reorder suggestions, expiring items, turnover and seasonal groupings;
- a demand forecast from a regressor trained on features derived from the table.

The table is a sequence of rows. Each row maps column names to cells, and a cell is
`Num(real) | Text(string) | Date(day) | Missing`. Every column also has a dtype: numeric,
datetime or object. All numbers are mathematical reals. Each division is guarded: where
floating point would give an infinity or NaN, the model says so explicitly (usually a
`Missing` cell or a `None`).

Modules, one per source file or component:

- `Wrappers`, `Values`, `Tables`: `Option`/`Result`, cells and the order libraries sort them
  in, tables with selection, projection and column assignment.
- `DataLoader` (`src/data_loader.py`): Status normalisation, currency and trailing-`%`
  stripping, numeric coercion (the float parser is a parameter), derived metrics.
- `InventoryAnalysis` (`src/inventory_analyzer.py`): the `InventoryAnalyzer` class over a
  shared `DataFrame` object. It covers low-stock items, the inclusive expiry window (the current
  time is a parameter), and the date-column choice and error order of the seasonal analysis.
  It also covers the turnover column that `analyze_turnover` writes into the shared table.
- `Reorder` (`src/reorder_engine.py`): the `ReorderEngine` class. It covers the reorder list
  built row by row, the per-product demand estimate with round-half-even, and the seasonal
  suggestions.
- `Encoding`, `Ranking`, `Trend`, `Forecaster` (`src/demand_forecaster.py`): the
  `DemandForecaster` class and the features it prepares. `train` fixes the numeric/categorical
  split, the one-hot vocabulary and the ordered feature columns. `predict` aligns every input
  to exactly those columns. `Ranking` is the stable descending importance sort. `Trend` is
  `detect_trend`. The regressor is opaque: training is a function parameter `learn`, and a
  fitted model is a function from an aligned feature row to a prediction.
- `App` (`main.py`): `detect_available_features`, the menu gates and dispatch, and the
  forecasting branch. That branch renames the target, adds `day_index`, chooses the features,
  trains, builds the seven future rows with the most frequent category, forecasts, and
  detects the trend.

Behaviours of the code a reader may not expect:

- The menu tests whether a key is in the feature dictionary, not its value. Every key is
  always present, so options 2 to 8 are listed and accepted for every dataset
  (`App.EveryOptionListed`, `App.EveryChoiceAccepted`).
- With a Sales_Volume column, the low-stock report's stockout test is recomputed over the
  whole table. It replaces the Reorder_Level test instead of narrowing it
  (`InventoryAnalysis.SalesTestReplacesLevelTest`).
- `detect_trend` does not guard a first smoothed value of 0. The model reports no strength
  (`None`) there, not 0.
- For the values 1..10 with window 5, the smoothed series runs from 3 to 8. The strength is
  therefore (8 - 3) / 3 = 5/3 (`Trend.RampTrend`).
- A one-row training set is not accepted: the 80/20 split leaves no training rows and raises
  after the split and the vocabulary were already stored (`Forecaster.DemandForecaster.Train`).

## Model

| member | source | states |
|---|---|---|
| `DataLoader.CleanStatusCell` | src/data_loader.py:78-90 | every cleaned Status cell is the text Active or Inactive, whatever it held before |
| `DataLoader.CleanStatusInactiveIff` | src/data_loader.py:80-90 | a Status becomes Inactive exactly when, stripped of surrounding whitespace, it reads inactive or discontinued in any letter case |
| `DataLoader.CleanStatusNan` | src/data_loader.py:81-90 | the text a missing cell prints as ("nan") is cleaned to Active |
| `DataLoader.CleanStatusIdempotent` | src/data_loader.py:80-90 | cleaning an already cleaned Status text changes nothing |
| `DataLoader.CleanStatusColumn` | src/data_loader.py:78-92 | with a Status column each row's Status is the cleaned form of its old Status (so Active or Inactive); every other cell is kept and no column is added; without a Status column the table is unchanged |
| `DataLoader.CleanStatusColumnIdempotent` | src/data_loader.py:78-92 | cleaning the Status column twice is cleaning it once |
| `DataLoader.StripCurrency` | src/data_loader.py:51 | the Unit_Price text loses every `$`, `€`, `£` and `,` and is no longer than before |
| `DataLoader.StripCurrencyKeepsOthers` | src/data_loader.py:51 | every other character keeps its number of occurrences |
| `DataLoader.StripCurrencyAppend` | src/data_loader.py:51 | the removal works character by character, so the kept characters stay in order |
| `DataLoader.StripCurrencyIdempotent` | src/data_loader.py:51 | stripping twice is stripping once |
| `DataLoader.StripPercent` | src/data_loader.py:45 | the result is a prefix of the text with no trailing `%`, and only `%` characters were removed |
| `DataLoader.StripPercentIdempotent` | src/data_loader.py:45 | stripping the percent signs twice is stripping them once |
| `DataLoader.PercentCell` | src/data_loader.py:43-46 | a percentage number is divided by 100 and a missing cell stays missing; a text fails exactly when its stripped form does not parse, a date always fails; every success is a number or missing |
| `DataLoader.PriceCell` | src/data_loader.py:49-52 | a price number or missing cell is kept; a text fails exactly when its form without currency marks does not parse, a date always fails; every success is a number or missing |
| `DataLoader.CoerceCell` | src/data_loader.py:58 | after coercion a cell is always a number, and numbers are kept |
| `DataLoader.CoerceCellParsed` | src/data_loader.py:58 | a parseable text becomes its number and any other non-number cell becomes 0 |
| `DataLoader.ConvertColumn` | src/data_loader.py:43-52 | a column conversion fails exactly when some cell fails, else rewrites that column only |
| `DataLoader.ConvertIfPresent` | src/data_loader.py:43-52 | a conversion guarded by the column's presence fails exactly when the column exists and one of its cells fails; otherwise the column holds the converted cells and no other column changes |
| `DataLoader.CleanPercentAndPrice` | src/data_loader.py:42-52 | fails exactly when a percentage or price text does not parse; otherwise each percentage cell is its stripped value over 100, each Unit_Price cell its value without currency marks, and no other column changes |
| `DataLoader.CoerceColumns` | src/data_loader.py:55-58 | the loop leaves every present listed column holding the coerced value in every row and every other column unchanged |
| `DataLoader.CleanNumericColumns` | src/data_loader.py:40-60 | fails exactly when the percentage or price step fails; otherwise the percentage and Unit_Price cells are the converted originals, every cell of each present quantity column (Stock_Quantity, Reorder_Level, Sales_Volume, Reorder_Quantity) is the coerced original cell, which is always a number, and every other column is unchanged |
| `DataLoader.DaysOfInventory` | src/data_loader.py:98 | stock / sales when sales is non-zero; 0 for non-zero stock over zero sales (the replaced infinity); missing for 0 / 0 |
| `DataLoader.Derive` | src/data_loader.py:97-106 | a derived column is computed cell by cell from its two inputs when both exist; otherwise the table is unchanged; no other cell changes |
| `DataLoader.CalculateAdditionalMetrics` | src/data_loader.py:94-107 | the row count and every column are kept, and each metric column exists when both of its inputs do |
| `DataLoader.MetricsRow` | src/data_loader.py:94-107 | with both inputs present, Days_Of_Inventory follows the rule above, Inventory_Value is stock × price and Inventory_Turnover_Rate is sales / stock; every other cell of the row is kept |
| `InventoryAnalysis.DaysUntilStockout` | src/inventory_analyzer.py:67 | the stockout estimate is defined exactly for numeric stock and non-zero sales, and then equals 30 × stock / sales |
| `InventoryAnalysis.StockoutWithinDays` | src/inventory_analyzer.py:67-68 | where the estimate is finite, a row is selected exactly when it is at most the threshold |
| `InventoryAnalysis.StockoutFrame` | src/inventory_analyzer.py:66-67 | the working copy gains days_until_stockout exactly with Sales_Volume, and keeps every other cell |
| `InventoryAnalysis.LowStockColumns` | src/inventory_analyzer.py:51-69 | the report starts with Product_Name and Stock_Quantity, Product_Name appears only once, and the columns keep the order Product_Name, Stock_Quantity, Catagory, Supplier_Name, Reorder_Level, days_until_stockout |
| `InventoryAnalysis.LowStockOptional` | src/inventory_analyzer.py:52-69 | Catagory, Supplier_Name and Reorder_Level are reported exactly when present, days_until_stockout exactly with Sales_Volume, and no other column is reported |
| `InventoryAnalysis.LowStockErrors` | src/inventory_analyzer.py:47-75 | ValueError exactly without Stock_Quantity; otherwise a KeyError exactly without Product_Name |
| `InventoryAnalysis.LowStockResult` | src/inventory_analyzer.py:57-75 | with both columns the report has the listed columns and one projected row per selected row, in table order |
| `InventoryAnalysis.LowStockRowsCount` | src/inventory_analyzer.py:57-73 | a row is reported, as often as it occurs, exactly when it passes the stock test and is Active (if Status exists) |
| `InventoryAnalysis.SalesTestReplacesLevelTest` | src/inventory_analyzer.py:58-68 | with Sales_Volume, a row at or below its Reorder_Level is dropped unless its stockout estimate passes |
| `InventoryAnalysis.LowStockQuirkExample` | src/inventory_analyzer.py:58-68 | 5 in stock against a level of 10 and 1 sold per month passes the level test but is not reported |
| `InventoryAnalysis.InventoryAnalyzer.GetLowStockItems` | src/inventory_analyzer.py:42-75 | the step-by-step selection and column list give exactly the specified report |
| `InventoryAnalysis.ExpiringColumns` | src/inventory_analyzer.py:88-92 | Product_Name and Expiration_Date, then Catagory and Stock_Quantity exactly when present, in that order, and no other column |
| `InventoryAnalysis.InventoryAnalyzer.GetExpiringSoon` | src/inventory_analyzer.py:77-94 | ValueError without Expiration_Date; otherwise the in-window rows projected to the listed columns, or a KeyError exactly without Product_Name |
| `InventoryAnalysis.InventoryAnalyzer.ExpiringCount` | src/inventory_analyzer.py:83-86 | a row is kept, as often as it occurs, exactly when its date lies in [today, today + days] |
| `InventoryAnalysis.InventoryAnalyzer.AnalyzeSeasonalTurnover` | src/inventory_analyzer.py:8-37 | picks the first date-typed column of Date_Received, Last_Order_Date, Expiration_Date; errors in the order no date, no Sales_Volume, bad choice; succeeds exactly when a date column and Sales_Volume exist and the choice is 1 or 2 |
| `InventoryAnalysis.WithTurnover` | src/inventory_analyzer.py:98-104 | an existing rate column is reused, else sales/stock is added when both exist, else ValueError |
| `InventoryAnalysis.TurnoverRates` | src/inventory_analyzer.py:101 | one rate per row; a rate exists exactly for numeric sales over a non-zero numeric stock, and then rate × stock = sales |
| `InventoryAnalysis.WithTurnoverRates` | src/inventory_analyzer.py:100-101 | the rate column is appended as the last column; each rate is the quotient sales / stock, a number exactly when both are numbers and stock is non-zero; every other cell is kept |
| `InventoryAnalysis.WithTurnoverIdempotent` | src/inventory_analyzer.py:98-102 | a second turnover analysis finds the column and changes nothing |
| `InventoryAnalysis.InventoryAnalyzer.AnalyzeTurnover` | src/inventory_analyzer.py:96-106 | the shared table is replaced by the table with the rate column, or left alone on error; grouping is by Catagory when present |
| `Reorder.AtLeastTen` | src/reorder_engine.py:29-31 | `max(10, v)` is a number of at least 10, and is v whenever v exceeds 10 |
| `Reorder.SuggestedQuantityBound` | src/reorder_engine.py:26-31 | without Reorder_Quantity the suggestion is at least 10; it is two weeks of sales, or twice the level, whenever that exceeds 10 |
| `Reorder.MakeItemFields` | src/reorder_engine.py:18-46 | identifiers default to N/A; Current_Stock and Reorder_Level are the row's cells; the suggested quantity is Reorder_Quantity when that column exists, else a number of at least 10; supplier, price and warehouse fields appear exactly with their columns; the cost is quantity × price and appears exactly with the price |
| `Reorder.ReorderSelection` | src/reorder_engine.py:16-17 | one item per selected row in order; a row is selected, as often as it occurs, exactly when stock ≤ level and Status is Active |
| `Reorder.ReorderItemsAppend` | src/reorder_engine.py:16-48 | one more row adds its item at the end exactly when it needs reordering |
| `Reorder.ReorderEngine.GenerateReorderList` | src/reorder_engine.py:8-50 | ValueError without any of the three required columns; otherwise the loop builds exactly the specified list |
| `Reorder.RoundHalfEven` | src/reorder_engine.py:62 | the result is within a half of x, and even at a tie |
| `Reorder.RoundHalfEvenUnique` | src/reorder_engine.py:62 | it is the only integer with that property |
| `Reorder.DailyDemand` | src/reorder_engine.py:61-62 | 30 × the estimate equals monthly sales × days |
| `Reorder.FirstMatchIndex` | src/reorder_engine.py:57-61 | the first row whose Product_ID equals the id, or none when no row matches |
| `Reorder.FirstOfMatches` | src/reorder_engine.py:57-61 | the selected rows are empty exactly without a match, and otherwise begin with the first match |
| `Reorder.ReorderEngine.PredictFutureDemand` | src/reorder_engine.py:52-62 | None exactly without Product_ID, Sales_Volume or a match; otherwise the first match's sales / 30 × days, rounded half to even, or a ValueError when those sales are NaN |
| `Reorder.SeasonKeysIff` | src/reorder_engine.py:70 | the group keys are exactly the non-missing Season values that occur |
| `Reorder.ReorderEngine.SeasonalReorder` | src/reorder_engine.py:64-76 | None unless Season and Quantity Sold exist; a TypeError exactly when a row with a Season holds a text or date Quantity Sold; otherwise one entry per distinct season in ascending order, 1.1 × its group total, adding up to 1.1 × the grand total |
| `Encoding.SplitFeatures` | src/demand_forecaster.py:29-30 | the numeric and categorical lists are disjoint, cover every input column, keep the input order, and date and object columns land in the categorical list |
| `Encoding.SplitKeepsOrder` | src/demand_forecaster.py:29-30 | each list is a subsequence of the input columns |
| `Encoding.DateSeconds` | src/demand_forecaster.py:79-82 | a date becomes its seconds since the epoch, and NaT becomes the 64-bit integer minimum floor-divided by 10^9 (-9223372037) |
| `Encoding.Fit` | src/demand_forecaster.py:86-87 | one vocabulary per categorical column, in column order, holding that column's distinct values sorted |
| `Encoding.FitOk` | src/demand_forecaster.py:86-87 | each fitted vocabulary is strictly increasing and the columns are distinct |
| `Encoding.IndicatorNamesIff` | src/demand_forecaster.py:94 | an indicator column exists exactly for a fitted column and one of its fitted categories |
| `Encoding.IndicatorNamesDistinct` | src/demand_forecaster.py:94 | indicator columns never repeat |
| `Encoding.FeatureColumnsDistinct` | src/demand_forecaster.py:42 | the frozen feature columns are distinct |
| `Encoding.OneHot` | src/demand_forecaster.py:86-90 | a seen category lights exactly one indicator and an unseen one lights none |
| `Encoding.UnseenCategory` | src/demand_forecaster.py:86-90 | at predict time an unseen value aligns to 0 in every indicator of its column |
| `Encoding.SeenCategory` | src/demand_forecaster.py:86-90 | at predict time a seen value aligns to 1 in its own indicator and 0 in the others |
| `Encoding.KeptNumeric` | src/demand_forecaster.py:97 | dropping the categorical columns leaves exactly the numeric ones, in order |
| `Encoding.EncodedFrameAligned` | src/demand_forecaster.py:94-98 | the encoded frame holds, for every row, the aligned value of every column |
| `Encoding.ZeroFillAligned` | src/demand_forecaster.py:100-102 | zero-filling appends each absent numeric training column once, in order, and keeps every cell aligned |
| `Encoding.ZeroFillNothing` | src/demand_forecaster.py:100-102 | with every numeric column present, zero-filling adds nothing |
| `Encoding.Reindex` | src/demand_forecaster.py:107-108 | the reindexed frame has exactly the requested columns, in order, with the same height |
| `Encoding.ReindexAligned` | src/demand_forecaster.py:106-108 | reindexing to the feature columns fills absent ones with 0 and keeps the frame aligned |
| `Ranking.Zip` | src/demand_forecaster.py:58-61 | pairs each feature with its importance, up to the shorter list |
| `Ranking.SortDescendingCorrect` | src/demand_forecaster.py:63 | the sorted report is a permutation of its input, non-increasing, and keeps feature order among equal importances |
| `Ranking.SortDescendingSorted` | src/demand_forecaster.py:63 | the sorted report has non-increasing importances |
| `Ranking.SortDescendingStable` | src/demand_forecaster.py:63 | for every importance, the entries with it keep their input order |
| `Ranking.InsertDescendingStable` | src/demand_forecaster.py:63 | inserting a feature puts it after every earlier feature of the same importance |
| `Ranking.FormatImportanceKeys` | src/demand_forecaster.py:56-63 | with one importance per column, the report's keys are the feature columns, each as often as it occurs, in non-increasing order |
| `Trend.WindowMean` | src/demand_forecaster.py:123 | a window's mean exists exactly when all its cells are numbers, and then times the window length is their sum |
| `Trend.RollingMeans` | src/demand_forecaster.py:123 | one mean per trailing window position, n - w + 1 of them, defined exactly when every cell of that window is a number |
| `Trend.Relative` | src/demand_forecaster.py:138-141 | the relative change is defined exactly for a non-zero base, and then times the base is the change |
| `Trend.AsFloat` | src/demand_forecaster.py:123 | the float64 conversion in front of the rolling mean keeps numbers and missing cells, reads a text as the number it parses to, and fails exactly on a date or an unparseable text |
| `Trend.DetectTrend` | src/demand_forecaster.py:110-123 | ValueError exactly when the column is absent; "insufficient data" with strength 0 for a clamped window below 2; otherwise DataError("No numeric types to aggregate") exactly for a datetime column or one with a cell that cannot be converted to float, else the trend of the converted values |
| `Trend.NumericTrend` | src/demand_forecaster.py:110-123 | on a present, non-datetime column of numbers the trend is that of the values themselves |
| `Trend.TrendInsufficientIff` | src/demand_forecaster.py:114-131 | on numbers, "insufficient data" with strength 0 exactly when the window is below 2 or the series is no longer than the window |
| `Trend.TrendDirection` | src/demand_forecaster.py:133-141 | increasing exactly when the last mean exceeds the first (ties are decreasing); the strength is the change relative to the first mean, undefined when it is 0 |
| `Trend.RampTrend` | src/demand_forecaster.py:110-141 | 1..10 with window 5 is increasing with strength 5/3 |
| `Forecaster.DemandForecaster.constructor` | src/demand_forecaster.py:10-21 | a new forecaster is untrained, with no model, encoder or columns |
| `Forecaster.FillAbsent` | src/demand_forecaster.py:100-102 | the zero-fill loop equals the zero-fill specification |
| `Forecaster.TrainingConsistent` | src/demand_forecaster.py:29-30 | after training, both lists are distinct and there is one well-formed vocabulary per categorical column |
| `Forecaster.TrainingFrame` | src/demand_forecaster.py:32-42 | the training frame needs no zero-fill and its columns are the numeric columns then the indicators, all distinct |
| `Forecaster.DemandForecaster.PreprocessFeatures` | src/demand_forecaster.py:76-108 | refits the encoder in training; outside training it fails exactly without an encoder or with a categorical column absent, and otherwise yields exactly the feature columns, aligned |
| `Forecaster.DemandForecaster.Predictions` | src/demand_forecaster.py:65-69 | fails exactly while untrained (ValueError) or when a categorical training column is absent (KeyError naming the absent ones); else one prediction per row |
| `Forecaster.DemandForecaster.Predict` | src/demand_forecaster.py:65-69 | the preprocessing and the regressor give exactly the specified predictions |
| `Forecaster.DemandForecaster.ForecastFuture` | src/demand_forecaster.py:71-74 | the forecast is the prediction, one value per input row |
| `Forecaster.PredictOnTrainingColumns` | src/demand_forecaster.py:65-69 | after training, predicting on the training columns never fails and gives one value per row |
| `Forecaster.DemandForecaster.FeatureImportance` | src/demand_forecaster.py:149-151 | ValueError while untrained; otherwise a non-increasing, stable permutation of the feature/importance pairs |
| `Forecaster.ImportanceKeys` | src/demand_forecaster.py:56-63 | the report's keys are the feature columns, each once |
| `Forecaster.TrainingPreprocessed` | src/demand_forecaster.py:32 | preprocessing in training mode yields the refitted encoder and the encoded frame, whose columns are the numeric columns then the indicators, all distinct |
| `Forecaster.DemandForecaster.SetSplit` | src/demand_forecaster.py:29-30 | stores the numeric and the other columns, each distinct, and changes no other field |
| `Forecaster.DemandForecaster.EncodeForTraining` | src/demand_forecaster.py:32 | the encoder after training and the encoded training frame |
| `Forecaster.DemandForecaster.SplitAndEncode` | src/demand_forecaster.py:28-32 | stores the split and the encoder, keeps the training state, and yields the encoded training frame |
| `Forecaster.DemandForecaster.Commit` | src/demand_forecaster.py:39-43 | stores the fitted model, freezes the feature columns and marks the forecaster trained, keeping the split and the encoder |
| `Forecaster.DemandForecaster.Train` | src/demand_forecaster.py:23-54 | zero rows raise before any field changes; otherwise the split and vocabulary are replaced; with two or more rows the model is trained and the feature columns are frozen |
| `App.TargetColumn` | main.py:114 | Stock_Quantity exactly when present, else Sales_Volume |
| `App.DateColumn` | main.py:121-122 | Date_Received when present, else Last_Order_Date when present, else none |
| `App.DetectAvailableFeatures` | main.py:33-50 | all seven keys are present, each with its column-presence formula |
| `App.AvailableByColumns` | main.py:38-48 | the `all`/`any` list tests are the column-by-column conjunctions and disjunctions |
| `App.ChoiceNumber` | main.py:77-109 | a typed text names option n exactly when it is the single digit n |
| `App.MenuOptions` | main.py:9-31 | the listed options are exactly 1, 9 and those whose key is in the dictionary, in increasing order |
| `App.DispatchCorrect` | main.py:77-109 | a choice runs option n exactly when it is n's text and n is enabled; anything else is invalid |
| `App.EveryOptionListed` | main.py:16-29 | for every dataset all nine options are listed |
| `App.EveryChoiceAccepted` | main.py:81-109 | for every dataset every option's text runs that option |
| `App.MenuIgnoresValues` | main.py:16-29 | the menu depends only on the dictionary's keys |
| `App.DispatchIgnoresValues` | main.py:81-109 | the dispatch depends only on the dictionary's keys |
| `App.RenameColumn` | main.py:115 | the target's cells move to demand; every other column is kept |
| `App.RenamedTarget` | main.py:114-115 | renaming keeps the date columns and Catagory, and demand holds the target's values, or the dataset's own demand column when there is no target |
| `App.MinDay` | main.py:124 | the earliest date of the column, skipping missing ones |
| `App.DayOffsets` | main.py:124 | offsets are whole numbers at least 0, 0 is attained, differences between dates are kept, and missing dates stay missing |
| `App.DayIndexBounds` | main.py:120-134 | day_index is at least 0 and attains 0; without a date column it is the row index 0..n-1 |
| `App.ModelFeatures` | main.py:118-134 | day_index with a date column, Catagory when present, and the row-index day_index only when neither applies |
| `App.AddDayIndex` | main.py:121-125 | adds a numeric day_index of date offsets, keeping demand and Catagory |
| `App.AddRowIndex` | main.py:131-133 | adds a numeric day_index holding the row numbers 0..n-1, keeping the demand column |
| `App.BuildFeatures` | main.py:117-133 | the chosen features are the specified ones, each present, day_index numeric with the specified values, Catagory and demand unchanged |
| `App.PrepareForecast` | main.py:111-134 | the prepared table has every chosen feature and, whenever the dataset has a target or its own demand column, the demand column, with the values specified above |
| `App.DayIndexMax` | main.py:153 | the largest day_index; a TypeError when a value is missing or the column is empty |
| `App.ModeCorrect` | main.py:158 | the mode is a most frequent present value, the smallest among ties; a KeyError when every value is missing |
| `App.FutureRows` | main.py:152-159 | seven rows with day_index last + 1 .. last + 7, each with the category when one is given |
| `App.FutureFrameAbsent` | main.py:151 | no future rows are built exactly when there is no date column and Catagory exists |
| `App.FutureFrameErrors` | main.py:150-159 | with a date column, building the future rows fails exactly for an empty table, a missing date, or a used category column that is all missing |
| `App.FutureFrameRows` | main.py:150-159 | the future days are consecutive, all later than every training day, and carry the most frequent category exactly when Catagory is used |
| `App.ModelColumns` | main.py:137 | the selected features split into numeric ones and at most Catagory as categorical |
| `App.TrainOnPrepared` | main.py:111-141 | a missing demand column is a KeyError before training; otherwise the forecaster is trained on the selected features and the demand values, and the stored model and the report are what `learn` returns on the encoded selection |
| `App.ForecastWeek` | main.py:149-163 | the forecast is the prediction on the future rows, seven values, and cannot fail once the rows exist |
| `App.ForecastDemand` | main.py:110-186 | the forecasting branch fails with the first error raised, or reports the training report of `learn` on the prepared features and the dataset's demand values, the seven-day forecast and the demand trend with window 5 |
| `App.RetryWithoutCategoryFails` | main.py:168-175 | the retry without Catagory on a model that encodes Catagory raises a KeyError naming it |

## Left out

- Fitting and inference of the random forest, the random train/test split, and the R² and MAE
  values. Training is the parameter `learn`. A fitted model is an opaque function from an
  aligned feature row to a prediction, plus one importance per feature.
- The exact names `get_feature_names_out` gives indicator columns. An indicator is the pair
  (column, category).
- CSV reading, the exception re-wrapping of `load_inventory_data`, and the date parsing of
  `clean_date_columns` (mixed formats). Dates arrive as whole days. Float text parsing, for the
  loader and for the conversion in front of the rolling mean, is the parameter `parse`.
- IEEE infinities and NaN. Quotients by zero are missing cells, and comparisons with them fail,
  as they do with NaN. The one exception is the stockout test, which keeps the single
  floating-point outcome that passes: negative stock over zero sales.
- The mean/median/std statistics of `analyze_turnover`, and the weekly/monthly period arithmetic
  and grouped sums of `analyze_seasonal_turnover`. Those operations are modelled up to the plan
  they compute: the chosen columns and the grouping.
- `datetime.now()`: the current time is the parameter `now`, in days.
- The input/print menu loop and all console formatting. A menu choice is modelled as the action
  it dispatches to.
- Plotting (`src/visualization.py`), which is not part of this model.
- Putting the reorder items and seasonal suggestions into a pandas DataFrame. The model returns
  the records.
- Sorting values of different kinds. Python raises a TypeError there; the model orders numbers
  before dates before texts.
- `DataLoader.CleanStatus`: only the ASCII letters are cased in the title-case step, not the
  full Unicode case tables.
- `Forecaster.DemandForecaster.Train`: the R² and MAE are whatever `learn` returns; nothing is
  proved about them.
- `Trend.DetectTrend`: the smoothed series in the report's `data` field is not returned.
  Boolean cells, which pandas converts to 0 and 1 before the rolling mean, are not a cell kind
  here.
- `App.PrepareForecast`, `App.TrainOnPrepared`, `App.ForecastDemand`: a dataset that has both a
  target column (Stock_Quantity or Sales_Volume) and a column already named `demand` is not
  covered. The rename then gives two columns the same label, and a table here has distinct
  labels. A dataset with its own `demand` column and no target is covered.
- `Reorder.ReorderEngine.SeasonalReorder`: the message of the TypeError depends on the mix of
  cells in the group (a text plus a number, or a text sum times 1.1); the model gives one fixed
  message.
