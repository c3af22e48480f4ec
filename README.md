# onedatareport in Dafny

A model of the core of `onedatareport`. The package compares an original
snapshot of a dataset with newly inserted rows and writes one report row per
column. The model covers:

- **Profile reduction** (`Profiling`, `onedatareport/utils/profiling.py`). A
  raw profiling report is cut down to the whitelisted statistics of each
  variable. The nested statistics are flattened under `_`-joined keys, the
  records become a frame with a `column_name` column, and the observability
  metrics are derived. The frame is indexed the way pandas indexes a dict of
  dicts: column by column. A record with no statistics gets no row, and a
  sparse record can move behind later ones.
- **Drift detection** (`Trend`, `onedatareport/analysis/trend.py`). The trend
  of a time-series column is flagged as a significant change when a
  signed-rank test gives p < 0.05. A categorical column reports the values
  that the original lacks.
- **The column store** (`Columnar`, `onedatareport/data_handling/columnar_dataframe.py`).
  This is a class with a disk slot per column and at most one resident
  column. Loading a different column writes the resident one back to its
  slot.
- **Per-column orchestration** (`ColumnAnalysis`, `onedatareport/analysis/column.py`).
  `process_column` builds one record: the column name, then the drift fields
  for the column's declared type, then its profile. `process_columns` visits
  the original's columns, skips the time column and concatenates the records.
  It works both on frames in memory and on column stores.
- **Handler selection** (`Factory`, `onedatareport/data_handling/factory.py`).
  This is the decision table of `DataHandlerFactory.get_handler`.

The shared modules are:

- `Json`: Python dicts as association lists in insertion order. `Insert` is
  `d[k] = v`, `UpdateWith` is `dict.update` and `ToDict` is `dict(items)`.
- `Frames`: datasets as named columns, and reports as frames of sparse rows.
  `Select` is `df[[...]]` and `Concat` is `pd.concat`.
- `Config`: the configuration dataclasses.
- `Wrappers`: `Option`, `Result` and `Outcome`.
- `Faults`: the Python exceptions the code raises (`KeyError`,
  `FileNotFoundError`, `AttributeError`, `TypeError`, `ValueError`).

Every error path is a `Failure` carrying the exception that the code raises
at that point.

The foreign numeric routines are parameters of type function, collected in
`ColumnAnalysis.Engines`:

- `seasonal_decompose` is `Trend.Decomposition`.
- `scipy.stats.wilcoxon` is `Trend.SignedRankTest`.
- The ydata profiler is `ColumnAnalysis.Profiler`. It stands for the report
  already serialised to JSON and parsed back.

The float arithmetic of the metrics is modelled as exact arithmetic on
`real`. A missing cell is `Null`, which stands for NaN.

Some behaviours of the code the model states outright:

- `categorical_chi_squared_alert` compares the p-value with 0.05. A missing
  p-value is NaN, and `NaN < 0.05` is `False`, so the alert is False rather
  than NaN (`Profiling.MissingInputCell`).
- `ColumnarDataFrame.__iter__` is a generator. The model makes one full pass
  eagerly (see Left out).
- With column stores, `process_columns` hands `process_column` the
  single-column frame that `load_column` returns, which has no time column.
  Every time-series column then raises KeyError for the time column
  (`ColumnAnalysis.StoredTrendFails`).
- The docstring of `calculate_observability_metrics`
  (onedatareport/utils/profiling.py:136) says it computes the metrics for
  every row of the flat frame. As written, it raises KeyError on every report
  that lacks a time-series or a numeric variable, and so on every
  single-column profile that `process_column` asks for (see Findings). The
  per-column orchestration uses the metrics step as evidently intended, and
  the as-written path is modelled beside it (see Left out).

## Model

| member | source | states |
|---|---|---|
| Json.UpdateWithLookup | onedatareport/analysis/column.py:37 | after `result.update(items)` a key reads the last value `items` gives it, else its old value |
| Json.UpdateWithKeys | onedatareport/analysis/column.py:45 | `update` keeps the old keys in place and appends the new ones in order, without repetition |
| Json.ToDictLookup | onedatareport/utils/profiling.py:58 | `dict(items)` maps every key to the last value the pairs give it |
| Json.ToDictUnique | onedatareport/utils/profiling.py:58 | `dict(items)` has no key twice |
| Json.ToDictIdentity | onedatareport/utils/profiling.py:58 | `dict(items)` of pairs with distinct keys is those pairs, in order |
| Json.MergeKeysNested | onedatareport/utils/profiling.py:55-58 | merging in a list that was itself merged without repeats is merging in the list: the inner `dict(...)` of `flatten_dict` does not change the key order |
| Frames.AppendRow | onedatareport/analysis/column.py:47 | adding a row keeps the earlier rows and columns; the new keys become new columns; a well-formed frame stays well formed |
| Frames.FromRows | onedatareport/analysis/column.py:47 | a frame built from rows has exactly those rows, is well formed, and its columns are the union of the rows' keys |
| Frames.Concat | onedatareport/analysis/column.py:88 | `pd.concat` keeps the rows of both frames in order; its columns are the union of both column sets, the first frame's columns first; well-formedness is kept |
| Frames.RowDict | onedatareport/analysis/column.py:45 | `iloc[0].to_dict()` has one entry per column, in column order; a cell the row lacks reads as NaN |
| Frames.Select | onedatareport/analysis/column.py:87 | `df[[...]]` succeeds iff every name is a column; the result has the asked names in order, each holding that column |
| Frames.ColumnOf | onedatareport/analysis/trend.py:71-72 | `df[name]` succeeds iff the column exists, otherwise KeyError(name) |
| Frames.UnionMembers | onedatareport/utils/profiling.py:128 | the index union holds each name once, and a name exactly when one of the lists holds it |
| Frames.UnionPrefix | onedatareport/utils/profiling.py:128 | the union of the first lists begins the union of them all: earlier lists keep their place |
| Frames.UnionCovered | onedatareport/utils/profiling.py:128 | when the first list has no repeats and holds every other name, the union is that list |
| Profiling.FilterNested | onedatareport/utils/profiling.py:7-31 | `filter_nested_fields`; its contract is FilterNestedKeys, FilterNestedLookup and FilterNestedIdempotent |
| Profiling.FilterNestedKeys | onedatareport/utils/profiling.py:24-31 | the output keys are exactly the input keys that the whitelist names, in input order |
| Profiling.FilterNestedLookup | onedatareport/utils/profiling.py:25-30 | a key is present iff both input and whitelist have it; a dict under a dict entry is filtered recursively, any other value is copied |
| Profiling.FilterNestedIdempotent | onedatareport/utils/profiling.py:7-31 | filtering twice with the same whitelist equals filtering once |
| Profiling.FlattenDict | onedatareport/utils/profiling.py:33-58 | `flatten_dict`; its contract is FlattenDictLookup, FlattenDictKeys, FlattenDictFlat, FlattenDictIdempotent and FlattenDictKeysFromTop |
| Profiling.LeafPaths | onedatareport/utils/profiling.py:52-57 | every leaf path starts at a top-level key and ends in a non-dict value |
| Profiling.FlattenItemsFlat | onedatareport/utils/profiling.py:52-57 | every pair the recursion emits holds a non-dict value |
| Profiling.FlattenItemsLeaves | onedatareport/utils/profiling.py:51-57 | the last pair emitted for a key is the last leaf whose path joins to that key |
| Profiling.FlattenItemsKeys | onedatareport/utils/profiling.py:51-57 | merged into any key list, the pairs the recursion emits bring the keys of the leaves' joined paths, depth first in key order |
| Profiling.FlattenDictLookup | onedatareport/utils/profiling.py:51-58 | `flatten_dict` maps a key to the last leaf whose joined path is that key, and to nothing else |
| Profiling.FlattenDictKeys | onedatareport/utils/profiling.py:33-58 | the keys of `flatten_dict` are the joined leaf paths, depth first in key order, each at its first appearance |
| Profiling.FlattenDictFlat | onedatareport/utils/profiling.py:51-58 | the flattened dict holds no dict values and no key twice |
| Profiling.FlattenItemsOfFlat | onedatareport/utils/profiling.py:52-57 | at the top level a dict without nested dicts flattens to itself |
| Profiling.FlattenDictIdempotent | onedatareport/utils/profiling.py:33-58 | flattening a flattened dict again changes nothing |
| Profiling.JoinPathPrefix | onedatareport/utils/profiling.py:53 | with a non-empty parent key, every key joined below it begins with the parent key |
| Profiling.FlattenDictKeysFromTop | onedatareport/utils/profiling.py:53-55 | every flattened key begins with one of the top-level keys (or comes from an empty one) |
| Profiling.Terminal | onedatareport/utils/profiling.py:75-97 | a whitelist of whole statistics names exactly the given statistics, in order |
| Profiling.FieldNames | onedatareport/utils/profiling.py:75-97 | the top-level statistics each of the three types keeps, by name and order |
| Profiling.TypeNotKept | onedatareport/utils/profiling.py:75-97 | no type's whitelist keeps the variable's `type` |
| Profiling.NamesBeginNeither | onedatareport/utils/profiling.py:75-97 | no whitelisted statistic name is `type` or begins `gap_stats_n_gaps`, and only the numeric names begin `p_zeros` |
| Profiling.GapCountOnlyTimeSeries | onedatareport/utils/profiling.py:82-88 | only a time-series record keeps a statistic that flattens to a key beginning `gap_stats_n_gaps` |
| Profiling.ZeroShareOnlyNumeric | onedatareport/utils/profiling.py:90-95 | only a numeric record keeps a statistic that flattens to a key beginning `p_zeros` |
| Profiling.FamilyOf | onedatareport/utils/profiling.py:102-103 | the membership test raises TypeError exactly when the type is a list or a dict (unhashable); otherwise it yields the matching whitelist or none |
| Profiling.KnownNames | onedatareport/utils/profiling.py:101-104 | the kept names are names of the report's variables |
| Profiling.FilterVariables | onedatareport/utils/profiling.py:99-106 | the loop of `filter_profile_data` over the variables; its contract is FilterVariablesFails, FilterVariablesKeys, FilterVariablesLookup, FilterVariablesWithin and FilterVariablesDropsType |
| Profiling.FilterProfileData | onedatareport/utils/profiling.py:61-106 | `filter_profile_data` with its whitelist table: the variables of `profile_data.get("variables", {})` filtered as FilterVariables states; FieldNames gives the table |
| Profiling.FilterVariablesFails | onedatareport/utils/profiling.py:101-103 | filtering fails iff some variable's entry is not a dict or has an unhashable type |
| Profiling.FilterVariablesKeys | onedatareport/utils/profiling.py:99-106 | the filtered report lists exactly the variables of a known type, in report order |
| Profiling.FilterVariablesLookup | onedatareport/utils/profiling.py:101-104 | each kept variable holds its statistics filtered by its type's whitelist; other variables are absent |
| Profiling.FilterVariablesWithin | onedatareport/utils/profiling.py:101-104 | when all kept variables are of the types `fs`, every record holds only top-level statistics those types whitelist |
| Profiling.FilterVariablesDropsType | onedatareport/utils/profiling.py:99-106 | no filtered record holds `type` |
| Profiling.JsonToFlatDataFrame | onedatareport/utils/profiling.py:123-132 | the loop and frame construction give exactly the flat frame of the records |
| Profiling.FlatFrameRows | onedatareport/utils/profiling.py:123-130 | in a report with distinct variable names, row `j` belongs to a variable whose flattened statistics are not empty: its name under `column_name`, its flattened statistics under every other column |
| Profiling.FlatFrameInOrder | onedatareport/utils/profiling.py:123-130 | when every variable's flattened statistics hold the first variable's first key, there is one row per variable, in report order, holding its name and its flattened statistics |
| Profiling.FlatRecordsKeys | onedatareport/utils/profiling.py:125-126 | flattening keeps every variable's name, in order |
| Profiling.FlatRecordsLookup | onedatareport/utils/profiling.py:125-126 | looking a variable up after flattening finds its statistics flattened |
| Profiling.FromIndex | onedatareport/utils/profiling.py:128-130 | `from_dict(orient='index')`, `reset_index` and the rename; its contract is IndexMembers, FromIndexRow, FromIndexInOrder, FromIndexFirstColumn, FromIndexRowKeys and FromIndexColumns |
| Profiling.Index | onedatareport/utils/profiling.py:128 | the index pandas builds from a dict of dicts; its contract is IndexMembers, FromIndexInOrder and FromIndexFirstColumn |
| Profiling.NestedKeysMembers | onedatareport/utils/profiling.py:128 | the frame's record columns are distinct and are exactly the keys some record holds |
| Profiling.NestedKeysHead | onedatareport/utils/profiling.py:128 | the first column is the first record's first key |
| Profiling.HoldersMembers | onedatareport/utils/profiling.py:128 | a column's index holds exactly the names of the records holding that key |
| Profiling.HoldersDistinct | onedatareport/utils/profiling.py:128 | in a dict of records, a column's index names each record once |
| Profiling.IndexMembers | onedatareport/utils/profiling.py:128 | the index names each record once, and names exactly the records that hold at least one key: a record without statistics gets no row |
| Profiling.FromIndexRow | onedatareport/utils/profiling.py:128-130 | row `j` is the record its index name finds, behind `column_name`; in a dict of records that record is not empty |
| Profiling.FromIndexInOrder | onedatareport/utils/profiling.py:128-130 | when every record holds the first record's first key, the index is the records' names in order and row `i` is record `i` |
| Profiling.FromIndexFirstColumn | onedatareport/utils/profiling.py:128 | the records holding the first column come first, in record order; every other record comes after them all, so sparse records can change order |
| Profiling.IndexedRowKeys | onedatareport/utils/profiling.py:129-130 | a row's keys are `column_name` followed by the record's keys |
| Profiling.FromIndexRowKeys | onedatareport/utils/profiling.py:128-130 | every key of a row is `column_name` or a key of some record; in a dict of records, every record key, and `column_name` once some record has a key, is a key of some row |
| Profiling.FromIndexColumns | onedatareport/utils/profiling.py:128-130 | the frame is well formed; its columns are `column_name` and every key of every record |
| Profiling.FlatFrameColumns | onedatareport/utils/profiling.py:123-132 | the flat frame is well formed, its columns are `column_name` and the flattened keys, and every row holds only leaves |
| Profiling.KeyNeverFlattened | onedatareport/utils/profiling.py:99-132 | a key that no whitelisted statistic of the present types begins never becomes a column |
| Profiling.MetricCells | onedatareport/utils/profiling.py:150-168 | one cell per metric, named after it, computed by its formula |
| Profiling.AssignMetrics | onedatareport/utils/profiling.py:149-169 | `assign` keeps the number of rows |
| Profiling.FirstMissing | onedatareport/utils/profiling.py:149-169 | finds a wanted column the frame lacks iff there is one |
| Profiling.CalculateObservabilityMetrics | onedatareport/utils/profiling.py:134-169 | `calculate_observability_metrics` as written; its contract is CalculateMetrics, AsWrittenNeedsFamily and AsWrittenFailsOnOneVariable |
| Profiling.ObservabilityMetrics | onedatareport/utils/profiling.py:134-169 | the metrics step as evidently intended; its contract is AssignMetrics, AssignMetricsColumns, WithMetricsLookup and MissingInputCell |
| Profiling.CalculateMetrics | onedatareport/utils/profiling.py:149-169 | as written, fails iff a column some metric reads is missing, with a KeyError naming a missing one; otherwise it is the assignment of every metric |
| Profiling.MetricsRead | onedatareport/utils/profiling.py:156-161 | the metrics read `gap_stats_n_gaps` and `p_zeros` |
| Profiling.MetricNamesDistinct | onedatareport/utils/profiling.py:150-168 | the twelve derived column names are distinct |
| Profiling.WithMetricsLookup | onedatareport/utils/profiling.py:149-169 | after `assign`, each metric column holds its cell computed from the original row; every other column is unchanged |
| Profiling.WithMetricsKeys | onedatareport/utils/profiling.py:149-169 | a row's keys after `assign` are its own keys and the metric names |
| Profiling.AssignMetricsColumns | onedatareport/utils/profiling.py:149-169 | `assign` keeps the frame well formed; its columns are the old ones and the metric names |
| Profiling.MissingInputCell | onedatareport/utils/profiling.py:151-168 | a metric whose input is missing is NaN, except the chi-squared alert, which is False |
| Profiling.CellReadsInputs | onedatareport/utils/profiling.py:150-168 | a derived cell depends only on its formula's inputs |
| Profiling.ExtractProfileDataAsWritten | onedatareport/utils/profiling.py:171-194 | `extract_profile_data` as written; AsWrittenFailsOnOneVariable and ProfileFrameAgrees state it |
| Profiling.ProfileFrame | onedatareport/utils/profiling.py:192-194 | `extract_profile_data` with the intended metrics step; ProfileFrameAgrees and ProfileFrameWellFormed state it |
| Profiling.ExtractProfileData | onedatareport/utils/profiling.py:192-194 | filter, flatten and derive give the intended profile frame |
| Profiling.ProfileFrameAgrees | onedatareport/utils/profiling.py:192-194 | the intended pipeline fails only where filtering fails, and agrees with the as-written one wherever that succeeds |
| Profiling.ProfileFrameWellFormed | onedatareport/utils/profiling.py:192-194 | the profile frame is well formed and has a row for each row of the flat frame: each kept variable whose flattened statistics are not empty |
| Profiling.OthersAll | onedatareport/utils/profiling.py:75-97 | the other types of a type are exactly all types but it |
| Profiling.AsWrittenNeedsFamily | onedatareport/utils/profiling.py:149-169 | as written, a report lacking the only type that keeps a metric's input raises |
| Profiling.AsWrittenNeedsTimeSeries | onedatareport/utils/profiling.py:156 | as written, every report without a time-series variable raises KeyError |
| Profiling.AsWrittenNeedsNumeric | onedatareport/utils/profiling.py:161 | as written, every report without a numeric variable raises KeyError |
| Profiling.AsWrittenFailsOnOneVariable | onedatareport/utils/profiling.py:149-169 | as written, a report of a single variable always raises |
| Trend.SeriesOf | onedatareport/analysis/trend.py:34-35 | the series exists iff the time column and a distinct analysed column exist; it is that column's values |
| Trend.DropNa | onedatareport/analysis/trend.py:39 | `dropna` keeps exactly the defined values, never lengthens the series, and leaves a series without NaN unchanged |
| Trend.DropNaConcat | onedatareport/analysis/trend.py:39 | `dropna` works piecewise: the result of a concatenation is the concatenation of the results, so order and repetitions are kept |
| Trend.DropNaSingle | onedatareport/analysis/trend.py:39 | a single NaN is dropped and a single defined value kept |
| Trend.SignificantChange | onedatareport/analysis/trend.py:41-45 | the flag for a trend; ShortTrendUntested and TrendChangesOutcome state it |
| Trend.TrendChanges | onedatareport/analysis/trend.py:34-47 | a success is the single key `trend_significant_change` holding a boolean |
| Trend.ConsecutivePairs | onedatareport/analysis/trend.py:42 | `trend[:-1]` and `trend[1:]` pair each value with its successor |
| Trend.ShortTrendUntested | onedatareport/analysis/trend.py:41-45 | with fewer than two trend values the flag is False, no test is run, and so no test error can occur |
| Trend.DecomposesConcatenation | onedatareport/analysis/trend.py:34-38 | the decomposition sees the original series followed by the new one and nothing else |
| Trend.TrendChangesOutcome | onedatareport/analysis/trend.py:34-47 | succeeds iff both series exist, the decomposition succeeds and, with two or more defined trend values, the test on `trend[:-1]`, `trend[1:]` succeeds; the flag holds iff there are two or more and the test gives a p-value below 0.05 |
| Trend.NewEntries | onedatareport/analysis/trend.py:71-73 | the new entries are exactly the new values absent from the original, each once |
| Trend.DetectNewCategoricalValues | onedatareport/analysis/trend.py:71-75 | succeeds iff both frames have the column |
| Trend.NewValuesReported | onedatareport/analysis/trend.py:73-75 | empty iff every new value already occurs; otherwise only `new_values`, listing each absent value once |
| Trend.DistinctCounts | onedatareport/analysis/trend.py:73 | a list built from a set counts each member once |
| Trend.NewEntriesBySets | onedatareport/analysis/trend.py:71-73 | only the sets of values matter: same sets give the same new values up to order |
| Columnar.Slot | onedatareport/data_handling/columnar_dataframe.py:38 | a slot is `df[[col]]`: the single column under its own name |
| Columnar.SlotMissing | onedatareport/data_handling/columnar_dataframe.py:38 | `df[[col]]` of a missing column raises KeyError(col) |
| Columnar.Present | onedatareport/data_handling/columnar_dataframe.py:36-38 | the index of the first column the frame lacks |
| Columnar.SlotsExtend | onedatareport/data_handling/columnar_dataframe.py:36-38 | storing one more column adds exactly its slot |
| Columnar.ColumnarDataFrame.constructor | onedatareport/data_handling/columnar_dataframe.py:20-25 | the column list is the frame's, nothing is resident, every column is in its slot |
| Columnar.ColumnarDataFrame.StoreData | onedatareport/data_handling/columnar_dataframe.py:36-38 | writes the slots in column order up to the first missing column, raising KeyError for it; the resident column is untouched |
| Columnar.ColumnarDataFrame.LoadColumn | onedatareport/data_handling/columnar_dataframe.py:55-65 | a different resident column is written back first; succeeds iff the slot exists, returning its contents and making it resident; else FileNotFoundError with the resident column unchanged |
| Columnar.ColumnarDataFrame.EditResident | onedatareport/data_handling/columnar_dataframe.py:65 | a caller's edit of the returned frame changes the resident frame only |
| Columnar.ColumnarDataFrame.Iterate | onedatareport/data_handling/columnar_dataframe.py:67-72 | yields every column's slot in stored order; only the first load can write back; the last column ends resident |
| Columnar.ColumnarDataFrame.GetColumns | onedatareport/data_handling/columnar_dataframe.py:74-83 | the column list, unchanged |
| Columnar.ReloadAfterLoads | onedatareport/data_handling/columnar_dataframe.py:36-65 | store then load round trip: without edits, any column reads back as stored, whatever was loaded before; a missing one is FileNotFoundError |
| Columnar.ReloadDiscardsEdits | onedatareport/data_handling/columnar_dataframe.py:55-62 | reloading the resident column re-reads its slot, losing an edit |
| Columnar.SwapKeepsEdits | onedatareport/data_handling/columnar_dataframe.py:55-62 | loading another column writes an edit back, so a later reload returns it |
| ColumnAnalysis.RunProfilingReport | onedatareport/utils/profiling.py:225-233 | the engine's report reduced with the intended metrics step: succeeds iff the report passes filtering, and the frame is then well formed |
| ColumnAnalysis.RunProfilingReportAsWritten | onedatareport/utils/profiling.py:225-233 | `run_ydata_profiling_report` as written, through the as-written metrics step; ColumnRecordAsWrittenFails states it |
| ColumnAnalysis.DeclaredType | onedatareport/analysis/column.py:33 | the declared type, or KeyError for an undeclared column |
| ColumnAnalysis.ColumnRecord | onedatareport/analysis/column.py:32-47 | the record `process_column` builds; its contract is DriftByType, RecordKeys, RecordLookup, UndeclaredColumnFails, ProfileSeesColumnAlone and TrendNeedsTimeColumn |
| ColumnAnalysis.ColumnRecordAsWritten | onedatareport/analysis/column.py:32-47 | the record with the profile taken from the as-written report; ColumnRecordAsWrittenFails and ColumnRecordAsWrittenAgrees state it |
| ColumnAnalysis.ColumnRecordAsWrittenFails | onedatareport/analysis/column.py:43 | as written, the analysis of a column fails whenever the engine's report on that one column passes filtering with one variable |
| ColumnAnalysis.ColumnRecordAsWrittenAgrees | onedatareport/analysis/column.py:32-47 | where the as-written analysis produces a record, it is the intended record |
| ColumnAnalysis.ProcessColumn | onedatareport/analysis/column.py:32-47 | the in-place record building yields the one-row report of the record |
| ColumnAnalysis.DriftByType | onedatareport/analysis/column.py:35-41 | a time series adds only the trend flag, a categorical column `new_values` or nothing, any other type nothing |
| ColumnAnalysis.RecordKeys | onedatareport/analysis/column.py:32-45 | the record's keys are `column_name` first, then the new drift keys, then the new profile columns, each once |
| ColumnAnalysis.RecordLookup | onedatareport/analysis/column.py:32-45 | a profile column overrides a drift field, which overrides `column_name`; an empty profile adds nothing |
| ColumnAnalysis.UndeclaredColumnFails | onedatareport/analysis/column.py:33 | an undeclared column raises KeyError before any analysis |
| ColumnAnalysis.ProfileSeesColumnAlone | onedatareport/analysis/column.py:43 | the profiler sees only the new rows of this column, typed by a schema of that column alone; KeyError if the column is missing |
| ColumnAnalysis.TrendNeedsTimeColumn | onedatareport/analysis/column.py:35-36 | a time series given without its time column raises KeyError(time column) |
| ColumnAnalysis.ColumnFrames | onedatareport/analysis/column.py:82-87 | in memory, both frames hold exactly the time column and the column |
| ColumnAnalysis.Analysed | onedatareport/analysis/column.py:73-75 | the analysed columns are the visited ones except the time column, in order |
| ColumnAnalysis.Accumulate | onedatareport/analysis/column.py:71-89 | the report after visiting the columns in order; its contract is AccumulateRows, AccumulateNext, AccumulateSucceeds, AccumulateFirstError and PrefixFailure |
| ColumnAnalysis.AccumulateRows | onedatareport/analysis/column.py:71-89 | with one-row column reports, the report has one row per analysed column, in order, and its columns are their keys |
| ColumnAnalysis.AccumulateNext | onedatareport/analysis/column.py:73-88 | one more visited column is skipped if it is the time column and appended otherwise |
| ColumnAnalysis.AccumulateSucceeds | onedatareport/analysis/column.py:73-89 | the loop succeeds iff every analysed column's report does |
| ColumnAnalysis.AccumulateFirstError | onedatareport/analysis/column.py:73-89 | a failed loop carries the error of the first analysed column that fails |
| ColumnAnalysis.PrefixFailure | onedatareport/analysis/column.py:73-89 | once a prefix fails, the whole loop fails with that error |
| ColumnAnalysis.ColumnStepOneRow | onedatareport/analysis/column.py:85-87 | every column's report is one well-formed row |
| ColumnAnalysis.ColumnsReportRows | onedatareport/analysis/column.py:71-89 | a successful run has one row per non-time column of the original, in order, each the record built from that column's frames |
| ColumnAnalysis.GetFrames | onedatareport/analysis/column.py:82-87 | with settled stores, the frames are those the contents give, and the stores stay settled with the same contents |
| ColumnAnalysis.AnalyzeColumn | onedatareport/analysis/column.py:76-87 | one pass of the loop: with settled stores it leaves their contents as they were and returns the column's step of the accumulated report (its frames, then its record) |
| ColumnAnalysis.ProcessColumns | onedatareport/analysis/column.py:71-89 | with settled stores the loop returns exactly the accumulated report of the contents |
| ColumnAnalysis.StoredTrendFails | onedatareport/analysis/column.py:82-85 | with column stores, every time-series column raises KeyError(time column) |
| Factory.TableKind | onedatareport/data_handling/factory.py:43-59 | a found handler kind is listed for the pair; none found means no row matches |
| Factory.GetHandler | onedatareport/data_handling/factory.py:41-60 | `get_handler`; its contract is GetHandlerByTable, NoPathNotRemote, DeltaOnlyForSpark and ChoiceIgnoresSession |
| Factory.GetHandlerByTable | onedatareport/data_handling/factory.py:41-60 | a web path gives the HTTP handler; otherwise the listed pair's handler, with the session only for PySpark, or ValueError naming both |
| Factory.NoPathNotRemote | onedatareport/data_handling/factory.py:41 | without a path, or with an empty one, the HTTP handler is never chosen |
| Factory.DeltaOnlyForSpark | onedatareport/data_handling/factory.py:53-60 | outside a web path, `delta` is accepted iff the library is `pyspark` |
| Factory.ChoiceIgnoresSession | onedatareport/data_handling/factory.py:41-60 | the choice depends on path, library and file type only |

## Left out

- Storage: the temporary directory, pickling, the per-column file paths and `__del__`
  of the column store are a map of slots. I/O faults and two columns whose names map to the same file are not modelled.
- Columnar.ColumnarDataFrame.Iterate: the generator is lazy and single-pass; the model
  makes one full pass at once and returns the frames. A consumer's edits between steps
  are modelled through EditResident instead.
- Columnar.ColumnarDataFrame.constructor: the store is modelled for pandas frames only,
  where `columns.tolist()` is the list of names. With a polars frame, `columns.tolist()`
  raises AttributeError. Polars and PySpark frames have no `to_pickle`, so `store_data`
  would fail for them. The `data_type` argument is kept but changes nothing in the model.
- Frames.Select, Trend.SeriesOf: a missing label raises KeyError, as in pandas, but the
  model names only the first missing label. pandas lists every missing label in the message
  (`"['x'] not in index"`, `"None of [...] are in the columns"`).
- ColumnAnalysis.ProcessColumns: the result is stated only when neither store holds an
  unsaved edit of its resident column at entry. With such an edit the first load may write
  the edit back and the report may differ; the method then promises only that the stores
  stay valid.
- Aliasing: the frame `load_column` returns is the store's resident frame. A caller's
  in-place edit of it is the explicit step EditResident rather than shared memory.
- Duplicate column names in a dataset are not modelled: a lookup returns the first one.
- Python value equality across types (`1 == 1.0 == True`), NaN inequality and unhashable
  cell values are not modelled. Atoms compare structurally.
- Trend.NewEntries: a Python set has no fixed iteration order. The model lists the new
  values in order of first appearance; NewEntriesBySets states that only the set matters.
- Trend.SignificantChange: a NaN p-value from the signed-rank test is `None`, and the flag
  is then False, as `NaN < 0.05` is. An exception the test raises (SciPy raises ValueError
  when every paired difference is zero) is a `Failure` of the test and propagates. Which
  inputs make it raise belongs to the test, a parameter.
- Profiling.Cell: floats are exact reals. A division by zero, infinity and rounding are
  not modelled; a zero denominator gives NaN. A non-numeric input gives NaN instead of the
  TypeError pandas would raise.
- The profiler (`ProfileReport(...)`, its JSON serialisation and `json.loads`) is a
  parameter. The `tsmode`, `explorative` and `sortby` options are not modelled.
  `extract_profile_data` is annotated as taking a string but is given the parsed dict;
  the model takes the dict.
- ColumnAnalysis.RunProfilingReport: the per-column orchestration (`ColumnProfile`,
  `ColumnRecord`, `ProcessColumn`, `ProcessColumns`) uses the metrics step as evidently
  intended (`Profiling.ProfileFrame`). As written, `run_ydata_profiling_report` returns
  `extract_profile_data`, whose metrics step raises KeyError on every single-variable report
  (see Findings). That path is `RunProfilingReportAsWritten` and `ColumnRecordAsWritten`;
  the loop over the columns is not repeated for it.
- Profiling.FromIndex: the dtypes pandas infers are not modelled. A record key equal to
  `column_name` would give pandas a second column of that name, where the model keeps one;
  no whitelisted statistic has that name.
- Profiling.FlatFrameRows: stated for reports whose variable names are distinct. A Python
  dict cannot repeat a key, but an association list can, and a lookup then finds only the
  first record of that name.
- `seasonal_decompose` and `wilcoxon` are parameters. The decomposition's
  `period` is passed through unchanged.
- The handlers themselves (`onedatareport/data_handling/handlers/`), the remote download,
  `onedatareport/utils/data.py` and report generation are not part of this model:
  only the choice of handler is.
- Config: the dataclasses are plain datatypes. `type_schema` is an association list of
  strings, and the Spark session is an opaque identifier.

## Findings

| source | as written | input that shows it | evidently intended | confidence | as-written member | corrected member |
|---|---|---|---|---|---|---|
| onedatareport/utils/profiling.py:149-169 | every metric indexes its input column with `x[...]`, so a column no variable has raises KeyError; `gap_stats_n_gaps` exists only for time-series variables and `p_zeros` only for numeric ones | any report whose variables are all of one type, in particular the single-variable profile `process_column` asks for at `onedatareport/analysis/column.py:43` | a metric whose input statistic is absent is NaN, as for a variable that lacks it in a mixed report | not executed | Profiling.AsWrittenFailsOnOneVariable | Profiling.ProfileFrameAgrees |
