/**
 * Per-column orchestration: one record per analysed column (its name, the
 * drift fields its declared type asks for, then its profile), and the loop
 * that visits the original snapshot's columns, skips the time column and
 * appends each record to the report.
 */
module ColumnAnalysis {
  import opened Wrappers
  import opened Faults
  import opened Json
  import opened Frames
  import opened Trend
  import opened Profiling
  import opened Config
  import opened Columnar

  /** The profiling engine: `ProfileReport(df, type_schema=...)` serialised and parsed back. */
  type Profiler = (Dataset, TypeSchema) -> Mapping

  /** The foreign routines a column analysis calls. */
  datatype Engines = Engines(decompose: Decomposition, wilcoxon: SignedRankTest, profiler: Profiler)

  /** `run_ydata_profiling_report(df, type_schema)`: the engine's report reduced to the profile table. */
  function RunProfilingReport(df: Dataset, schema: TypeSchema, profiler: Profiler): (r: Result<Frame, Fault>)
    ensures r.Success? <==> FilterProfileData(profiler(df, schema)).Success?
    ensures r.Success? ==> Valid(r.value)
  {
    var report := profiler(df, schema);
    ProfileFrameAgrees(report);
    if FilterProfileData(report).Success? then
      ProfileFrameWellFormed(report);
      ProfileFrame(report)
    else ProfileFrame(report)
  }

  /** `type_schema[column]`: KeyError when the schema lacks the column. */
  function DeclaredType(schema: TypeSchema, name: string): (r: Result<string, Fault>)
    ensures r.Success? <==> name in Keys(schema)
    ensures r.Failure? ==> r.error == KeyError(name)
    ensures r.Success? ==> Lookup(schema, name) == Some(r.value)
  {
    match Lookup(schema, name)
    case Some(t) => Success(t)
    case None => Failure(KeyError(name))
  }

  /** The drift fields of a column, chosen by its declared type. */
  function Drift(original: Dataset, added: Dataset, config: ColumnAnalysisConfig, columnType: string,
                 engines: Engines): Result<Mapping, Fault>
  {
    if columnType == "timeseries" then
      TrendChanges(original, added, config.columnName, config.timeColumn, config.period,
                   engines.decompose, engines.wilcoxon)
    else if columnType == "categorical" then
      DetectNewCategoricalValues(original, added, config.columnName)
    else Success([])
  }

  /** The profile of the new rows of this one column, typed as declared. */
  function ColumnProfile(added: Dataset, name: string, columnType: string, profiler: Profiler): Result<Frame, Fault> {
    var single :- Select(added, [name]);
    RunProfilingReport(single, [(name, columnType)], profiler)
  }

  /** The record: the column name, updated with the drift fields, then with the first profile row. */
  function MergeRecord(name: string, drift: Mapping, profile: Frame): Mapping {
    var base := UpdateWith([("column_name", Leaf(Text(name)))], drift);
    if IsEmpty(profile) then base else UpdateWith(base, RowDict(profile, 0))
  }

  /** The record `process_column` builds, or the error it raises first. */
  function ColumnRecord(original: Dataset, added: Dataset, config: ColumnAnalysisConfig,
                        engines: Engines): Result<Mapping, Fault>
  {
    var columnType :- DeclaredType(config.typeSchema, config.columnName);
    var drift :- Drift(original, added, config, columnType, engines);
    var profile :- ColumnProfile(added, config.columnName, columnType, engines.profiler);
    Success(MergeRecord(config.columnName, drift, profile))
  }

  /** `run_ydata_profiling_report(df, type_schema)` as written, through the as-written metrics step. */
  function RunProfilingReportAsWritten(df: Dataset, schema: TypeSchema, profiler: Profiler): Result<Frame, Fault> {
    ExtractProfileDataAsWritten(profiler(df, schema))
  }

  /** The record `process_column` builds as written, its profile taken from the as-written report. */
  function ColumnRecordAsWritten(original: Dataset, added: Dataset, config: ColumnAnalysisConfig,
                                 engines: Engines): Result<Mapping, Fault>
  {
    var columnType :- DeclaredType(config.typeSchema, config.columnName);
    var drift :- Drift(original, added, config, columnType, engines);
    var single :- Select(added, [config.columnName]);
    var profile :- RunProfilingReportAsWritten(single, [(config.columnName, columnType)], engines.profiler);
    Success(MergeRecord(config.columnName, drift, profile))
  }

  /**
   * As written, a column analysis fails whenever the engine's report on the
   * one selected column passes filtering with that one variable: the
   * metrics step looks up columns a single-variable frame does not have.
   */
  lemma ColumnRecordAsWrittenFails(original: Dataset, added: Dataset, config: ColumnAnalysisConfig,
                                   engines: Engines)
    requires DeclaredType(config.typeSchema, config.columnName).Success?
    requires Select(added, [config.columnName]).Success?
    requires var report := engines.profiler(Select(added, [config.columnName]).value,
                                            [(config.columnName, DeclaredType(config.typeSchema, config.columnName).value)]);
      var vars: Option<Value> := Lookup(report, "variables");
      FilterProfileData(report).Success? && vars.Some? && vars.value.Dict? && |vars.value.entries| == 1
    ensures ColumnRecordAsWritten(original, added, config, engines).Failure?
  {
    var columnType := DeclaredType(config.typeSchema, config.columnName).value;
    var report := engines.profiler(Select(added, [config.columnName]).value, [(config.columnName, columnType)]);
    AsWrittenFailsOnOneVariable(report);
  }

  /** Where the as-written analysis does produce a record, it is the intended one. */
  lemma ColumnRecordAsWrittenAgrees(original: Dataset, added: Dataset, config: ColumnAnalysisConfig,
                                    engines: Engines)
    ensures ColumnRecordAsWritten(original, added, config, engines).Success? ==>
      ColumnRecordAsWritten(original, added, config, engines) == ColumnRecord(original, added, config, engines)
  {
    var declared := DeclaredType(config.typeSchema, config.columnName);
    var single := Select(added, [config.columnName]);
    if declared.Success? && single.Success? {
      ProfileFrameAgrees(engines.profiler(single.value, [(config.columnName, declared.value)]));
    }
  }

  /** `pd.DataFrame([result])`: the one-row table of the record. */
  function ColumnReport(original: Dataset, added: Dataset, config: ColumnAnalysisConfig,
                        engines: Engines): Result<Frame, Fault>
  {
    var record :- ColumnRecord(original, added, config, engines);
    Success(FromRows([record]))
  }

  /** `process_column(original_df, new_df, config)`: fills the record in place, step by step. */
  method ProcessColumn(original: Dataset, added: Dataset, config: ColumnAnalysisConfig, engines: Engines)
    returns (r: Result<Frame, Fault>)
    ensures r == ColumnReport(original, added, config, engines)
  {
    var result: Mapping := [("column_name", Leaf(Text(config.columnName)))];
    var declared := DeclaredType(config.typeSchema, config.columnName);
    if declared.Failure? {
      return Failure(declared.error);
    }
    var columnType := declared.value;
    if columnType == "timeseries" {
      var trendChanges := TrendChanges(original, added, config.columnName, config.timeColumn, config.period,
                                       engines.decompose, engines.wilcoxon);
      if trendChanges.Failure? {
        return Failure(trendChanges.error);
      }
      result := UpdateWith(result, trendChanges.value);
    } else if columnType == "categorical" {
      var newValues := DetectNewCategoricalValues(original, added, config.columnName);
      if newValues.Failure? {
        return Failure(newValues.error);
      }
      result := UpdateWith(result, newValues.value);
    }
    var profileData := ColumnProfile(added, config.columnName, columnType, engines.profiler);
    if profileData.Failure? {
      return Failure(profileData.error);
    }
    if !IsEmpty(profileData.value) {
      result := UpdateWith(result, RowDict(profileData.value, 0));
    }
    return Success(FromRows([result]));
  }

  /**
   * Each declared type adds only its own drift fields: the trend flag for a
   * time series, the new values (or nothing) for a categorical column, and
   * nothing for any other type.
   */
  lemma DriftByType(original: Dataset, added: Dataset, config: ColumnAnalysisConfig, columnType: string,
                    engines: Engines)
    requires Drift(original, added, config, columnType, engines).Success?
    ensures var d := Drift(original, added, config, columnType, engines).value;
      UniqueKeys(d) &&
      (columnType == "timeseries" ==> Keys(d) == ["trend_significant_change"]) &&
      (columnType == "categorical" ==> Keys(d) == [] || Keys(d) == ["new_values"]) &&
      (columnType != "timeseries" && columnType != "categorical" ==> d == [])
  {
    if columnType == "categorical" {
      NewValuesReported(original, added, config.columnName);
    }
  }

  /**
   * The record's keys: `column_name` first, then the new drift keys, then the
   * new profile columns; no key twice.
   */
  lemma RecordKeys(name: string, drift: Mapping, profile: Frame)
    ensures var ks := Keys(MergeRecord(name, drift, profile));
      ks == MergeKeys(MergeKeys(["column_name"], Keys(drift)), if IsEmpty(profile) then [] else profile.columns) &&
      ks[0] == "column_name"
    ensures UniqueKeys(MergeRecord(name, drift, profile))
  {
    var start: Mapping := [("column_name", Leaf(Text(name)))];
    assert Keys(start) == ["column_name"];
    UpdateWithKeys(start, drift);
    var base := UpdateWith(start, drift);
    if !IsEmpty(profile) {
      UpdateWithKeys(base, RowDict(profile, 0));
    }
  }

  /**
   * Merge order: a profile column overwrites a drift field of the same name,
   * which overwrites `column_name`; an empty profile changes nothing.
   */
  lemma RecordLookup(name: string, drift: Mapping, profile: Frame, k: string)
    requires UniqueKeys(drift) && Valid(profile)
    ensures Lookup(MergeRecord(name, drift, profile), k) ==
      if !IsEmpty(profile) && k in profile.columns then Some(Lookup(profile.rows[0], k).GetOr(Leaf(Null)))
      else if k in Keys(drift) then Lookup(drift, k)
      else if k == "column_name" then Some(Leaf(Text(name)))
      else None
  {
    var start: Mapping := [("column_name", Leaf(Text(name)))];
    UpdateWithLookup(start, drift, k);
    UniqueLastLookup(drift, k);
    var base := UpdateWith(start, drift);
    if !IsEmpty(profile) {
      var row := RowDict(profile, 0);
      UpdateWithLookup(base, row, k);
      UniqueLastLookup(row, k);
      if k in profile.columns {
        var j :| 0 <= j < |profile.columns| && profile.columns[j] == k;
        KeysAt(row, j);
        LookupAt(row, j);
      }
    }
  }

  /** A column the schema does not declare fails at the lookup, before any analysis. */
  lemma UndeclaredColumnFails(original: Dataset, added: Dataset, config: ColumnAnalysisConfig, engines: Engines)
    requires config.columnName !in Keys(config.typeSchema)
    ensures ColumnRecord(original, added, config, engines) == Failure(KeyError(config.columnName))
  {
  }

  /**
   * The profiler sees only the new rows of the column, under its own name,
   * with the schema that declares that column alone.
   */
  lemma ProfileSeesColumnAlone(added: Dataset, name: string, columnType: string, profiler: Profiler)
    ensures name in Keys(added) ==>
      ColumnProfile(added, name, columnType, profiler)
      == RunProfilingReport([(name, Lookup(added, name).value)], [(name, columnType)], profiler)
    ensures name !in Keys(added) ==> ColumnProfile(added, name, columnType, profiler) == Failure(KeyError(name))
  {
    if name in Keys(added) {
      var single := Slot(added, name);
    } else {
      SlotMissing(added, name);
    }
  }

  /**
   * A time-series column handed over without the time column fails at
   * `set_index(time_column)` with a KeyError.
   */
  lemma TrendNeedsTimeColumn(original: Dataset, added: Dataset, config: ColumnAnalysisConfig, engines: Engines)
    requires Keys(original) == [config.columnName] && config.columnName != config.timeColumn
    requires Lookup(config.typeSchema, config.columnName) == Some("timeseries")
    ensures ColumnRecord(original, added, config, engines) == Failure(KeyError(config.timeColumn))
  {
    assert config.timeColumn !in Keys(original);
  }

  /** What `process_columns` is given for each snapshot: a frame in memory or a column store. */
  datatype Source = InMemory(data: Dataset) | OnDisk(store: ColumnarDataFrame)

  /** The contents of a source: its frame, or its column list and disk slots. */
  datatype Snapshot = Table(data: Dataset) | Stored(columns: seq<string>, disk: map<string, Dataset>)

  function Stores(s: Source): set<ColumnarDataFrame> {
    if s.OnDisk? then {s.store} else {}
  }

  ghost function Contents(s: Source): Snapshot
    reads Stores(s)
  {
    match s
    case InMemory(data) => Table(data)
    case OnDisk(store) => Stored(store.columns, store.disk)
  }

  /** A store keeps its invariant. */
  ghost predicate Ready(s: Source)
    reads Stores(s)
  {
    s.OnDisk? ==> s.store.Valid()
  }

  /** A store holds no unsaved edit of its resident column. */
  ghost predicate Settled(s: Source)
    reads Stores(s)
  {
    s.OnDisk? ==> s.store.Clean()
  }

  /** `original_df.columns`. */
  function Visited(s: Snapshot): seq<string> {
    match s
    case Table(data) => Keys(data)
    case Stored(columns, _) => columns
  }

  /**
   * The two frames `process_column` receives for `name`: the loaded single
   * columns when the original is a store, the time column and the column
   * otherwise; or the error raised getting them.
   */
  function ColumnFrames(original: Snapshot, added: Snapshot, time: string, name: string)
    : (r: Result<(Dataset, Dataset), Fault>)
    ensures original.Table? && r.Success? ==> Keys(r.value.0) == [time, name] && Keys(r.value.1) == [time, name]
  {
    match original
    case Stored(_, disk) =>
      if name !in disk then Failure(FileNotFoundError(name))
      else if added.Table? then Failure(AttributeError("load_column"))
      else if name !in added.disk then Failure(FileNotFoundError(name))
      else Success((disk[name], added.disk[name]))
    case Table(data) =>
      var before :- Select(data, [time, name]);
      if added.Stored? then Failure(TypeError("'ColumnarDataFrame' object is not subscriptable"))
      else
        var after :- Select(added.data, [time, name]);
        Success((before, after))
  }

  /** `ColumnAnalysisConfig` for one column of a run. */
  function ColumnConfig(config: ColumnsAnalysisConfig, name: string): ColumnAnalysisConfig {
    ColumnAnalysisConfig(name, config.timeColumn, config.period, config.typeSchema)
  }

  /** One pass of the loop for a column other than the time column. */
  function ColumnStep(original: Snapshot, added: Snapshot, config: ColumnsAnalysisConfig, name: string,
                      engines: Engines): Result<Frame, Fault>
  {
    var frames :- ColumnFrames(original, added, config.timeColumn, name);
    ColumnReport(frames.0, frames.1, ColumnConfig(config, name), engines)
  }

  /** One pass of the loop, as a function of the column name. */
  function StepOf(original: Snapshot, added: Snapshot, config: ColumnsAnalysisConfig,
                  engines: Engines): string -> Result<Frame, Fault>
  {
    name => ColumnStep(original, added, config, name, engines)
  }

  /** The report after visiting `names` in order: `time` skipped, each other column's report appended. */
  function Accumulate(names: seq<string>, time: string, step: string -> Result<Frame, Fault>): Result<Frame, Fault>
    decreases |names|
  {
    if names == [] then Success(Frame([], []))
    else
      match Accumulate(names[..|names| - 1], time, step)
      case Failure(e) => Failure(e)
      case Success(report) =>
        var name := names[|names| - 1];
        if name == time then Success(report)
        else
          match step(name)
          case Failure(e) => Failure(e)
          case Success(columnReport) => Success(Concat(report, columnReport))
  }

  /** `process_columns(original_df, new_df, columns_config)` on the sources' contents. */
  function ColumnsReport(original: Snapshot, added: Snapshot, config: ColumnsAnalysisConfig,
                         engines: Engines): Result<Frame, Fault>
  {
    Accumulate(Visited(original), config.timeColumn, StepOf(original, added, config, engines))
  }

  /** The columns the loop analyses: every visited column but the time column, in order. */
  function Analysed(names: seq<string>, time: string): (r: seq<string>)
    ensures forall x :: x in r <==> x in names && x != time
    ensures time !in names ==> r == names
    ensures |r| <= |names|
  {
    if names == [] then []
    else
      var init := names[..|names| - 1];
      var last := names[|names| - 1];
      assert names == init + [last];
      assert forall x :: x in names <==> x in init || x == last;
      if last == time then Analysed(init, time) else Analysed(init, time) + [last]
  }

  /** A report that is one well-formed row whose keys are its columns. */
  ghost predicate OneRow(f: Frame) {
    Valid(f) && |f.rows| == 1 && (set c | c in f.columns) == KeySet(f.rows[0])
  }

  /**
   * `report` holds one row per name of `analysed`, in order, each the one row
   * of that name's report, and its columns are the union of the rows' keys.
   */
  ghost predicate RowPerColumn(report: Frame, analysed: seq<string>, step: string -> Result<Frame, Fault>) {
    Valid(report) &&
    (set c | c in report.columns) == RowKeys(report.rows) &&
    |report.rows| == |analysed| &&
    forall i :: 0 <= i < |analysed| ==>
      step(analysed[i]).Success? && OneRow(step(analysed[i]).value) &&
      report.rows[i] == step(analysed[i]).value.rows[0]
  }

  /**
   * When every column's report is one row, a successful report has one row
   * per analysed column, in visit order, and its columns are the union of
   * the rows' keys.
   */
  lemma {:induction false} AccumulateRows(names: seq<string>, time: string, step: string -> Result<Frame, Fault>)
    requires forall n :: step(n).Success? ==> OneRow(step(n).value)
    requires Accumulate(names, time, step).Success?
    ensures RowPerColumn(Accumulate(names, time, step).value, Analysed(names, time), step)
    decreases |names|
  {
    if names != [] {
      var init := names[..|names| - 1];
      var name := names[|names| - 1];
      AccumulateRows(init, time, step);
      var before := Accumulate(init, time, step).value;
      var a := Analysed(init, time);
      if name != time {
        assert Analysed(names, time) == a + [name];
        RowPerColumnAppend(before, a, name, step);
      } else {
        assert Analysed(names, time) == a;
      }
    }
  }

  /** Appending the one-row report of one more column keeps a row per column. */
  lemma RowPerColumnAppend(before: Frame, a: seq<string>, name: string, step: string -> Result<Frame, Fault>)
    requires RowPerColumn(before, a, step)
    requires step(name).Success? && OneRow(step(name).value)
    ensures RowPerColumn(Concat(before, step(name).value), a + [name], step)
  {
    var columnReport := step(name).value;
    var report := Concat(before, columnReport);
    assert (set c | c in report.columns) == RowKeys(report.rows) by {
      RowKeysAppend(before.rows, columnReport.rows);
      assert RowKeys(columnReport.rows) == KeySet(columnReport.rows[0]) by {
        assert columnReport.rows[..0] == [];
      }
    }
    var analysed := a + [name];
    assert columnReport.rows == [columnReport.rows[0]];
    assert report.rows == before.rows + [columnReport.rows[0]];
    forall i | 0 <= i < |analysed|
      ensures step(analysed[i]).Success? && OneRow(step(analysed[i]).value)
      ensures report.rows[i] == step(analysed[i]).value.rows[0]
    {
      if i < |a| {
        assert analysed[i] == a[i] && report.rows[i] == before.rows[i];
      }
    }
  }

  /** Visiting one more column: skipped if it is the time column, appended otherwise. */
  lemma AccumulateNext(names: seq<string>, i: nat, time: string, step: string -> Result<Frame, Fault>)
    requires i < |names|
    ensures Accumulate(names[..i + 1], time, step) ==
      match Accumulate(names[..i], time, step)
      case Failure(e) => Failure(e)
      case Success(report) =>
        if names[i] == time then Success(report)
        else
          match step(names[i])
          case Failure(e) => Failure(e)
          case Success(columnReport) => Success(Concat(report, columnReport))
  {
    assert names[..i + 1][..i] == names[..i] && names[..i + 1][i] == names[i];
  }

  /** Every listed column's report succeeds. */
  ghost predicate AllSucceed(analysed: seq<string>, step: string -> Result<Frame, Fault>) {
    forall i :: 0 <= i < |analysed| ==> step(analysed[i]).Success?
  }

  /** The `i`-th listed column is the first whose report fails, and it fails with `e`. */
  ghost predicate FailsFirstAt(analysed: seq<string>, step: string -> Result<Frame, Fault>, i: int, e: Fault) {
    0 <= i < |analysed| && step(analysed[i]) == Failure(e) && forall j :: 0 <= j < i ==> step(analysed[j]).Success?
  }

  /** The report succeeds exactly when every analysed column does. */
  lemma {:induction false} AccumulateSucceeds(names: seq<string>, time: string, step: string -> Result<Frame, Fault>)
    ensures Accumulate(names, time, step).Success? <==> AllSucceed(Analysed(names, time), step)
    decreases |names|
  {
    if names != [] {
      var init := names[..|names| - 1];
      var name := names[|names| - 1];
      AccumulateSucceeds(init, time, step);
      var a := Analysed(init, time);
      var analysed := Analysed(names, time);
      if name != time {
        assert analysed == a + [name];
        assert forall i :: 0 <= i < |a| ==> analysed[i] == a[i];
        assert analysed[|a|] == name;
      }
    }
  }

  /** A failed report carries the error of the first analysed column that fails. */
  lemma {:induction false} AccumulateFirstError(names: seq<string>, time: string, step: string -> Result<Frame, Fault>)
    requires Accumulate(names, time, step).Failure?
    ensures exists i :: FailsFirstAt(Analysed(names, time), step, i, Accumulate(names, time, step).error)
    decreases |names|
  {
    var init := names[..|names| - 1];
    var name := names[|names| - 1];
    var a := Analysed(init, time);
    var analysed := Analysed(names, time);
    var e := Accumulate(names, time, step).error;
    assert analysed == if name == time then a else a + [name];
    assert forall j :: 0 <= j < |a| ==> analysed[j] == a[j];
    if Accumulate(init, time, step).Failure? {
      AccumulateFirstError(init, time, step);
      var i :| FailsFirstAt(a, step, i, e);
      assert FailsFirstAt(analysed, step, i, e);
    } else {
      AccumulateSucceeds(init, time, step);
      assert FailsFirstAt(analysed, step, |a|, e);
    }
  }

  /** Once a prefix of the visited columns fails, the whole loop fails with the same error. */
  lemma {:induction false} PrefixFailure(names: seq<string>, k: nat, time: string, step: string -> Result<Frame, Fault>)
    requires k <= |names|
    requires Accumulate(names[..k], time, step).Failure?
    ensures Accumulate(names, time, step) == Accumulate(names[..k], time, step)
    decreases |names| - k
  {
    if k < |names| {
      var init := names[..|names| - 1];
      assert init[..k] == names[..k];
      PrefixFailure(init, k, time, step);
      assert Accumulate(init, time, step).Failure?;
    } else {
      assert names[..k] == names;
    }
  }

  /** A column whose frames were read has the report of those frames as its step. */
  lemma StepReport(original: Snapshot, added: Snapshot, config: ColumnsAnalysisConfig, engines: Engines,
                   name: string, frames: (Dataset, Dataset), report: Result<Frame, Fault>)
    requires ColumnFrames(original, added, config.timeColumn, name) == Success(frames)
    requires report == ColumnReport(frames.0, frames.1, ColumnConfig(config, name), engines)
    ensures StepOf(original, added, config, engines)(name) == report
  {
  }

  /** Each column's report is a single well-formed row: its record. */
  lemma ColumnStepOneRow(original: Snapshot, added: Snapshot, config: ColumnsAnalysisConfig, engines: Engines)
    ensures forall n :: StepOf(original, added, config, engines)(n).Success? ==>
      OneRow(StepOf(original, added, config, engines)(n).value)
  {
    forall n | StepOf(original, added, config, engines)(n).Success?
      ensures OneRow(StepOf(original, added, config, engines)(n).value)
    {
      var frames := ColumnFrames(original, added, config.timeColumn, n).value;
      var record := ColumnRecord(frames.0, frames.1, ColumnConfig(config, n), engines).value;
      var f := FromRows([record]);
      assert StepOf(original, added, config, engines)(n).value == f;
      assert [record][..0] == [];
      assert RowKeys(f.rows) == KeySet(record);
    }
  }

  /**
   * A successful run has one row per column of the original other than the
   * time column, in visit order, each the record built from that column's
   * two frames; the report's columns are the union of the records' keys.
   */
  lemma ColumnsReportRows(original: Snapshot, added: Snapshot, config: ColumnsAnalysisConfig, engines: Engines)
    requires ColumnsReport(original, added, config, engines).Success?
    ensures var report := ColumnsReport(original, added, config, engines).value;
      var analysed := Analysed(Visited(original), config.timeColumn);
      Valid(report) &&
      (set c | c in report.columns) == RowKeys(report.rows) &&
      |report.rows| == |analysed| &&
      forall i :: 0 <= i < |analysed| ==>
        ColumnFrames(original, added, config.timeColumn, analysed[i]).Success? &&
        var frames := ColumnFrames(original, added, config.timeColumn, analysed[i]).value;
        ColumnRecord(frames.0, frames.1, ColumnConfig(config, analysed[i]), engines).Success? &&
        report.rows[i] == ColumnRecord(frames.0, frames.1, ColumnConfig(config, analysed[i]), engines).value
  {
    var step := StepOf(original, added, config, engines);
    var analysed := Analysed(Visited(original), config.timeColumn);
    ColumnStepOneRow(original, added, config, engines);
    AccumulateRows(Visited(original), config.timeColumn, step);
    var report := ColumnsReport(original, added, config, engines).value;
    forall i | 0 <= i < |analysed|
      ensures ColumnFrames(original, added, config.timeColumn, analysed[i]).Success? &&
        var frames := ColumnFrames(original, added, config.timeColumn, analysed[i]).value;
        ColumnRecord(frames.0, frames.1, ColumnConfig(config, analysed[i]), engines).Success? &&
        report.rows[i] == ColumnRecord(frames.0, frames.1, ColumnConfig(config, analysed[i]), engines).value
    {
      var n := analysed[i];
      assert step(n).Success? && report.rows[i] == step(n).value.rows[0];
      var frames := ColumnFrames(original, added, config.timeColumn, n).value;
      var record := ColumnRecord(frames.0, frames.1, ColumnConfig(config, n), engines).value;
      assert step(n).value == FromRows([record]);
    }
  }

  /**
   * The two frames for `name`: loaded from the stores when the original is
   * one (a store leaves no edit behind, so the loads read the slots), selected
   * from the frames otherwise.
   */
  method GetFrames(original: Source, added: Source, time: string, name: string)
    returns (frames: Result<(Dataset, Dataset), Fault>)
    requires Ready(original) && Ready(added)
    modifies Stores(original) + Stores(added)
    ensures Ready(original) && Ready(added)
    ensures old(Settled(original) && Settled(added)) ==>
      Settled(original) && Settled(added) &&
      Contents(original) == old(Contents(original)) && Contents(added) == old(Contents(added)) &&
      frames == ColumnFrames(old(Contents(original)), old(Contents(added)), time, name)
  {
    if original.OnDisk? {
      var originalColumn := original.store.LoadColumn(name);
      if originalColumn.Failure? {
        return Failure(originalColumn.error);
      }
      if added.InMemory? {
        return Failure(AttributeError("load_column"));
      }
      var newColumn := added.store.LoadColumn(name);
      if newColumn.Failure? {
        return Failure(newColumn.error);
      }
      return Success((originalColumn.value, newColumn.value));
    } else {
      var originalColumns := Select(original.data, [time, name]);
      if originalColumns.Failure? {
        return Failure(originalColumns.error);
      }
      if added.OnDisk? {
        return Failure(TypeError("'ColumnarDataFrame' object is not subscriptable"));
      }
      var newColumns := Select(added.data, [time, name]);
      if newColumns.Failure? {
        return Failure(newColumns.error);
      }
      return Success((originalColumns.value, newColumns.value));
    }
  }

  /** One pass of the loop of `process_columns`: fetch the column of both sources, then analyse it. */
  method AnalyzeColumn(original: Source, added: Source, config: ColumnsAnalysisConfig, engines: Engines,
                       name: string)
    returns (r: Result<Frame, Fault>)
    requires Ready(original) && Ready(added)
    modifies Stores(original) + Stores(added)
    ensures Ready(original) && Ready(added)
    ensures old(Settled(original) && Settled(added)) ==>
      Settled(original) && Settled(added) &&
      Contents(original) == old(Contents(original)) && Contents(added) == old(Contents(added)) &&
      r == StepOf(old(Contents(original)), old(Contents(added)), config, engines)(name)
  {
    ghost var settled := Settled(original) && Settled(added);
    ghost var before, after := Contents(original), Contents(added);
    var frames := GetFrames(original, added, config.timeColumn, name);
    if frames.Failure? {
      return Failure(frames.error);
    }
    r := ProcessColumn(frames.value.0, frames.value.1, ColumnConfig(config, name), engines);
    if settled {
      StepReport(before, after, config, engines, name, frames.value, r);
    }
  }

  /**
   * `process_columns`: visits the original's columns in order, skips the
   * time column, gets the two frames from the stores or by selection, and
   * concatenates each column's one-row report onto the accumulated one.
   */
  method ProcessColumns(original: Source, added: Source, config: ColumnsAnalysisConfig, engines: Engines)
    returns (r: Result<Frame, Fault>)
    requires Ready(original) && Ready(added)
    modifies Stores(original) + Stores(added)
    ensures Ready(original) && Ready(added)
    ensures old(Settled(original) && Settled(added)) ==>
      r == ColumnsReport(old(Contents(original)), old(Contents(added)), config, engines)
  {
    ghost var settled := Settled(original) && Settled(added);
    ghost var before, after := Contents(original), Contents(added);
    var names := if original.OnDisk? then original.store.columns else Keys(original.data);
    assert names == Visited(before);
    ghost var step := StepOf(before, after, config, engines);
    var finalReport := Frame([], []);
    for i := 0 to |names|
      invariant Ready(original) && Ready(added)
      invariant settled ==> Settled(original) && Settled(added)
      invariant settled ==> Contents(original) == before && Contents(added) == after
      invariant settled ==> Accumulate(names[..i], config.timeColumn, step) == Success(finalReport)
    {
      var name := names[i];
      if name == config.timeColumn {
        AccumulateNext(names, i, config.timeColumn, step);
        continue;
      }
      AccumulateNext(names, i, config.timeColumn, step);
      var columnReport := AnalyzeColumn(original, added, config, engines, name);
      if columnReport.Failure? {
        if settled {
          PrefixFailure(names, i + 1, config.timeColumn, step);
        }
        return Failure(columnReport.error);
      }
      finalReport := Concat(finalReport, columnReport.value);
    }
    assert names[..|names|] == names;
    return Success(finalReport);
  }

  /** A column present in both stores is read from the two slots of that name. */
  lemma StoredFrames(df: Dataset, addedDf: Dataset, time: string, name: string)
    requires name in Keys(df) && name in Keys(addedDf)
    ensures ColumnFrames(Stored(Keys(df), Slots(df, Keys(df))), Stored(Keys(addedDf), Slots(addedDf, Keys(addedDf))),
                         time, name)
         == Success((Slot(df, name), Slot(addedDf, name)))
  {
    var before, after := Slots(df, Keys(df)), Slots(addedDf, Keys(addedDf));
    assert name in before && before[name] == Slot(df, name);
    assert name in after && after[name] == Slot(addedDf, name);
  }

  /**
   * With column stores, every analysed time-series column fails: the loaded
   * frames hold the column alone, so `set_index(time_column)` raises a
   * KeyError.
   */
  lemma StoredTrendFails(df: Dataset, addedDf: Dataset, config: ColumnsAnalysisConfig, name: string,
                         engines: Engines)
    requires name in Keys(df) && name in Keys(addedDf) && name != config.timeColumn
    requires Lookup(config.typeSchema, name) == Some("timeseries")
    ensures ColumnStep(Stored(Keys(df), Slots(df, Keys(df))), Stored(Keys(addedDf), Slots(addedDf, Keys(addedDf))),
                       config, name, engines)
         == Failure(KeyError(config.timeColumn))
  {
    StoredFrames(df, addedDf, config.timeColumn, name);
    var columnConfig := ColumnConfig(config, name);
    TrendNeedsTimeColumn(Slot(df, name), Slot(addedDf, name), columnConfig, engines);
    assert ColumnReport(Slot(df, name), Slot(addedDf, name), columnConfig, engines)
        == Failure(KeyError(config.timeColumn));
  }
}
