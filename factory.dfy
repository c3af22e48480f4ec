/**
 * Handler selection: a web path selects the HTTP handler; otherwise the pair
 * (frame library, file type) picks one of the local handlers, and any other
 * pair is refused with a ValueError.
 */
module Factory {
  import opened Wrappers
  import opened Faults
  import opened Config

  datatype Kind = HTTPData | PandasCSV | PandasParquet | PolarsCSV | PolarsParquet
                | PySparkCSV | PySparkParquet | PySparkDelta

  /** A handler: its kind, and the Spark session it was built with (PySpark handlers only). */
  datatype Handler = Handler(kind: Kind, spark: Option<Session>)

  predicate UsesSpark(k: Kind) {
    k.PySparkCSV? || k.PySparkParquet? || k.PySparkDelta?
  }

  /** A non-empty path with an `http://` or `https://` scheme. */
  predicate IsRemote(path: Option<string>) {
    path.Some? && path.value != [] && ("http://" <= path.value || "https://" <= path.value)
  }

  /** The local handlers, by frame library and file type. */
  const Local: seq<(string, string, Kind)> := [
    ("pandas", "csv", PandasCSV), ("pandas", "parquet", PandasParquet),
    ("polars", "csv", PolarsCSV), ("polars", "parquet", PolarsParquet),
    ("pyspark", "csv", PySparkCSV), ("pyspark", "parquet", PySparkParquet), ("pyspark", "delta", PySparkDelta)]

  /** The kind a table lists for a pair, if any. */
  function TableKind(table: seq<(string, string, Kind)>, format: string, dataType: string): (r: Option<Kind>)
    ensures r.Some? ==> exists i :: 0 <= i < |table| && table[i] == (format, dataType, r.value)
    ensures r.None? ==> forall i :: 0 <= i < |table| ==> table[i].0 != format || table[i].1 != dataType
  {
    if table == [] then None
    else if table[0].0 == format && table[0].1 == dataType then Some(table[0].2)
    else
      var r := TableKind(table[1..], format, dataType);
      assert forall i :: 1 <= i < |table| ==> table[i] == table[1..][i - 1];
      r
  }

  /** `DataHandlerFactory.get_handler(config)`. */
  function GetHandler(config: DataConfig): Result<Handler, Fault> {
    if IsRemote(config.path) then Success(Handler(HTTPData, None))
    else if config.dataFormat == "pandas" && config.dataType == "csv" then Success(Handler(PandasCSV, None))
    else if config.dataFormat == "pandas" && config.dataType == "parquet" then Success(Handler(PandasParquet, None))
    else if config.dataFormat == "polars" && config.dataType == "csv" then Success(Handler(PolarsCSV, None))
    else if config.dataFormat == "polars" && config.dataType == "parquet" then Success(Handler(PolarsParquet, None))
    else if config.dataFormat == "pyspark" && config.dataType == "csv" then Success(Handler(PySparkCSV, config.spark))
    else if config.dataFormat == "pyspark" && config.dataType == "parquet" then Success(Handler(PySparkParquet, config.spark))
    else if config.dataFormat == "pyspark" && config.dataType == "delta" then Success(Handler(PySparkDelta, config.spark))
    else Failure(ValueError("No handler found for format: " + config.dataFormat + ", type: " + config.dataType))
  }

  /**
   * The decision agrees with the table: a web path gives the HTTP handler
   * whatever the pair; otherwise a listed pair gives its handler, built with
   * the session exactly when it is a PySpark one, and an unlisted pair fails
   * with a ValueError naming both.
   */
  lemma GetHandlerByTable(config: DataConfig)
    ensures IsRemote(config.path) ==> GetHandler(config) == Success(Handler(HTTPData, None))
    ensures !IsRemote(config.path) ==>
      GetHandler(config) ==
        match TableKind(Local, config.dataFormat, config.dataType)
        case Some(k) => Success(Handler(k, if UsesSpark(k) then config.spark else None))
        case None => Failure(ValueError("No handler found for format: " + config.dataFormat
                                        + ", type: " + config.dataType))
  {
    if !IsRemote(config.path) {
      match TableKind(Local, config.dataFormat, config.dataType)
      case Some(k) => ListedPair(config, k);
      case None => UnlistedPair(config);
    }
  }

  /** A pair the table lists gets its own handler. */
  lemma ListedPair(config: DataConfig, k: Kind)
    requires !IsRemote(config.path) && TableKind(Local, config.dataFormat, config.dataType) == Some(k)
    ensures GetHandler(config) == Success(Handler(k, if UsesSpark(k) then config.spark else None))
  {
    var i :| 0 <= i < |Local| && Local[i] == (config.dataFormat, config.dataType, k);
    Row(config, i);
  }

  /** The row at `i` of the table decides a pair it lists. */
  lemma Row(config: DataConfig, i: nat)
    requires !IsRemote(config.path) && i < |Local|
    requires Local[i].0 == config.dataFormat && Local[i].1 == config.dataType
    ensures GetHandler(config) == Success(Handler(Local[i].2, if UsesSpark(Local[i].2) then config.spark else None))
  {
    if i == 0 {
      assert Local[0] == ("pandas", "csv", PandasCSV);
    } else if i == 1 {
      assert Local[1] == ("pandas", "parquet", PandasParquet);
    } else if i == 2 {
      assert Local[2] == ("polars", "csv", PolarsCSV);
    } else if i == 3 {
      assert Local[3] == ("polars", "parquet", PolarsParquet);
    } else if i == 4 {
      assert Local[4] == ("pyspark", "csv", PySparkCSV);
    } else if i == 5 {
      assert Local[5] == ("pyspark", "parquet", PySparkParquet);
    } else {
      assert Local[6] == ("pyspark", "delta", PySparkDelta);
    }
  }

  /** A pair the table does not list is refused. */
  lemma UnlistedPair(config: DataConfig)
    requires !IsRemote(config.path) && TableKind(Local, config.dataFormat, config.dataType) == None
    ensures GetHandler(config) == Failure(ValueError("No handler found for format: " + config.dataFormat
                                                     + ", type: " + config.dataType))
  {
    var f, t := config.dataFormat, config.dataType;
    assert forall i :: 0 <= i < |Local| ==> Local[i].0 != f || Local[i].1 != t;
    assert Local[0].0 != f || Local[0].1 != t;
    assert Local[1].0 != f || Local[1].1 != t;
    assert Local[2].0 != f || Local[2].1 != t;
    assert Local[3].0 != f || Local[3].1 != t;
    assert Local[4].0 != f || Local[4].1 != t;
    assert Local[5].0 != f || Local[5].1 != t;
    assert Local[6].0 != f || Local[6].1 != t;
  }

  /** Without a path, or with an empty one, the HTTP handler is never chosen. */
  lemma NoPathNotRemote(config: DataConfig)
    requires config.path == None || config.path == Some("")
    ensures GetHandler(config).Success? ==> GetHandler(config).value.kind != HTTPData
  {
  }

  /** Outside a web path, `delta` is accepted for `pyspark` only. */
  lemma DeltaOnlyForSpark(config: DataConfig)
    requires !IsRemote(config.path) && config.dataType == "delta"
    ensures GetHandler(config).Success? <==> config.dataFormat == "pyspark"
  {
  }

  /**
   * The choice depends on the path, the library and the file type only; the
   * session is just carried into a PySpark handler.
   */
  lemma ChoiceIgnoresSession(config: DataConfig, other: DataConfig)
    requires config.path == other.path && config.dataFormat == other.dataFormat && config.dataType == other.dataType
    ensures GetHandler(config).Success? <==> GetHandler(other).Success?
    ensures GetHandler(config).Success? ==> GetHandler(config).value.kind == GetHandler(other).value.kind
    ensures GetHandler(config).Failure? ==> GetHandler(config) == GetHandler(other)
  {
  }
}
