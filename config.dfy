/** The configuration records of an analysis run: plain values without behaviour. */
module Config {
  import opened Wrappers

  /** `type_schema`: the declared type of each column ('categorical', 'numeric', 'timeseries', ...). */
  type TypeSchema = seq<(string, string)>

  /** The settings for analysing one column. */
  datatype ColumnAnalysisConfig = ColumnAnalysisConfig(columnName: string, timeColumn: string, period: int,
                                                       typeSchema: TypeSchema)

  /** The settings shared by every column of a run. */
  datatype ColumnsAnalysisConfig = ColumnsAnalysisConfig(timeColumn: string, period: int, typeSchema: TypeSchema)

  /** A Spark session, known only by identity. */
  datatype Session = Session(id: nat)

  /** Where a snapshot is read from: the frame library, the file type and the path. */
  datatype DataConfig = DataConfig(dataFormat: string, dataType: string, path: Option<string>, spark: Option<Session>)
}
