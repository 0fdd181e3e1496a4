/** The part of a survey data frame the mergers look at, as `pd.read_csv`
    hands it over. */
module Frame {
  import opened Wrappers

  /** One data row: its TARGET_PERIOD cell (None for NaN), its FCT_SOURCE cell
      as an integer (None for NaN) and the rest of its columns. */
  datatype Row<P> = Row(period: Option<string>, source: Option<int>, payload: P)

  /** Which of the named columns the frame has. */
  datatype Columns = Columns(targetPeriod: bool, fctSource: bool, point: bool)

  datatype Table<P> = Table(columns: Columns, rows: seq<Row<P>>)
}
