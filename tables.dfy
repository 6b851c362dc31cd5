/**
 * In-memory stand-ins for the pandas DataFrames both pipelines read from CSV
 * snapshot files: a table is a set of column names and a sequence of rows, a
 * row maps column names to cells.
 */
module Tables {

  /**
   * One cell: `Missing` is a NaN or an empty field, `Text` a string,
   * `Number` a numeric value, `Items` a cell that already holds a list.
   */
  datatype Cell = Missing | Text(text: string) | Number(x: real) | Items(items: seq<string>)

  type Row = map<string, Cell>

  datatype Table = Table(columns: set<string>, rows: seq<Row>)

  /** `row[c]`, or NaN when the row has no such field. */
  function Get(r: Row, c: string): Cell {
    if c in r then r[c] else Missing
  }

  /** `DataFrame.empty`: no columns or no rows. */
  predicate IsEmpty(t: Table) {
    t.columns == {} || t.rows == []
  }

  /** The exceptions the two pipelines raise to their callers. */
  datatype Failure =
    | LabelsNotProvided   // `process_data` called without labels
    | NoCsvFiles          // no snapshot file in the history directory
    | MetricNotNumeric    // `float()` of a metric cell that holds no number
}
