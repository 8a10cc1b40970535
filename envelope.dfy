/**
  The caller-facing shapes the three tools return, before JSON encoding: a
  query result `{row_count, results}`, a table description, a table listing,
  or an `{error}` object. Being one datatype, an envelope is never both an
  error and a success payload.
 */
module Envelope {
  import opened Storage

  /** `{name, type, nullable, primary_key}` in a table description. */
  datatype ColumnDescriptor = ColumnDescriptor(
    name: string,
    declType: string,
    nullable: bool,
    primaryKey: bool)

  datatype Envelope =
    | Rows(rowCount: int, results: seq<Row>)
    | Columns(schema: seq<ColumnDescriptor>)
    | Tables(names: seq<string>)
    | Error(message: string)

  /** A query result's count is the number of rows it carries. */
  predicate WellFormed(e: Envelope) {
    e.Rows? ==> e.rowCount == |e.results|
  }

  /** The only way the gateway builds a query result: the count is computed
      from the rows, never supplied. */
  function RowsOf(rows: seq<Row>): (e: Envelope)
    ensures e.Rows? && WellFormed(e) && e.results == rows
  {
    Rows(|rows|, rows)
  }
}
