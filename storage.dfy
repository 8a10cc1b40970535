/**
  The storage engine, seen from the gateway as an opaque collaborator: a
  catalog of table names, and two primitives that may fail, one that runs a
  statement (and may change the store) and one that reports the columns of a
  table (`PRAGMA table_info`).
 */
module Storage {
  import opened Wrappers

  /** A value as the engine hands it back: NULL, INTEGER, REAL, TEXT or BLOB. */
  datatype Value = Null | Integer(i: int) | Real(r: real) | Text(t: string) | Blob(bytes: seq<bv8>)

  /** One result row, keyed by column name. */
  type Row = map<string, Value>

  /** One record of `PRAGMA table_info`: column id, name, declared type,
      not-null flag, default value, and position in the primary key (0 when
      the column is not part of it). */
  datatype RawColumn = RawColumn(
    cid: int,
    name: string,
    declType: string,
    notNull: int,
    defaultValue: Value,
    pk: int)

  datatype Table = Table(columns: seq<RawColumn>, rows: seq<Row>)

  /** The dataset: the names the catalog lists as tables, and their contents. */
  datatype Store = Store(catalog: seq<string>, tables: map<string, Table>)

  /** The engine's two primitives. `execute` answers with the fetched rows or
      the text of the exception it raised, together with the store as it is
      afterwards. */
  datatype Engine = Engine(
    execute: (Store, string) -> (Result<seq<Row>, string>, Store),
    tableInfo: (Store, string) -> Result<seq<RawColumn>, string>)
}
