/**
  The three tool handlers of the gateway: `list_tables`, `describe_table`
  and `run_query`. Each is a function of the engine, the store and the
  caller's argument.
 */
module Gateway {
  import opened Wrappers
  import opened Storage
  import opened Envelope
  import opened Admission
  import opened Ordering
  import opened Schema

  /** What a handler hands back to the tool transport: an envelope, or an
      exception it let escape. */
  datatype Reply = Returned(envelope: Envelope) | Raised(message: string)

  /** `run_query`'s envelope, with the store as the engine left it. */
  datatype QueryOutcome = QueryOutcome(envelope: Envelope, store: Store)

  /** The text of the `TypeError` that JSON encoding raises on a BLOB value. */
  const BytesNotSerializable: string := "Object of type bytes is not JSON serializable"

  /** The error text for a table the catalog does not list. */
  function NotFoundMessage(name: string): string {
    "Table '" + name + "' not found."
  }

  /** Rows JSON encoding accepts: none holds a BLOB, which the engine gives
      back as bytes. */
  predicate Serializable(rows: seq<Row>) {
    forall k, c :: 0 <= k < |rows| && c in rows[k] ==> !rows[k][c].Blob?
  }

  /** `list_tables`: the catalog's names, ordered by name. */
  function ListTables(store: Store): (e: Envelope)
    ensures e.Tables?
    ensures Sorted(e.names)
    ensures multiset(e.names) == multiset(store.catalog)
  {
    Tables(SortNames(store.catalog))
  }

  /** The listing is exactly the catalog's names in sorted order: any sorted
      arrangement of those names is the one `list_tables` returns. */
  lemma ListTablesExact(store: Store, names: seq<string>)
    requires Sorted(names) && multiset(names) == multiset(store.catalog)
    ensures ListTables(store) == Tables(names)
  {
    SortedUnique(ListTables(store).names, names);
  }

  /** Two stores whose catalogs list the same names give the same listing. */
  lemma ListTablesStable(s1: Store, s2: Store)
    requires multiset(s1.catalog) == multiset(s2.catalog)
    ensures ListTables(s1) == ListTables(s2)
  {
    SortNamesPermutationInvariant(s1.catalog, s2.catalog);
  }

  /** `describe_table`: the exact-match catalog check, then the column
      records mapped to descriptors. The metadata call is not guarded, so its
      failure escapes the handler. */
  function DescribeTable(engine: Engine, store: Store, name: string): (r: Reply)
    ensures name !in store.catalog ==> r == Returned(Error(NotFoundMessage(name)))
    ensures r.Returned? && r.envelope.Error? ==> name !in store.catalog
    ensures r.Returned? ==> r.envelope.Error? || r.envelope.Columns?
    ensures r.Returned? && r.envelope.Columns? ==>
              && name in store.catalog
              && engine.tableInfo(store, name).Success?
              && r.envelope.schema == Describe(engine.tableInfo(store, name).value)
    ensures r.Raised? ==> name in store.catalog && engine.tableInfo(store, name) == Failure(r.message)
  {
    if name !in store.catalog then
      Returned(Error(NotFoundMessage(name)))
    else
      match engine.tableInfo(store, name)
      case Failure(msg) => Raised(msg)
      case Success(cols) => Returned(Columns(Describe(cols)))
  }

  /** The not-found message names the table verbatim. */
  lemma NotFoundMentionsName(name: string)
    ensures var m := NotFoundMessage(name);
            |m| == |name| + 19 && m[7..7 + |name|] == name
  {
  }

  /** For a name the catalog does not list, the column metadata is never
      consulted: the reply is the same whatever the engine would report. */
  lemma DescribeMissingIgnoresMetadata(e1: Engine, e2: Engine, store: Store, name: string)
    requires name !in store.catalog
    ensures DescribeTable(e1, store, name) == DescribeTable(e2, store, name)
  {
  }

  /** `run_query`: the admission gate, then the engine run on the caller's
      own text, then the envelope. The engine's exception and the encoder's
      `TypeError` both become error envelopes. */
  function RunQuery(engine: Engine, store: Store, sql: string): (out: QueryOutcome)
    ensures !Admits(sql) ==> out == QueryOutcome(Error(RejectionMessage), store)
    ensures Admits(sql) ==> out.store == engine.execute(store, sql).1
    ensures WellFormed(out.envelope)
    ensures out.envelope.Rows? || out.envelope.Error?
    ensures out.envelope.Rows? ==>
              && Admits(sql)
              && engine.execute(store, sql).0 == Success(out.envelope.results)
              && Serializable(out.envelope.results)
    ensures Admits(sql) && engine.execute(store, sql).0.Failure? ==>
              out.envelope == Error(engine.execute(store, sql).0.error)
    ensures Admits(sql) && engine.execute(store, sql).0.Success? && Serializable(engine.execute(store, sql).0.value) ==>
              out.envelope.Rows?
    ensures Admits(sql) && engine.execute(store, sql).0.Success? && !Serializable(engine.execute(store, sql).0.value) ==>
              out.envelope == Error(BytesNotSerializable)
  {
    if !Admits(sql) then
      QueryOutcome(Error(RejectionMessage), store)
    else
      var (result, after) := engine.execute(store, sql);
      match result
      case Failure(msg) => QueryOutcome(Error(msg), after)
      case Success(rows) =>
        if Serializable(rows) then QueryOutcome(RowsOf(rows), after)
        else QueryOutcome(Error(BytesNotSerializable), after)
  }

  /** A rejected query never reaches the engine: the outcome is the same
      whatever the engine would do. */
  lemma RejectedIgnoresEngine(e1: Engine, e2: Engine, store: Store, sql: string)
    requires !Admits(sql)
    ensures RunQuery(e1, store, sql) == RunQuery(e2, store, sql)
  {
  }

  /** An admitted query is run on the caller's text as given: engines that
      answer that exact text alike give the same outcome, whatever they do
      with any other text (the stripped or uppercased copy included). */
  lemma AdmittedRunsOriginalText(e1: Engine, e2: Engine, store: Store, sql: string)
    requires e1.execute(store, sql) == e2.execute(store, sql)
    ensures RunQuery(e1, store, sql) == RunQuery(e2, store, sql)
  {
  }
}
