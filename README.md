# Company database gateway: a Dafny model

The repository serves an in-memory company database (departments, employees,
projects) over three remote tools: `list_tables`, `describe_table` and
`run_query`. The only decision logic is in the three handlers of
`art_mcp_rl/mcp_server.py`, and that is what this project models:

- the **query admission gate** of `run_query`, which admits a query only if
  its text, stripped of surrounding whitespace and uppercased, starts with
  `SELECT` (`admission.dfy`, on the string primitives of `text.dfy`);
- the **schema inspector**: the exact-match catalog check of
  `describe_table`, the mapping of `PRAGMA table_info` records to
  `{name, type, nullable, primary_key}` (`schema.dfy`), and the name-ordered
  listing of `list_tables` (`ordering.dfy`);
- the **result envelopes**: `{row_count, results}` or `{error}` for a query,
  a description or `{error}` for a table, a listing of names
  (`envelope.dfy`), and the handlers that build them (`gateway.dfy`).

The storage engine is an opaque collaborator (`storage.dfy`): a `Store`
holding the catalog of table names and the tables, and an `Engine` record of
two primitives, `execute(store, sql)`, which answers with the fetched rows or
the text of the exception it raised together with the store as it is
afterwards, and `tableInfo(store, name)`, the column records or a failure.
The handlers are functions of the engine, the store and the argument, so
statements such as "the engine is never called" and "column metadata is not
consulted" are stated as "the outcome is the same whatever the engine does".
`scenarios.dfy` states what the handlers give on the seeded catalog.

Where the code does something other than what the gateway is meant to do
(every call answered by an envelope, a bare rejection text), the model
follows the code:

- `describe_table` does not guard the `PRAGMA table_info` call
  (`mcp_server.py:106`), so an engine failure there escapes the handler as an
  exception instead of becoming an error envelope. `DescribeTable` returns
  `Raised(message)` in that case.
- In `run_query` the JSON encoding happens inside the `try`
  (`mcp_server.py:137`). A BLOB value comes back from the engine as bytes,
  which JSON encoding refuses with a `TypeError`, so such a result becomes
  `Error("Object of type bytes is not JSON serializable")`.
- The rejection text is `"Only SELECT queries are allowed."`, exactly.
- A described table is not promised to have any columns: the count of
  descriptors is the count of records the engine reports.

The whitespace that `strip` removes is Python's `str.isspace` set, written
out in full in `Text.IsWhitespace`. Uppercasing covers the ASCII letters
only (see "Left out").

## Model

| member | source | states |
|---|---|---|
| `Text.IsWhitespace` | art_mcp_rl/mcp_server.py:128 | defines the characters `strip()` removes, Python's `str.isspace` set: U+0009 to U+000D, U+001C to U+0020, U+0085, U+00A0, U+1680, U+2000 to U+200A, U+2028, U+2029, U+202F, U+205F and U+3000 |
| `Text.TrimStart` | art_mcp_rl/mcp_server.py:128 | left strip: the result is a suffix of the text, every character cut off is whitespace, and the result does not start with whitespace |
| `Text.TrimEnd` | art_mcp_rl/mcp_server.py:128 | right strip: the result is a prefix of the text, every character cut off is whitespace, and the result does not end with whitespace |
| `Text.Strip` | art_mcp_rl/mcp_server.py:128 | `strip()`: the result is the run of the text that begins after its leading whitespace; everything after it is whitespace and its last character is not |
| `Text.UpperChar` | art_mcp_rl/mcp_server.py:128 | one character of the modelled uppercasing: an ASCII lowercase letter becomes its uppercase letter (code point minus 32), every other character is unchanged, so whitespace stays whitespace |
| `Text.StartsWith` | art_mcp_rl/mcp_server.py:128 | defines `startswith`: the text is at least as long as the prefix and its leading characters are the prefix |
| `Text.LeadingWhitespace` | art_mcp_rl/mcp_server.py:128 | the left strip removes the longest prefix made only of whitespace: every character before the cut is whitespace and the first one after it is not |
| `Text.TrailingWhitespace` | art_mcp_rl/mcp_server.py:128 | the right strip removes the longest suffix made only of whitespace: every character from the cut on is whitespace and the last one before it is not |
| `Text.StripPadded` | art_mcp_rl/mcp_server.py:128 | adding whitespace at either end of a text does not change what `strip` yields |
| `Text.ToUpper` | art_mcp_rl/mcp_server.py:128 | the modelled uppercasing, ASCII letters only, keeps the length and maps each character through the ASCII case mapping (see "Left out" for what the full mapping does) |
| `Text.UpperStrip` | art_mcp_rl/mcp_server.py:128 | uppercasing then stripping equals stripping then uppercasing |
| `Admission.Admits` | art_mcp_rl/mcp_server.py:128-129 | defines the gate: the text, stripped and then uppercased, starts with `SELECT`; `Admission.AdmitsIffLeadingKeyword` characterises it |
| `Admission.AdmitsIffLeadingKeyword` | art_mcp_rl/mcp_server.py:128-129 | a query is admitted if and only if, after its leading whitespace, its next six characters spell `SELECT` in any ASCII case |
| `Admission.AdmitsIgnoresPadding` | art_mcp_rl/mcp_server.py:128-129 | whitespace added at either end never changes the admission decision |
| `Admission.AdmitsIgnoresCase` | art_mcp_rl/mcp_server.py:128-129 | two texts that differ only in the case of ASCII letters get the same decision |
| `Ordering.NameLeq` | art_mcp_rl/mcp_server.py:84 | defines the engine's binary collation on names: the first differing code point decides, and a proper prefix sorts first |
| `Ordering.NameLeqTotal` | art_mcp_rl/mcp_server.py:84 | any two names are comparable under the binary collation |
| `Ordering.NameLeqAntisymmetric` | art_mcp_rl/mcp_server.py:84 | two names that each sort no later than the other are the same name |
| `Ordering.NameLeqTransitive` | art_mcp_rl/mcp_server.py:84 | the binary collation is transitive |
| `Ordering.SortNames` | art_mcp_rl/mcp_server.py:83-86 | the names ordered by name are sorted under the engine's binary collation and are a permutation of the catalog's names |
| `Ordering.SortedUnique` | art_mcp_rl/mcp_server.py:84 | two sorted arrangements of the same names are equal, so the ordered listing is determined by the names alone |
| `Ordering.SortNamesPermutationInvariant` | art_mcp_rl/mcp_server.py:83-86 | the listing does not depend on the order in which the catalog holds the names |
| `Ordering.SortNamesIdempotent` | art_mcp_rl/mcp_server.py:84 | ordering an ordered listing gives it back unchanged |
| `Schema.ToDescriptor` | art_mcp_rl/mcp_server.py:108-113 | defines one descriptor: name and type copied, `nullable` when the not-null flag is 0, `primary_key` when the key position is not 0 |
| `Schema.Describe` | art_mcp_rl/mcp_server.py:107-115 | one descriptor per raw column in the same order; name and type unchanged, `nullable` exactly when the not-null flag is 0, `primary_key` exactly when the key position is not 0 |
| `Schema.DescribeAppend` | art_mcp_rl/mcp_server.py:107-115 | the description is built record by record: describing a concatenation describes each part |
| `Schema.DescribeKeepsPrimaryKey` | art_mcp_rl/mcp_server.py:112 | the descriptors flagged `primary_key` are exactly the columns the engine marks as key columns, in order |
| `Envelope.RowsOf` | art_mcp_rl/mcp_server.py:137 | a query result's `row_count` is the number of rows it carries, and the rows are the ones given |
| `Gateway.ListTables` | art_mcp_rl/mcp_server.py:80-87 | `list_tables` returns the catalog's names, sorted by name, each as often as the catalog holds it |
| `Gateway.ListTablesExact` | art_mcp_rl/mcp_server.py:83-86 | any sorted arrangement of the catalog's names is exactly what `list_tables` returns |
| `Gateway.ListTablesStable` | art_mcp_rl/mcp_server.py:83-86 | two calls on catalogs listing the same names give identical output |
| `Gateway.DescribeTable` | art_mcp_rl/mcp_server.py:91-116 | a name not in the catalog gives exactly `Error("Table '<name>' not found.")` and only such a name gives an error envelope; otherwise the reply is the description of the engine's column records, or the engine's failure escaping |
| `Gateway.NotFoundMessage` | art_mcp_rl/mcp_server.py:104 | defines the not-found text `Table '<name>' not found.` |
| `Gateway.NotFoundMentionsName` | art_mcp_rl/mcp_server.py:104 | the not-found message holds the table name verbatim |
| `Gateway.DescribeMissingIgnoresMetadata` | art_mcp_rl/mcp_server.py:99-104 | for a name not in the catalog the reply is the same whatever the engine's column metadata |
| `Gateway.Serializable` | art_mcp_rl/mcp_server.py:136-139 | defines the rows JSON encoding accepts: no value is a BLOB; for any other result `json.dumps` raises the `TypeError` whose text is the constant `Gateway.BytesNotSerializable`, which the `except` turns into an error envelope |
| `Gateway.RunQuery` | art_mcp_rl/mcp_server.py:120-139 | a rejected query gives exactly `Error("Only SELECT queries are allowed.")` and the store unchanged; an admitted one leaves the store as the engine's run of the original text left it; every query result has `row_count` equal to its number of rows, which are the engine's rows in the engine's order; an engine failure gives an error envelope with the engine's message; rows holding a BLOB give exactly `Error("Object of type bytes is not JSON serializable")` |
| `Gateway.RejectedIgnoresEngine` | art_mcp_rl/mcp_server.py:128-132 | a rejected query never reaches the engine: the outcome is the same for every engine |
| `Gateway.AdmittedRunsOriginalText` | art_mcp_rl/mcp_server.py:134-137 | the outcome depends only on the engine's answer to the caller's exact text, not to any stripped or uppercased copy |
| `Scenarios.SeededListing` | art_mcp_rl/mcp_server.py:13-36 | on the seeded catalog `list_tables` returns departments, employees, projects |
| `Scenarios.DepartmentsDescribed` | art_mcp_rl/mcp_server.py:106-115 | the `departments` records map to four descriptors; the `INTEGER PRIMARY KEY` column is reported nullable and key |
| `Scenarios.NonexistentNotFound` | art_mcp_rl/mcp_server.py:103-104 | `describe_table("nonexistent")` gives `Error("Table 'nonexistent' not found.")` |
| `Scenarios.CaseDifferentNameNotFound` | art_mcp_rl/mcp_server.py:99-104 | the catalog check is an exact match: `describe_table("Departments")` is not found although `departments` exists |
| `Scenarios.DeleteRejected` | art_mcp_rl/mcp_server.py:128-132 | `run_query("DELETE FROM employees")` is rejected with the fixed message and leaves the store unchanged |
| `Scenarios.LeadingLetterDecides` | art_mcp_rl/mcp_server.py:128-129 | a text whose first character is not whitespace and whose ASCII uppercase is not `S` is rejected |
| `Scenarios.PaddedLowercaseAdmitted` | art_mcp_rl/mcp_server.py:128 | a lowercase `select` preceded by a newline and spaces and followed by a tab is admitted |
| `Scenarios.PrefixOnly` | art_mcp_rl/mcp_server.py:128-129 | the gate is a prefix test only: a batch starting with a SELECT, and a word merely starting with the keyword, are admitted |

## Left out

- The SQLite engine, the in-memory connection and the seed script
  (`mcp_server.py:9-71`): the engine is the abstract `Engine`; what it does
  with a statement, and its REAL (floating point) budgets, are not modelled.
- The conversion of engine rows to dictionaries (`dict(row)`, line 136) is
  taken to be the engine's: rows arrive as maps from column name to value.
- The query scenario with `ORDER BY` on the seeded dataset: its answer is
  the engine's evaluation of SQL, which is not part of this model.
- FastMCP server construction, tool registration and `mcp.run` over HTTP
  (lines 74-77, 80, 91, 120, 143-144), and the dispatch of tool names to
  handlers: transport and process plumbing.
- JSON encoding (`json.dumps`, `indent=2`): envelopes are modelled as their
  abstract shape; the only encoding behaviour modelled is the `TypeError` on
  bytes values in `run_query`.
- Text.ToUpper: covers the ASCII letters only, because Python's full Unicode
  case mapping is a library table. The source's `upper()` can change the
  length of a text (`ß` becomes `SS`), so "keeps the length" holds of the
  model only, and it admits, for example, `ſelect` (U+017F becomes `S`) and
  `selecẗ` (U+1E97 becomes `T` and a combining diaeresis), which the model
  rejects.
- The text of the `PRAGMA table_info(...)` statement built from the name
  (line 106): only that the metadata call runs after the exact-match check,
  on the checked name, and may fail.
- The catalog query of `list_tables` and of the existence check (lines
  83-85, 99-102) is taken never to fail.
- Concurrency: the engine's own locking governs concurrent calls; the
  handlers hold no state of their own.
