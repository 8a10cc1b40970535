/**
  The gateway on the seeded company dataset: three tables created in the
  order departments, employees, projects.
 */
module Scenarios {
  import opened Wrappers
  import opened Text
  import opened Storage
  import opened Envelope
  import opened Admission
  import opened Ordering
  import opened Gateway

  const SeededCatalog: seq<string> := ["departments", "employees", "projects"]

  /** The `PRAGMA table_info` records of `departments`. An `INTEGER PRIMARY
      KEY` column carries no not-null flag, so `id` is reported nullable. */
  const DepartmentColumns: seq<RawColumn> := [
    RawColumn(0, "id", "INTEGER", 0, Null, 1),
    RawColumn(1, "name", "TEXT", 1, Null, 0),
    RawColumn(2, "location", "TEXT", 1, Null, 0),
    RawColumn(3, "budget", "REAL", 1, Null, 0)
  ]

  lemma SeededListing(tables: map<string, Table>)
    ensures ListTables(Store(SeededCatalog, tables)) == Tables(SeededCatalog)
  {
    assert NameLeq("departments", "employees");
    assert NameLeq("employees", "projects");
    assert NameLeq("departments", "projects");
    ListTablesExact(Store(SeededCatalog, tables), SeededCatalog);
  }

  lemma DepartmentsDescribed(engine: Engine, tables: map<string, Table>)
    requires engine.tableInfo(Store(SeededCatalog, tables), "departments") == Success(DepartmentColumns)
    ensures DescribeTable(engine, Store(SeededCatalog, tables), "departments") == Returned(Columns([
              ColumnDescriptor("id", "INTEGER", true, true),
              ColumnDescriptor("name", "TEXT", false, false),
              ColumnDescriptor("location", "TEXT", false, false),
              ColumnDescriptor("budget", "REAL", false, false)]))
  {
    assert "departments" in SeededCatalog;
  }

  lemma NonexistentNotFound(engine: Engine, tables: map<string, Table>)
    ensures DescribeTable(engine, Store(SeededCatalog, tables), "nonexistent")
            == Returned(Error("Table 'nonexistent' not found."))
  {
  }

  /** The catalog check is an exact match: a name that differs from a table
      only in case is not found. */
  lemma CaseDifferentNameNotFound(engine: Engine, tables: map<string, Table>)
    ensures DescribeTable(engine, Store(SeededCatalog, tables), "Departments")
            == Returned(Error("Table 'Departments' not found."))
  {
    assert "Departments" != "departments" by {
      assert "Departments"[0] != "departments"[0];
    }
  }

  lemma DeleteRejected(engine: Engine, store: Store)
    ensures RunQuery(engine, store, "DELETE FROM employees") == QueryOutcome(Error("Only SELECT queries are allowed."), store)
  {
    var sql := "DELETE FROM employees";
    assert sql[0] == 'D';
    LeadingLetterDecides(sql);
  }

  /** A text that starts with a letter other than `s` or `S` is rejected. */
  lemma LeadingLetterDecides(sql: string)
    requires sql != [] && !IsWhitespace(sql[0]) && UpperChar(sql[0]) != 'S'
    ensures !Admits(sql)
  {
    LeadingWhitespaceIs(sql, 0);
    if Admits(sql) {
      AdmittedHasKeyword(sql);
    }
  }

  /** Python's `strip` and an ASCII-lowercase keyword still pass the gate. */
  lemma PaddedLowercaseAdmitted()
    ensures Admits("\n  select *\t")
  {
    var sql := "\n  select *\t";
    assert KeywordAt(sql, 3);
    KeywordIsAdmitted(sql, 3);
  }

  /** The gate is a prefix test only: a batch that starts with a SELECT is
      admitted whatever follows it, and so is a word that merely starts with
      the keyword. */
  lemma PrefixOnly()
    ensures Admits("SELECT 1; DELETE FROM employees")
    ensures Admits("SELECTED")
  {
    assert KeywordAt("SELECT 1; DELETE FROM employees", 0);
    KeywordIsAdmitted("SELECT 1; DELETE FROM employees", 0);
    assert KeywordAt("SELECTED", 0);
    KeywordIsAdmitted("SELECTED", 0);
  }
}
