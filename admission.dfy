/**
  The query admission gate of `run_query`: a query is run only when its text,
  stripped of surrounding whitespace and uppercased, starts with `SELECT`.
  The test is a prefix test and nothing more.
 */
module Admission {
  import opened Text

  const Keyword: string := "SELECT"
  const RejectionMessage: string := "Only SELECT queries are allowed."

  /** The gate itself: `sql.strip().upper().startswith("SELECT")`. */
  predicate Admits(sql: string) {
    StartsWith(ToUpper(Strip(sql)), Keyword)
  }

  /** Reference reading of the gate: the text is some whitespace followed
      by six characters that spell `SELECT` up to ASCII case. */
  ghost predicate KeywordAt(sql: string, i: int) {
    && 0 <= i
    && i + |Keyword| <= |sql|
    && (forall k :: 0 <= k < i ==> IsWhitespace(sql[k]))
    && forall k :: 0 <= k < |Keyword| ==> UpperChar(sql[i + k]) == Keyword[k]
  }

  /** Two texts that differ only in the case of ASCII letters. */
  ghost predicate CaseVariants(s: string, t: string) {
    |s| == |t| && forall k :: 0 <= k < |s| ==> UpperChar(s[k]) == UpperChar(t[k])
  }

  lemma KeywordNotWhitespace(k: int)
    requires 0 <= k < |Keyword|
    ensures !IsWhitespace(Keyword[k])
  {
  }

  lemma AdmittedHasKeyword(sql: string)
    requires Admits(sql)
    ensures KeywordAt(sql, LeadingWhitespace(sql))
  {
    var n := LeadingWhitespace(sql);
    var u := Strip(sql);
    assert ToUpper(u)[..6] == Keyword;
    forall k | 0 <= k < |Keyword|
      ensures UpperChar(sql[n + k]) == Keyword[k]
    {
      assert ToUpper(u)[k] == Keyword[k];
      assert u[k] == sql[n + k];
    }
  }

  lemma KeywordIsAdmitted(sql: string, i: int)
    requires KeywordAt(sql, i)
    ensures Admits(sql)
  {
    KeywordNotWhitespace(0);
    KeywordNotWhitespace(5);
    assert UpperChar(sql[i]) == Keyword[0] && UpperChar(sql[i + 5]) == Keyword[5];
    LeadingWhitespaceIs(sql, i);
    var t := TrimStart(sql);
    assert t[5] == sql[i + 5];
    var u := Strip(sql);
    assert |u| >= 6;
    forall k | 0 <= k < 6 ensures ToUpper(u)[k] == Keyword[k] {
      assert u[k] == sql[i + k];
    }
    assert ToUpper(u)[..6] == Keyword;
  }

  /** The gate admits a text exactly when, after its leading whitespace, the
      next six characters are `SELECT` in any ASCII case. */
  lemma AdmitsIffLeadingKeyword(sql: string)
    ensures Admits(sql) <==> exists i :: KeywordAt(sql, i)
  {
    if Admits(sql) {
      AdmittedHasKeyword(sql);
    }
    if i :| KeywordAt(sql, i) {
      KeywordIsAdmitted(sql, i);
    }
  }

  /** Whitespace added at either end never changes the decision. */
  lemma AdmitsIgnoresPadding(w1: string, sql: string, w2: string)
    requires AllWhitespace(w1) && AllWhitespace(w2)
    ensures Admits(w1 + sql + w2) == Admits(sql)
  {
    StripPadded(w1, sql, w2);
  }

  /** Changing the case of ASCII letters never changes the decision. */
  lemma AdmitsIgnoresCase(s: string, t: string)
    requires CaseVariants(s, t)
    ensures Admits(s) == Admits(t)
  {
    assert ToUpper(s) == ToUpper(t);
    UpperStrip(s);
    UpperStrip(t);
  }
}
