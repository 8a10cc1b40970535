/**
  The order in which `list_tables` reports table names: the storage engine's
  `ORDER BY name` under its default binary collation, which compares names
  character by character (by code point) and puts a proper prefix first.
 */
module Ordering {

  /** `a` sorts no later than `b`. */
  predicate NameLeq(a: string, b: string) {
    a == [] || (b != [] && (a[0] < b[0] || (a[0] == b[0] && NameLeq(a[1..], b[1..]))))
  }

  lemma {:induction false} NameLeqTotal(a: string, b: string)
    ensures NameLeq(a, b) || NameLeq(b, a)
  {
    if a != [] && b != [] && a[0] == b[0] {
      NameLeqTotal(a[1..], b[1..]);
    }
  }

  lemma {:induction false} NameLeqAntisymmetric(a: string, b: string)
    requires NameLeq(a, b) && NameLeq(b, a)
    ensures a == b
  {
    if a != [] && b != [] {
      NameLeqAntisymmetric(a[1..], b[1..]);
      assert a == [a[0]] + a[1..];
      assert b == [b[0]] + b[1..];
    }
  }

  lemma {:induction false} NameLeqTransitive(a: string, b: string, c: string)
    requires NameLeq(a, b) && NameLeq(b, c)
    ensures NameLeq(a, c)
  {
    if a != [] && b != [] && c != [] && a[0] == b[0] == c[0] {
      NameLeqTransitive(a[1..], b[1..], c[1..]);
    }
  }

  ghost predicate Sorted(s: seq<string>) {
    forall i, j :: 0 <= i < j < |s| ==> NameLeq(s[i], s[j])
  }

  /** `x` sorts no later than any element of `s`. */
  ghost predicate LowerBound(x: string, s: seq<string>) {
    forall j :: 0 <= j < |s| ==> NameLeq(x, s[j])
  }

  lemma ConsSorted(x: string, s: seq<string>)
    requires Sorted(s) && LowerBound(x, s)
    ensures Sorted([x] + s)
  {
    var r := [x] + s;
    forall i, j | 0 <= i < j < |r| ensures NameLeq(r[i], r[j]) {
      if i > 0 {
        assert r[i] == s[i - 1] && r[j] == s[j - 1];
      }
    }
  }

  lemma LowerBoundOfHead(x: string, s: seq<string>)
    requires Sorted(s) && s != [] && NameLeq(x, s[0])
    ensures LowerBound(x, s)
  {
    forall j | 0 < j < |s| ensures NameLeq(x, s[j]) {
      NameLeqTransitive(x, s[0], s[j]);
    }
  }

  /** A lower bound of every element of a collection bounds any arrangement of it. */
  lemma LowerBoundPermutation(y: string, s: seq<string>, r: seq<string>)
    requires LowerBound(y, s) && multiset(r) <= multiset(s)
    ensures LowerBound(y, r)
  {
    forall j | 0 <= j < |r| ensures NameLeq(y, r[j]) {
      assert r[j] in multiset(r);
      var k :| 0 <= k < |s| && s[k] == r[j];
    }
  }

  /** Place `x` in front of the first element it sorts no later than. */
  function Insert(x: string, s: seq<string>): (r: seq<string>)
    requires Sorted(s)
    ensures multiset(r) == multiset(s) + multiset{x}
    ensures Sorted(r)
  {
    if s == [] then [x]
    else if NameLeq(x, s[0]) then
      LowerBoundOfHead(x, s);
      ConsSorted(x, s);
      [x] + s
    else
      var rest := Insert(x, s[1..]);
      assert s == [s[0]] + s[1..];
      NameLeqTotal(x, s[0]);
      NameLeqTotal(s[0], s[0]);
      LowerBoundOfHead(s[0], s);
      assert LowerBound(s[0], [x] + s[1..]);
      assert multiset(rest) == multiset([x] + s[1..]);
      LowerBoundPermutation(s[0], [x] + s[1..], rest);
      ConsSorted(s[0], rest);
      [s[0]] + rest
  }

  /** The catalog names in `ORDER BY name` order. */
  function SortNames(s: seq<string>): (r: seq<string>)
    ensures multiset(r) == multiset(s)
    ensures Sorted(r)
  {
    if s == [] then []
    else
      assert s == [s[0]] + s[1..];
      Insert(s[0], SortNames(s[1..]))
  }

  lemma SortedTail(s: seq<string>)
    requires Sorted(s) && s != []
    ensures Sorted(s[1..])
  {
  }

  /** The head of a sorted sequence sorts no later than any of its elements. */
  lemma SortedHeadLeast(s: seq<string>, x: string)
    requires Sorted(s) && x in multiset(s)
    ensures NameLeq(s[0], x)
  {
    var k :| 0 <= k < |s| && s[k] == x;
    if k == 0 {
      NameLeqTotal(x, x);
    }
  }

  /** A sorted arrangement of a collection of names is unique. */
  lemma {:induction false} SortedUnique(a: seq<string>, b: seq<string>)
    requires Sorted(a) && Sorted(b) && multiset(a) == multiset(b)
    ensures a == b
  {
    if a != [] {
      assert a[0] in multiset(a);
      assert b != [];
      assert b[0] in multiset(b);
      SortedHeadLeast(a, b[0]);
      SortedHeadLeast(b, a[0]);
      NameLeqAntisymmetric(a[0], b[0]);
      assert a == [a[0]] + a[1..];
      assert b == [b[0]] + b[1..];
      assert multiset(a) == multiset{a[0]} + multiset(a[1..]);
      assert multiset(b) == multiset{b[0]} + multiset(b[1..]);
      assert a[0] == b[0];
      assert multiset(a[1..]) == multiset(a) - multiset{a[0]};
      assert multiset(b[1..]) == multiset(b) - multiset{b[0]};
      SortedTail(a);
      SortedTail(b);
      SortedUnique(a[1..], b[1..]);
    } else {
      assert |multiset(b)| == 0;
    }
  }

  /** The sorted listing depends only on which names there are, not on the
      order in which the catalog holds them. */
  lemma SortNamesPermutationInvariant(s: seq<string>, t: seq<string>)
    requires multiset(s) == multiset(t)
    ensures SortNames(s) == SortNames(t)
  {
    SortedUnique(SortNames(s), SortNames(t));
  }

  /** Sorting an already sorted listing gives it back unchanged. */
  lemma SortNamesIdempotent(s: seq<string>)
    ensures SortNames(SortNames(s)) == SortNames(s)
  {
    SortedUnique(SortNames(SortNames(s)), SortNames(s));
  }
}
