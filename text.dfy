/**
  The string primitives the query gate uses: Python's `str.strip()` with no
  argument, `str.upper()` restricted to ASCII letters, and `str.startswith`.
 */
module Text {

  /** Python's `str.isspace()`: the characters `str.strip()` removes. */
  predicate IsWhitespace(c: char) {
    var n := c as int;
    (0x09 <= n <= 0x0D) || (0x1C <= n <= 0x20) || n == 0x85 || n == 0xA0
    || n == 0x1680 || (0x2000 <= n <= 0x200A) || n == 0x2028 || n == 0x2029
    || n == 0x202F || n == 0x205F || n == 0x3000
  }

  predicate AllWhitespace(s: string) {
    forall k :: 0 <= k < |s| ==> IsWhitespace(s[k])
  }

  /** The length of the longest whitespace prefix. */
  function LeadingWhitespace(s: string): (n: nat)
    ensures n <= |s|
    ensures forall k :: 0 <= k < n ==> IsWhitespace(s[k])
    ensures n < |s| ==> !IsWhitespace(s[n])
  {
    if |s| > 0 && IsWhitespace(s[0]) then
      var n := 1 + LeadingWhitespace(s[1..]);
      assert forall k :: 1 <= k < n ==> s[k] == s[1..][k - 1];
      n
    else 0
  }

  /** Where the longest whitespace suffix begins. */
  function TrailingWhitespace(s: string): (m: nat)
    ensures m <= |s|
    ensures forall k :: m <= k < |s| ==> IsWhitespace(s[k])
    ensures m > 0 ==> !IsWhitespace(s[m - 1])
  {
    if |s| > 0 && IsWhitespace(s[|s| - 1]) then
      var m := TrailingWhitespace(s[..|s| - 1]);
      assert forall k :: m <= k < |s| - 1 ==> s[k] == s[..|s| - 1][k];
      m
    else |s|
  }

  /** `str.lstrip()`: a suffix of the text, everything before it whitespace,
      and not starting with whitespace. */
  function TrimStart(s: string): (r: string)
    ensures |r| <= |s| && r == s[|s| - |r|..]
    ensures forall k :: 0 <= k < |s| - |r| ==> IsWhitespace(s[k])
    ensures |r| > 0 ==> !IsWhitespace(s[|s| - |r|])
  {
    s[LeadingWhitespace(s)..]
  }

  /** `str.rstrip()`: a prefix of the text, everything after it whitespace,
      and not ending with whitespace. */
  function TrimEnd(s: string): (r: string)
    ensures |r| <= |s| && r == s[..|r|]
    ensures forall k :: |r| <= k < |s| ==> IsWhitespace(s[k])
    ensures |r| > 0 ==> !IsWhitespace(s[|r| - 1])
  {
    s[..TrailingWhitespace(s)]
  }

  /** `str.strip()`: the part of the text that follows its leading
      whitespace and precedes its trailing whitespace. */
  function Strip(s: string): (r: string)
    ensures LeadingWhitespace(s) + |r| <= |s|
    ensures forall k :: 0 <= k < |r| ==> r[k] == s[LeadingWhitespace(s) + k]
    ensures forall k :: LeadingWhitespace(s) + |r| <= k < |s| ==> IsWhitespace(s[k])
    ensures |r| > 0 ==> !IsWhitespace(s[LeadingWhitespace(s) + |r| - 1])
  {
    TrimEnd(TrimStart(s))
  }

  /** `str.upper()` on one character, for the ASCII letters only. */
  function UpperChar(c: char): (u: char)
    ensures IsWhitespace(u) == IsWhitespace(c)
    ensures 'a' <= c <= 'z' ==> u as int == c as int - 32
    ensures !('a' <= c <= 'z') ==> u == c
  {
    if 'a' <= c <= 'z' then (c as int - 32) as char else c
  }

  /** `str.upper()`, character by character. */
  function ToUpper(s: string): (r: string)
    ensures |r| == |s|
    ensures forall k :: 0 <= k < |s| ==> r[k] == UpperChar(s[k])
  {
    if s == [] then [] else [UpperChar(s[0])] + ToUpper(s[1..])
  }

  /** `str.startswith(prefix)`. */
  predicate StartsWith(s: string, prefix: string) {
    |prefix| <= |s| && s[..|prefix|] == prefix
  }

  /** The whitespace prefix is determined by where it stops. */
  lemma LeadingWhitespaceIs(s: string, n: nat)
    requires n <= |s|
    requires forall k :: 0 <= k < n ==> IsWhitespace(s[k])
    requires n < |s| ==> !IsWhitespace(s[n])
    ensures LeadingWhitespace(s) == n
  {
  }

  /** The whitespace suffix is determined by where it starts. */
  lemma TrailingWhitespaceIs(s: string, m: nat)
    requires m <= |s|
    requires forall k :: m <= k < |s| ==> IsWhitespace(s[k])
    requires m > 0 ==> !IsWhitespace(s[m - 1])
    ensures TrailingWhitespace(s) == m
  {
  }

  /** `rstrip` after a non-whitespace character: whitespace appended at the
      end is dropped again. */
  lemma TrimEndPadded(y: string, w: string)
    requires y != [] && !IsWhitespace(y[0]) && AllWhitespace(w)
    ensures TrimEnd(y + w) == TrimEnd(y)
  {
    var b := TrailingWhitespace(y);
    assert b > 0;
    TrailingWhitespaceIs(y + w, b);
    assert (y + w)[..b] == y[..b];
  }

  /** Whitespace added at either end does not change what `strip` yields. */
  lemma StripPadded(w1: string, s: string, w2: string)
    requires AllWhitespace(w1) && AllWhitespace(w2)
    ensures Strip(w1 + s + w2) == Strip(s)
  {
    var x := w1 + s + w2;
    var a := LeadingWhitespace(s);
    if a < |s| {
      LeadingWhitespaceIs(x, |w1| + a);
      assert TrimStart(x) == s[a..] + w2;
      TrimEndPadded(s[a..], w2);
    } else {
      LeadingWhitespaceIs(x, |x|);
    }
  }

  lemma {:induction false} ToUpperSlice(s: string, i: int)
    requires 0 <= i <= |s|
    ensures ToUpper(s)[i..] == ToUpper(s[i..])
    ensures ToUpper(s)[..i] == ToUpper(s[..i])
  {
    forall k | 0 <= k < |s| - i ensures ToUpper(s)[i..][k] == ToUpper(s[i..])[k] {
      assert s[i..][k] == s[i + k];
    }
    forall k | 0 <= k < i ensures ToUpper(s)[..i][k] == ToUpper(s[..i])[k] {
      assert s[..i][k] == s[k];
    }
  }

  /** Uppercasing commutes with stripping, because it maps whitespace to
      whitespace and everything else to non-whitespace. */
  lemma UpperStrip(s: string)
    ensures ToUpper(Strip(s)) == Strip(ToUpper(s))
  {
    var a := LeadingWhitespace(s);
    LeadingWhitespaceIs(ToUpper(s), a);
    ToUpperSlice(s, a);
    var y := s[a..];
    var b := TrailingWhitespace(y);
    TrailingWhitespaceIs(ToUpper(y), b);
    ToUpperSlice(y, b);
  }
}
