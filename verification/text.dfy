/**
 * String helpers with the semantics of the two runtimes the system uses:
 * PostgreSQL's TRIM (which strips only the space character) and LOWER,
 * and JavaScript's toUpperCase, Array.join, startsWith, includes and the
 * decimal rendering of integers.  Case mapping is ASCII only.
 */
module Text {

  // ---------------------------------------------------------------- trimming

  /** Index of the first character that is not a space (|s| when there is none). */
  function FirstNonSpace(s: string): (i: nat)
    ensures i <= |s|
    ensures forall k :: 0 <= k < i ==> s[k] == ' '
    ensures i < |s| ==> s[i] != ' '
  {
    if s == [] || s[0] != ' ' then 0 else 1 + FirstNonSpace(s[1..])
  }

  /** One past the index of the last character that is not a space (0 when there is none). */
  function EndNonSpace(s: string): (j: nat)
    ensures j <= |s|
    ensures forall k :: j <= k < |s| ==> s[k] == ' '
    ensures j > 0 ==> s[j - 1] != ' '
  {
    if s == [] || s[|s| - 1] != ' ' then |s| else EndNonSpace(s[..|s| - 1])
  }

  /** PostgreSQL `TRIM(s)`: removes leading and trailing spaces (and only spaces). */
  function Trim(s: string): (r: string)
    ensures |r| <= |s|
    ensures r == [] || (r[0] != ' ' && r[|r| - 1] != ' ')
    ensures exists i, j :: 0 <= i <= j <= |s| && r == s[i..j]
                           && (forall k :: 0 <= k < i ==> s[k] == ' ')
                           && (forall k :: j <= k < |s| ==> s[k] == ' ')
  {
    var i := FirstNonSpace(s);
    var j := EndNonSpace(s);
    if i < j then s[i..j]
    else
      assert s[0..0] == [];
      []
  }

  predicate AllSpaces(s: string) {
    forall k :: 0 <= k < |s| ==> s[k] == ' '
  }

  /** `TRIM(COALESCE(s, '')) = ''` for a non-null s. */
  predicate IsBlank(s: string) {
    Trim(s) == []
  }

  /** A string is blank after trimming exactly when it is made of spaces only. */
  lemma BlankIffAllSpaces(s: string)
    ensures IsBlank(s) <==> AllSpaces(s)
  {
    var i := FirstNonSpace(s);
    var j := EndNonSpace(s);
    if AllSpaces(s) {
      assert i == |s|;
    } else {
      var k :| 0 <= k < |s| && s[k] != ' ';
      assert i <= k < j;
    }
  }

  /** A string with no space at all is its own trim. */
  lemma TrimNoSpace(s: string)
    requires forall k :: 0 <= k < |s| ==> s[k] != ' '
    ensures Trim(s) == s
  {
    var i := FirstNonSpace(s);
    var j := EndNonSpace(s);
    assert i == 0 && j == |s|;
    assert s[0..|s|] == s;
  }

  /** A string that neither starts nor ends with a space is its own trim. */
  lemma TrimOfTrimmed(s: string)
    requires s == [] || (s[0] != ' ' && s[|s| - 1] != ' ')
    ensures Trim(s) == s
  {
    var i := FirstNonSpace(s);
    var j := EndNonSpace(s);
    assert i == 0 && j == |s|;
    assert s[0..|s|] == s;
  }

  // ------------------------------------------------------------ case mapping

  function LowerChar(c: char): char {
    if 'A' <= c <= 'Z' then (c as int - 'A' as int + 'a' as int) as char else c
  }

  function UpperChar(c: char): char {
    if 'a' <= c <= 'z' then (c as int - 'a' as int + 'A' as int) as char else c
  }

  /** PostgreSQL `LOWER(s)` restricted to ASCII letters. */
  function Lower(s: string): (r: string)
    ensures |r| == |s|
    ensures forall k :: 0 <= k < |s| ==> r[k] == LowerChar(s[k])
  {
    seq(|s|, k requires 0 <= k < |s| => LowerChar(s[k]))
  }

  /** JavaScript `s.toUpperCase()` restricted to ASCII letters. */
  function Upper(s: string): (r: string)
    ensures |r| == |s|
    ensures forall k :: 0 <= k < |s| ==> r[k] == UpperChar(s[k])
  {
    seq(|s|, k requires 0 <= k < |s| => UpperChar(s[k]))
  }

  predicate HasNoUpper(s: string) {
    forall k :: 0 <= k < |s| ==> !('A' <= s[k] <= 'Z')
  }

  lemma LowerIsLower(s: string)
    ensures HasNoUpper(Lower(s))
    ensures Lower(Lower(s)) == Lower(s)
  {
  }

  // ----------------------------------------------------------------- joining

  /** JavaScript `xs.join(sep)`. */
  function Join(xs: seq<string>, sep: string): (r: string)
    ensures xs == [] ==> r == []
    ensures |xs| == 1 ==> r == xs[0]
  {
    if xs == [] then []
    else if |xs| == 1 then xs[0]
    else Join(xs[..|xs| - 1], sep) + sep + xs[|xs| - 1]
  }

  /** Joining one more element appends the separator and that element. */
  lemma JoinSnoc(xs: seq<string>, x: string, sep: string)
    ensures xs != [] ==> Join(xs + [x], sep) == Join(xs, sep) + sep + x
  {
    if xs != [] {
      assert (xs + [x])[..|xs|] == xs;
    }
  }

  /** `s.startsWith(p)`. */
  predicate StartsWith(s: string, p: string) {
    |p| <= |s| && s[..|p|] == p
  }

  /** `s.includes(sub)`. */
  predicate Contains(s: string, sub: string) {
    exists i :: 0 <= i <= |s| - |sub| && OccursAt(s, sub, i)
  }

  predicate OccursAt(s: string, sub: string, i: int)
    requires 0 <= i <= |s| - |sub|
  {
    s[i..i + |sub|] == sub
  }

  // ----------------------------------------------------------------- numbers

  function DigitChar(d: nat): char
    requires d < 10
  {
    ('0' as int + d) as char
  }

  predicate IsDigit(c: char) {
    '0' <= c <= '9'
  }

  function DigitValue(c: char): nat
    requires IsDigit(c)
  {
    c as int - '0' as int
  }

  /** The decimal rendering JavaScript gives a non-negative integer. */
  function NatToString(n: nat): (r: string)
    ensures |r| >= 1
    ensures forall k :: 0 <= k < |r| ==> IsDigit(r[k])
    decreases n
  {
    if n < 10 then [DigitChar(n)] else NatToString(n / 10) + [DigitChar(n % 10)]
  }

  /** The decimal rendering JavaScript gives an integer: a minus sign before negatives. */
  function IntToString(i: int): (r: string)
    ensures |r| >= 1
    ensures i < 0 <==> r[0] == '-'
  {
    if i < 0 then "-" + NatToString(-i) else NatToString(i)
  }

  /** The value of a string of decimal digits (the reading of NatToString). */
  function DecimalValue(s: string): nat
    requires forall k :: 0 <= k < |s| ==> IsDigit(s[k])
  {
    if s == [] then 0 else DecimalValue(s[..|s| - 1]) * 10 + DigitValue(s[|s| - 1])
  }

  /** Reading back a rendered number gives the number: the rendering loses nothing. */
  lemma {:induction false} NatToStringRoundTrip(n: nat)
    ensures DecimalValue(NatToString(n)) == n
    decreases n
  {
    var r := NatToString(n);
    if n >= 10 {
      NatToStringRoundTrip(n / 10);
      assert r[..|r| - 1] == NatToString(n / 10);
    }
  }

  /** Distinct numbers render differently. */
  lemma NatToStringInjective(m: nat, n: nat)
    requires NatToString(m) == NatToString(n)
    ensures m == n
  {
    NatToStringRoundTrip(m);
    NatToStringRoundTrip(n);
  }
}
