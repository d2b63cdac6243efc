/**
 * The e-mail check of sp_create_booking: the POSIX regular expression
 *   ^[A-Za-z0-9._%+-]+@[A-Za-z0-9.-]+\.[A-Za-z]{2,}$
 * applied with `!~` to the caller's string as given (not trimmed).
 * It is a custom pattern, not the grammar of RFC 5322.
 *
 * `MatchesEmailPattern` reads the regular expression as a decomposition of the
 * string; `EmailFormatOk` decides it by scanning; `EmailFormatOkIffPattern`
 * proves that the two agree on every string.
 */
module EmailPattern {
  import Text

  predicate IsAlpha(c: char) {
    'A' <= c <= 'Z' || 'a' <= c <= 'z'
  }

  predicate IsAlnum(c: char) {
    IsAlpha(c) || '0' <= c <= '9'
  }

  /** `[A-Za-z0-9._%+-]` */
  predicate LocalChar(c: char) {
    IsAlnum(c) || c == '.' || c == '_' || c == '%' || c == '+' || c == '-'
  }

  /** `[A-Za-z0-9.-]` */
  predicate DomainChar(c: char) {
    IsAlnum(c) || c == '.' || c == '-'
  }

  /**
   * The string splits as  local '@' domain '.' tld  with the '@' at `at` and the
   * final '.' at `dot`: a non-empty local part, a non-empty domain part and at
   * least two letters after the dot, each part drawn from its character class.
   */
  predicate SplitsAt(s: string, at: int, dot: int) {
    && 0 < at && at + 1 < dot && dot + 2 < |s|
    && s[at] == '@' && s[dot] == '.'
    && (forall k :: 0 <= k < at ==> LocalChar(s[k]))
    && (forall k :: at < k < dot ==> DomainChar(s[k]))
    && (forall k :: dot < k < |s| ==> IsAlpha(s[k]))
  }

  /** The anchored regular expression matches the whole string. */
  ghost predicate MatchesEmailPattern(s: string) {
    exists at, dot :: SplitsAt(s, at, dot)
  }

  /** Index of the first occurrence of `c` in `s`, or |s|. */
  function FirstIndexOf(s: string, c: char): (i: nat)
    ensures i <= |s|
    ensures forall k :: 0 <= k < i ==> s[k] != c
    ensures i < |s| ==> s[i] == c
  {
    if s == [] || s[0] == c then 0 else 1 + FirstIndexOf(s[1..], c)
  }

  /** Index of the last occurrence of `c` in `s`, or -1. */
  function LastIndexOf(s: string, c: char): (j: int)
    ensures -1 <= j < |s|
    ensures forall k :: j < k < |s| ==> s[k] != c
    ensures j >= 0 ==> s[j] == c
  {
    if s == [] then -1
    else if s[|s| - 1] == c then |s| - 1
    else LastIndexOf(s[..|s| - 1], c)
  }

  /** The scanner: the first '@', then the last '.' after it. */
  function EmailFormatOk(s: string): bool {
    var at := FirstIndexOf(s, '@');
    var dot := LastIndexOf(s, '.');
    && 0 < at < |s|
    && (forall k :: 0 <= k < at ==> LocalChar(s[k]))
    && (forall k :: at < k < |s| ==> DomainChar(s[k]))
    && at + 1 < dot && dot + 2 < |s|
    && (forall k :: dot < k < |s| ==> IsAlpha(s[k]))
  }

  /** The scanner accepts exactly the strings the regular expression matches. */
  lemma EmailFormatOkIffPattern(s: string)
    ensures EmailFormatOk(s) <==> MatchesEmailPattern(s)
  {
    var at := FirstIndexOf(s, '@');
    var dot := LastIndexOf(s, '.');
    if EmailFormatOk(s) {
      assert SplitsAt(s, at, dot);
    }
    if MatchesEmailPattern(s) {
      var a, d :| SplitsAt(s, a, d);
      // the local part has no '@', so the first '@' is the one at `a`
      assert at == a;
      // letters follow `d`, so the last '.' is the one at `d`
      assert dot == d;
      forall k | at < k < |s| ensures DomainChar(s[k]) {
        if k > d { assert IsAlpha(s[k]); }
      }
    }
  }

  /** A matching string contains no space, so trimming leaves it as it is. */
  lemma MatchHasNoSpace(s: string)
    requires MatchesEmailPattern(s)
    ensures forall k :: 0 <= k < |s| ==> s[k] != ' '
    ensures Text.Trim(s) == s
    ensures !Text.IsBlank(s)
  {
    var a, d :| SplitsAt(s, a, d);
    assert forall k :: 0 <= k < |s| ==> s[k] != ' ' by {
      forall k | 0 <= k < |s| ensures s[k] != ' ' {
        if k < a { assert LocalChar(s[k]); }
        else if a < k < d { assert DomainChar(s[k]); }
        else if d < k { assert IsAlpha(s[k]); }
      }
    }
    Text.TrimNoSpace(s);
  }

  /** Whitespace around an otherwise valid address makes the untrimmed check fail. */
  lemma LeadingSpaceRejected(s: string)
    requires |s| > 0 && s[0] == ' '
    ensures !MatchesEmailPattern(s)
  {
    if MatchesEmailPattern(s) {
      MatchHasNoSpace(s);
    }
  }
}
