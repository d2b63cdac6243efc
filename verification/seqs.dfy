/**
 * The relational operations the stored procedures use on a table kept as a
 * sequence of rows: WHERE (Filter), COUNT(*) ... WHERE (CountIf), lookup by
 * primary key (IndexOfKey) and ORDER BY an integer column (SortBy).
 */
module Seqs {
  import opened Common

  /** `SELECT * ... WHERE p`, keeping the table's order. */
  function Filter<T(!new)>(s: seq<T>, p: T -> bool): (r: seq<T>)
    ensures |r| <= |s|
    ensures forall x :: x in r <==> x in s && p(x)
    ensures forall x :: multiset(r)[x] == if p(x) then multiset(s)[x] else 0
  {
    if s == [] then []
    else
      var rest := Filter(s[1..], p);
      assert s == [s[0]] + s[1..];
      if p(s[0]) then [s[0]] + rest else rest
  }

  /** Two conditions that agree on every row select the same rows. */
  lemma {:induction false} FilterCongruent<T(!new)>(s: seq<T>, p: T -> bool, q: T -> bool)
    requires forall x :: x in s ==> p(x) == q(x)
    ensures Filter(s, p) == Filter(s, q)
    decreases |s|
  {
    if s != [] {
      assert forall x :: x in s[1..] ==> x in s;
      FilterCongruent(s[1..], p, q);
    }
  }

  /** Selecting rows keeps a key unique: WHERE never duplicates a row. */
  lemma {:induction false} FilterKeysUnique<T(!new)>(s: seq<T>, p: T -> bool, key: T -> int)
    ensures KeysUnique(s, key) ==> KeysUnique(Filter(s, p), key)
    decreases |s|
  {
    if s != [] && KeysUnique(s, key) {
      assert forall i :: 0 <= i < |s| - 1 ==> s[1..][i] == s[i + 1];
      FilterKeysUnique(s[1..], p, key);
      var rest := Filter(s[1..], p);
      forall x | x in rest
        ensures key(x) != key(s[0])
      {
        var i :| 0 <= i < |s[1..]| && s[1..][i] == x;
        assert s[i + 1] == x;
      }
      if p(s[0]) {
        ConsKeysUnique(s[0], rest, key);
      }
    }
  }

  /** A row whose key no other row has can go in front of rows with unique keys. */
  lemma ConsKeysUnique<T>(x: T, rest: seq<T>, key: T -> int)
    requires KeysUnique(rest, key)
    requires forall y :: y in rest ==> key(y) != key(x)
    ensures KeysUnique([x] + rest, key)
  {
    var r := [x] + rest;
    assert forall j :: 0 < j < |r| ==> r[j] == rest[j - 1] && r[j] in rest;
  }

  /** `SELECT COUNT(*) ... WHERE p`. */
  function CountIf<T>(s: seq<T>, p: T -> bool): (n: nat)
    ensures n <= |s|
  {
    if s == [] then 0 else (if p(s[0]) then 1 else 0) + CountIf(s[1..], p)
  }

  /** Counting over a concatenation adds the counts. */
  lemma {:induction false} CountIfAppend<T>(s: seq<T>, t: seq<T>, p: T -> bool)
    ensures CountIf(s + t, p) == CountIf(s, p) + CountIf(t, p)
  {
    if s == [] {
      assert s + t == t;
    } else {
      assert (s + t)[0] == s[0];
      assert (s + t)[1..] == s[1..] + t;
      CountIfAppend(s[1..], t, p);
    }
  }

  /**
   * Rows split by three exclusive and exhaustive conditions: the three counts
   * add up to the number of rows.
   */
  lemma {:induction false} CountIfPartition<T>(s: seq<T>, p: T -> bool, q: T -> bool, r: T -> bool)
    requires forall x :: x in s ==> (p(x) || q(x) || r(x))
    requires forall x :: x in s ==> !(p(x) && q(x)) && !(p(x) && r(x)) && !(q(x) && r(x))
    ensures CountIf(s, p) + CountIf(s, q) + CountIf(s, r) == |s|
  {
    if s != [] {
      assert forall x :: x in s[1..] ==> x in s;
      CountIfPartition(s[1..], p, q, r);
    }
  }

  /** The position of the row whose key is `k`, if any (the primary-key lookup). */
  function IndexOfKey<T>(s: seq<T>, key: T -> int, k: int): (r: Option<nat>)
    ensures r.Some? ==> r.value < |s| && key(s[r.value]) == k
    ensures r.None? ==> forall i :: 0 <= i < |s| ==> key(s[i]) != k
  {
    if s == [] then None
    else if key(s[|s| - 1]) == k then Some(|s| - 1)
    else IndexOfKey(s[..|s| - 1], key, k)
  }

  /** No two rows share a key (a PRIMARY KEY or UNIQUE constraint). */
  predicate KeysUnique<T>(s: seq<T>, key: T -> int) {
    forall i, j :: 0 <= i < j < |s| ==> key(s[i]) != key(s[j])
  }

  predicate SortedBy<T>(s: seq<T>, key: T -> int) {
    forall i, j :: 0 <= i < j < |s| ==> key(s[i]) <= key(s[j])
  }

  function InsertBy<T>(x: T, s: seq<T>, key: T -> int): (r: seq<T>)
    requires SortedBy(s, key)
    ensures SortedBy(r, key)
    ensures multiset(r) == multiset(s) + multiset{x}
    ensures |r| == |s| + 1
  {
    if s == [] then [x]
    else if key(x) <= key(s[0]) then [x] + s
    else
      var rest := InsertBy(x, s[1..], key);
      InsertedAbove(x, s, rest, key);
      [s[0]] + rest
  }

  /** The head of a sorted sequence is below everything a later insertion produces. */
  lemma InsertedAbove<T>(x: T, s: seq<T>, rest: seq<T>, key: T -> int)
    requires s != [] && SortedBy(s, key) && key(s[0]) < key(x)
    requires SortedBy(rest, key) && multiset(rest) == multiset(s[1..]) + multiset{x}
    ensures forall i :: 0 <= i < |rest| ==> key(s[0]) <= key(rest[i])
    ensures SortedBy([s[0]] + rest, key)
    ensures multiset([s[0]] + rest) == multiset(s) + multiset{x}
  {
    assert s == [s[0]] + s[1..];
    forall i | 0 <= i < |rest| ensures key(s[0]) <= key(rest[i]) {
      var y := rest[i];
      assert y in multiset(rest);
      if y != x {
        assert y in multiset(s[1..]);
        var j :| 0 <= j < |s[1..]| && s[1..][j] == y;
        assert s[j + 1] == y;
      }
    }
  }

  /** `ORDER BY key` (ties keep no particular order, as in SQL). */
  function SortBy<T>(s: seq<T>, key: T -> int): (r: seq<T>)
    ensures SortedBy(r, key)
    ensures multiset(r) == multiset(s)
    ensures |r| == |s|
  {
    if s == [] then []
    else
      assert s == [s[0]] + s[1..];
      InsertBy(s[0], SortBy(s[1..], key), key)
  }

  /** Sorting keeps exactly the rows it is given. */
  lemma SortByMembers<T(!new)>(s: seq<T>, key: T -> int, x: T)
    ensures x in SortBy(s, key) <==> x in s
  {
    var r := SortBy(s, key);
    assert x in r <==> x in multiset(r);
    assert x in s <==> x in multiset(s);
  }

  /** Two tables whose rows have the same keys, position by position, answer every lookup alike. */
  lemma {:induction false} IndexOfKeySameKeys<T, U>(s: seq<T>, key: T -> int, t: seq<U>, key': U -> int, k: int)
    requires |s| == |t|
    requires forall i :: 0 <= i < |s| ==> key(s[i]) == key'(t[i])
    ensures IndexOfKey(s, key, k) == IndexOfKey(t, key', k)
    decreases |s|
  {
    if s != [] && key(s[|s| - 1]) != k {
      IndexOfKeySameKeys(s[..|s| - 1], key, t[..|t| - 1], key', k);
    }
  }

  /** A row appended at the end is found first; other lookups are unchanged. */
  lemma IndexOfKeyAppend<T>(s: seq<T>, v: T, key: T -> int, k: int)
    ensures IndexOfKey(s + [v], key, k) == if key(v) == k then Some(|s|) else IndexOfKey(s, key, k)
  {
    assert (s + [v])[..|s|] == s;
  }

  /** With unique keys, looking up the key of a row finds that row. */
  lemma IndexOfKeyUnique<T>(s: seq<T>, key: T -> int, i: int)
    requires KeysUnique(s, key) && 0 <= i < |s|
    ensures IndexOfKey(s, key, key(s[i])) == Some(i)
  {
  }
}
