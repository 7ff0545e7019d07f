/** The `.sort({ createdAt: -1 })` of the database queries: documents ordered
    by a timestamp key, newest first. */
module Ordering {

  /** `s` is ordered by `key`, largest first. */
  ghost predicate NewestFirst<T>(s: seq<T>, key: T -> int)
  {
    forall i, j :: 0 <= i < j < |s| ==> key(s[i]) >= key(s[j])
  }

  /** Places `x` into the newest-first sequence `s`. */
  function Insert<T>(x: T, s: seq<T>, key: T -> int): (r: seq<T>)
    requires NewestFirst(s, key)
    ensures |r| == |s| + 1
    ensures forall i :: 0 <= i < |r| ==> r[i] == x || r[i] in s
    ensures multiset(r) == multiset(s) + multiset{x}
    ensures NewestFirst(r, key)
  {
    if s == [] || key(x) >= key(s[0]) then
      [x] + s
    else
      var rest := Insert(x, s[1..], key);
      assert s == [s[0]] + s[1..];
      HeadIsNewest(s, x, rest, key);
      ConsNewestFirst(s[0], rest, key);
      [s[0]] + rest
  }

  /** The head of a newest-first `s` is at least as new as every element of
      the tail with an older `x` placed in it. */
  lemma HeadIsNewest<T>(s: seq<T>, x: T, rest: seq<T>, key: T -> int)
    requires s != [] && NewestFirst(s, key) && key(x) < key(s[0])
    requires forall i :: 0 <= i < |rest| ==> rest[i] == x || rest[i] in s[1..]
    ensures forall i :: 0 <= i < |rest| ==> key(s[0]) >= key(rest[i])
  {
    forall i | 0 <= i < |rest| ensures key(s[0]) >= key(rest[i]) {
      if rest[i] != x {
        var j :| 0 <= j < |s[1..]| && s[1..][j] == rest[i];
        assert s[1..][j] == s[j + 1];
      }
    }
  }

  /** An element at least as new as a newest-first sequence may head it. */
  lemma ConsNewestFirst<T>(y: T, rest: seq<T>, key: T -> int)
    requires NewestFirst(rest, key)
    requires forall i :: 0 <= i < |rest| ==> key(y) >= key(rest[i])
    ensures NewestFirst([y] + rest, key)
  {
    var r := [y] + rest;
    forall i, j | 0 <= i < j < |r| ensures key(r[i]) >= key(r[j]) {
      assert r[j] == rest[j - 1];
      if i > 0 {
        assert r[i] == rest[i - 1];
      }
    }
  }

  /** The documents of `s` in newest-first order. Documents with equal keys
      may come out in any order in the source; this is one of those orders. */
  function SortNewestFirst<T>(s: seq<T>, key: T -> int): (r: seq<T>)
    ensures multiset(r) == multiset(s)
    ensures NewestFirst(r, key)
  {
    if s == [] then []
    else
      assert s == [s[0]] + s[1..];
      Insert(s[0], SortNewestFirst(s[1..], key), key)
  }

  /** Sorting keeps exactly the documents it was given. */
  lemma SortedMembers<T>(s: seq<T>, key: T -> int, x: T)
    ensures x in SortNewestFirst(s, key) <==> x in s
  {
    var r := SortNewestFirst(s, key);
    assert x in r <==> x in multiset(r);
    assert x in s <==> x in multiset(s);
  }
}
