/** Ordering a table by an integer key, the in-memory stand-in for an
    `orderBy` clause. A descending order on a field is the ascending order
    on its negation, so one sort serves all four orders of the catalog. */
module Sorting {

  /** `s` is non-decreasing in `key`. */
  predicate Ascending<T>(s: seq<T>, key: T -> int)
  {
    forall i, j :: 0 <= i < j < |s| ==> key(s[i]) <= key(s[j])
  }

  /** `x` placed before the first element of `s` whose key is not smaller. */
  function Insert<T>(x: T, s: seq<T>, key: T -> int): (r: seq<T>)
    requires Ascending(s, key)
    ensures Ascending(r, key)
    ensures multiset(r) == multiset(s) + multiset{x}
    ensures |r| == |s| + 1
    ensures r[0] == x || (s != [] && r[0] == s[0])
  {
    if s == [] then [x]
    else if key(x) <= key(s[0]) then
      AscendingCons(x, s, key);
      [x] + s
    else
      var t := Insert(x, s[1..], key);
      assert s == [s[0]] + s[1..];
      assert multiset([s[0]] + t) == multiset{s[0]} + multiset(t);
      AscendingCons(s[0], t, key);
      [s[0]] + t
  }

  /** An element no greater than the head of an ascending list extends it. */
  lemma AscendingCons<T>(y: T, t: seq<T>, key: T -> int)
    requires Ascending(t, key)
    requires t != [] ==> key(y) <= key(t[0])
    ensures Ascending([y] + t, key)
  {
    var r := [y] + t;
    forall i, j | 0 <= i < j < |r|
      ensures key(r[i]) <= key(r[j])
    {
      if i == 0 {
        assert r[j] == t[j - 1];
      } else {
        assert r[i] == t[i - 1] && r[j] == t[j - 1];
      }
    }
  }

  /** A permutation of `s` that is non-decreasing in `key`. Ties keep no
      particular order beyond what the insertion happens to give. */
  function SortByKey<T>(s: seq<T>, key: T -> int): (r: seq<T>)
    ensures Ascending(r, key)
    ensures multiset(r) == multiset(s)
    ensures |r| == |s|
  {
    if s == [] then []
    else
      assert s == [s[0]] + s[1..];
      Insert(s[0], SortByKey(s[1..], key), key)
  }

  /** Sorting neither adds nor drops a record. */
  lemma SortKeepsMembers<T>(s: seq<T>, key: T -> int)
    ensures var r := SortByKey(s, key);
            && (forall i :: 0 <= i < |r| ==> r[i] in s)
            && (forall i :: 0 <= i < |s| ==> s[i] in r)
  {
    var r := SortByKey(s, key);
    assert forall i :: 0 <= i < |r| ==> r[i] in multiset(s);
    assert forall i :: 0 <= i < |s| ==> s[i] in multiset(r);
  }
}
