/** Queries over a table held as a sequence of records: the in-memory
    stand-in for a `where` clause (Filter) and a `findUnique` (FirstWhere). */
module Seqs {
  import opened Wrappers

  /** The records of `s` that satisfy `keep`, in their original order. */
  function Filter<T>(s: seq<T>, keep: T -> bool): (r: seq<T>)
    ensures |r| <= |s|
    ensures forall i :: 0 <= i < |r| ==> r[i] in s && keep(r[i])
    ensures forall i :: 0 <= i < |s| && keep(s[i]) ==> s[i] in r
  {
    if s == [] then []
    else (if keep(s[0]) then [s[0]] else []) + Filter(s[1..], keep)
  }

  lemma {:induction false} FilterMembership<T>(s: seq<T>, keep: T -> bool, x: T)
    ensures x in Filter(s, keep) <==> x in s && keep(x)
  {
    if s != [] {
      FilterMembership(s[1..], keep, x);
      assert s == [s[0]] + s[1..];
    }
  }

  /** Filtering keeps every record exactly when every record passes. */
  lemma {:induction false} FilterKeepsAll<T>(s: seq<T>, keep: T -> bool)
    requires forall i :: 0 <= i < |s| ==> keep(s[i])
    ensures Filter(s, keep) == s
  {
    if s != [] {
      FilterKeepsAll(s[1..], keep);
    }
  }

  /** The multiset of a filtered table: nothing duplicated, nothing lost. */
  lemma {:induction false} FilterMultiset<T>(s: seq<T>, keep: T -> bool, x: T)
    ensures multiset(Filter(s, keep))[x] == if keep(x) then multiset(s)[x] else 0
  {
    if s != [] {
      FilterMultiset(s[1..], keep, x);
      assert s == [s[0]] + s[1..];
    }
  }

  /** Every record occurs in a filtered table as often as in the table
      when it passes, and not at all otherwise. */
  lemma FilterCounts<T>(s: seq<T>, keep: T -> bool)
    ensures forall x :: multiset(Filter(s, keep))[x] == if keep(x) then multiset(s)[x] else 0
  {
    forall x
      ensures multiset(Filter(s, keep))[x] == if keep(x) then multiset(s)[x] else 0
    {
      FilterMultiset(s, keep, x);
    }
  }

  /** The first record of `s` that satisfies `p`, if any. */
  function FirstWhere<T>(s: seq<T>, p: T -> bool): (r: Option<T>)
    ensures r.Some? ==> r.value in s && p(r.value)
    ensures r.None? ==> forall i :: 0 <= i < |s| ==> !p(s[i])
  {
    if s == [] then None
    else if p(s[0]) then Some(s[0])
    else FirstWhere(s[1..], p)
  }

  /** The records a `skip`/`take` window selects: `take` records starting
      at position `skip`, fewer when the table ends first. A negative skip
      or take is refused. */
  function Slice<T>(s: seq<T>, skip: int, take: int): (r: Option<seq<T>>)
    ensures r.Some? <==> skip >= 0 && take >= 0
    ensures r.Some? ==> |r.value| == if skip + take <= |s| then take
                                     else if skip <= |s| then |s| - skip else 0
    ensures r.Some? ==> forall i :: 0 <= i < |r.value| ==> r.value[i] == s[skip + i]
  {
    if skip < 0 || take < 0 then None
    else if skip >= |s| then Some([])
    else if skip + take >= |s| then Some(s[skip..])
    else Some(s[skip..skip + take])
  }

  /** A window holds only records of the table, none more often than the table does. */
  lemma SliceSubMultiset<T>(s: seq<T>, skip: int, take: int)
    requires Slice(s, skip, take).Some?
    ensures multiset(Slice(s, skip, take).value) <= multiset(s)
  {
    var lo := if skip <= |s| then skip else |s|;
    var hi := if skip + take <= |s| then skip + take else |s|;
    var w := Slice(s, skip, take).value;
    assert w == s[lo..hi];
    assert s == s[..lo] + s[lo..hi] + s[hi..];
  }

  /** Two adjacent windows make up the window of their combined size. */
  lemma SliceAdjacent<T>(s: seq<T>, skip: int, n: int, m: int)
    requires skip >= 0 && n >= 0 && m >= 0
    ensures Slice(s, skip, n).value + Slice(s, skip + n, m).value == Slice(s, skip, n + m).value
  {
    var x := Slice(s, skip, n).value;
    var y := Slice(s, skip + n, m).value;
    var z := Slice(s, skip, n + m).value;
    assert |y| > 0 ==> |x| == n;
    assert |x + y| == |z|;
    forall i | 0 <= i < |z|
      ensures (x + y)[i] == z[i]
    {
      if i >= |x| {
        assert y[i - |x|] == s[skip + n + (i - |x|)];
      }
    }
  }

  /** No two records of `s` agree on `f`. */
  ghost predicate Distinct<T, K>(s: seq<T>, f: T -> K)
  {
    forall i, j :: 0 <= i < j < |s| ==> f(s[i]) != f(s[j])
  }

  /** Filtering keeps a key distinct. */
  lemma {:induction false} FilterKeepsDistinct<T, K>(s: seq<T>, keep: T -> bool, f: T -> K)
    requires Distinct(s, f)
    ensures Distinct(Filter(s, keep), f)
  {
    if s != [] {
      var t := Filter(s[1..], keep);
      FilterKeepsDistinct(s[1..], keep, f);
      if keep(s[0]) {
        forall j | 0 <= j < |t|
          ensures f(s[0]) != f(t[j])
        {
          var m :| 0 <= m < |s[1..]| && s[1..][m] == t[j];
          assert s[m + 1] == t[j];
        }
        var r := Filter(s, keep);
        assert r == [s[0]] + t;
        forall i, j | 0 <= i < j < |r|
          ensures f(r[i]) != f(r[j])
        {
          assert r[j] == t[j - 1];
          if i > 0 {
            assert r[i] == t[i - 1];
          }
        }
      }
    }
  }
}
