/** Ordering a set of rows into a sequence, as an `ORDER BY` clause does. */
module Sorting {

  /** Any two elements are related one way or the other. */
  ghost predicate Total<T(!new)>(le: (T, T) -> bool) {
    forall a, b :: le(a, b) || le(b, a)
  }

  ghost predicate Transitive<T(!new)>(le: (T, T) -> bool) {
    forall a, b, c :: le(a, b) && le(b, c) ==> le(a, c)
  }

  /** The orderings an `ORDER BY` on one column induces: ties are allowed. */
  ghost predicate TotalPreorder<T(!new)>(le: (T, T) -> bool) {
    Total(le) && Transitive(le)
  }

  ghost predicate SortedBy<T>(s: seq<T>, le: (T, T) -> bool) {
    forall i, j :: 0 <= i < j < |s| ==> le(s[i], s[j])
  }

  /** Inserts `x` into the sorted `s`, before the first element it does not follow. */
  function InsertBy<T(!new)>(s: seq<T>, x: T, le: (T, T) -> bool): (r: seq<T>)
    requires TotalPreorder(le)
    requires SortedBy(s, le)
    ensures SortedBy(r, le)
    ensures multiset(r) == multiset(s) + multiset{x}
    decreases |s|
  {
    if |s| == 0 then [x]
    else if le(x, s[0]) then
      PrependSorted(x, s, le);
      [x] + s
    else
      var tail := InsertBy(s[1..], x, le);
      assert s == [s[0]] + s[1..];
      HeadBelowInsert(s, x, tail, le);
      [s[0]] + tail
  }

  /** An element below the head of a sorted sequence may be put in front of it. */
  lemma PrependSorted<T(!new)>(x: T, s: seq<T>, le: (T, T) -> bool)
    requires TotalPreorder(le)
    requires SortedBy(s, le) && |s| > 0 && le(x, s[0])
    ensures SortedBy([x] + s, le)
  {
    assert forall k :: 0 <= k < |s| ==> le(x, s[k]) by {
      forall k | 0 <= k < |s|
        ensures le(x, s[k])
      {
        if k > 0 {
          assert le(s[0], s[k]);
        }
      }
    }
  }

  /** When `x` does not go before the head of `s`, the head stays in front of
      the sorted insertion of `x` into the rest. */
  lemma HeadBelowInsert<T(!new)>(s: seq<T>, x: T, tail: seq<T>, le: (T, T) -> bool)
    requires TotalPreorder(le)
    requires SortedBy(s, le) && |s| > 0 && !le(x, s[0])
    requires SortedBy(tail, le) && multiset(tail) == multiset(s[1..]) + multiset{x}
    ensures SortedBy([s[0]] + tail, le)
  {
    forall k | 0 <= k < |tail|
      ensures le(s[0], tail[k])
    {
      assert tail[k] in multiset(tail);
      if tail[k] != x {
        assert tail[k] in multiset(s[1..]);
        var m :| 0 <= m < |s[1..]| && s[1..][m] == tail[k];
        assert s[m + 1] == tail[k];
      }
    }
    var r := [s[0]] + tail;
    forall a, b | 0 <= a < b < |r|
      ensures le(r[a], r[b])
    {
      if a > 0 {
        assert r[a] == tail[a - 1] && r[b] == tail[b - 1];
      } else {
        assert r[b] == tail[b - 1];
      }
    }
  }

  /** Lists the elements of `xs` in the order `le`, each exactly once. */
  method SortSet<T(==,!new)>(xs: set<T>, le: (T, T) -> bool) returns (r: seq<T>)
    requires TotalPreorder(le)
    ensures SortedBy(r, le)
    ensures multiset(r) == multiset(xs)
    ensures |r| == |xs|
  {
    r := [];
    var rest := xs;
    while rest != {}
      invariant rest <= xs
      invariant SortedBy(r, le)
      invariant multiset(r) == multiset(xs - rest)
      decreases |rest|
    {
      var x :| x in rest;
      assert xs - (rest - {x}) == (xs - rest) + {x};
      r := InsertBy(r, x, le);
      rest := rest - {x};
    }
    assert xs - rest == xs;
    assert |multiset(r)| == |multiset(xs)|;
  }
}
