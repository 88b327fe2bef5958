/**
 * A stable sort by an integer rank. `Array.prototype.sort` with a comparator
 * that returns the difference of two ranks must give the stable sort by rank
 * (ECMAScript 2019 onwards); an engine may use any algorithm, and the result
 * is pinned down by `Sort`'s contract (a permutation, ascending by rank) and
 * `SortIsStable` (equal ranks keep their order). The insertion sort below is
 * one algorithm with that result.
 */
module Sorting {

  /** Ascending by rank. */
  ghost predicate SortedOn<T>(r: seq<T>, rank: T -> int) {
    forall i, j :: 0 <= i < j < |r| ==> rank(r[i]) <= rank(r[j])
  }

  /** Putting in front an element that ranks no higher than any other keeps a list sorted. */
  lemma SortedCons<T>(h: T, t: seq<T>, rank: T -> int)
    requires SortedOn(t, rank)
    requires forall y :: y in t ==> rank(h) <= rank(y)
    ensures SortedOn([h] + t, rank)
  {
    var r := [h] + t;
    forall i, j | 0 <= i < j < |r| ensures rank(r[i]) <= rank(r[j]) {
      if i == 0 {
        assert r[j] == t[j - 1];
        assert r[j] in t;
      } else {
        assert r[i] == t[i - 1] && r[j] == t[j - 1];
      }
    }
  }

  /** The head of a sorted list ranks no higher than any of its elements, and its tail is sorted. */
  lemma SortedHead<T>(s: seq<T>, rank: T -> int)
    requires SortedOn(s, rank) && |s| > 0
    ensures forall y :: y in s ==> rank(s[0]) <= rank(y)
    ensures SortedOn(s[1..], rank)
  {
    forall y | y in s ensures rank(s[0]) <= rank(y) {
      var k :| 0 <= k < |s| && s[k] == y;
      if k > 0 {
        assert rank(s[0]) <= rank(s[k]);
      }
    }
    forall i, j | 0 <= i < j < |s[1..]| ensures rank(s[1..][i]) <= rank(s[1..][j]) {
      assert s[1..][i] == s[i + 1] && s[1..][j] == s[j + 1];
    }
  }

  /** A lower bound of `s1` and of `x` bounds every element of a list holding `s1` and `x`. */
  lemma BoundAfterInsert<T>(h: T, x: T, s1: seq<T>, t: seq<T>, rank: T -> int)
    requires multiset(t) == multiset(s1) + multiset{x}
    requires rank(h) <= rank(x)
    requires forall y :: y in s1 ==> rank(h) <= rank(y)
    ensures forall y :: y in t ==> rank(h) <= rank(y)
  {
    forall y | y in t ensures rank(h) <= rank(y) {
      assert y in multiset(t);
      if y != x {
        assert y in multiset(s1);
      }
    }
  }

  /** Places `x` in front of the first element it does not rank after. */
  function Insert<T>(x: T, s: seq<T>, rank: T -> int): (r: seq<T>)
    requires SortedOn(s, rank)
    ensures multiset(r) == multiset(s) + multiset{x}
    ensures SortedOn(r, rank)
    decreases |s|
  {
    if |s| == 0 then [x]
    else
      SortedHead(s, rank);
      if rank(x) <= rank(s[0]) then
        SortedCons(x, s, rank);
        [x] + s
      else
        assert s == [s[0]] + s[1..];
        var t := Insert(x, s[1..], rank);
        BoundAfterInsert(s[0], x, s[1..], t, rank);
        SortedCons(s[0], t, rank);
        [s[0]] + t
  }

  /** Insertion sort: each element, from the last to the first, is inserted into the sorted rest. */
  function Sort<T>(s: seq<T>, rank: T -> int): (r: seq<T>)
    ensures multiset(r) == multiset(s)
    ensures SortedOn(r, rank)
    decreases |s|
  {
    if |s| == 0 then []
    else
      assert s == [s[0]] + s[1..];
      Insert(s[0], Sort(s[1..], rank), rank)
  }

  /** The elements of `s` whose rank is `v`, in the order of `s`. */
  function WithRank<T>(s: seq<T>, rank: T -> int, v: int): seq<T>
    decreases |s|
  {
    if |s| == 0 then [] else (if rank(s[0]) == v then [s[0]] else []) + WithRank(s[1..], rank, v)
  }

  /** `WithRank` of a list with a head: the head if it has rank `v`, then the rest. */
  lemma WithRankCons<T>(h: T, t: seq<T>, rank: T -> int, v: int)
    ensures WithRank([h] + t, rank, v) == (if rank(h) == v then [h] else []) + WithRank(t, rank, v)
  {
    assert ([h] + t)[1..] == t;
  }

  /** Inserting `x` adds it in front of the elements of its own rank. */
  lemma {:induction false} InsertWithRank<T>(x: T, s: seq<T>, rank: T -> int, v: int)
    requires SortedOn(s, rank)
    ensures WithRank(Insert(x, s, rank), rank, v)
         == (if rank(x) == v then [x] else []) + WithRank(s, rank, v)
    decreases |s|
  {
    if |s| == 0 {
      assert Insert(x, s, rank) == [x] + [];
      WithRankCons(x, [], rank, v);
    } else {
      SortedHead(s, rank);
      if rank(x) <= rank(s[0]) {
        WithRankCons(x, s, rank, v);
      } else {
        var t := Insert(x, s[1..], rank);
        InsertWithRank(x, s[1..], rank, v);
        WithRankCons(s[0], t, rank, v);
        assert s == [s[0]] + s[1..];
        WithRankCons(s[0], s[1..], rank, v);
      }
    }
  }

  /** Stability: elements of equal rank keep their relative order. */
  lemma {:induction false} SortIsStable<T>(s: seq<T>, rank: T -> int, v: int)
    ensures WithRank(Sort(s, rank), rank, v) == WithRank(s, rank, v)
    decreases |s|
  {
    if |s| > 0 {
      SortIsStable(s[1..], rank, v);
      InsertWithRank(s[0], Sort(s[1..], rank), rank, v);
    }
  }

  /** When every element has the same rank, the order is kept. */
  lemma {:induction false} UniformRankKeepsOrder<T>(s: seq<T>, rank: T -> int, c: int)
    requires forall x :: rank(x) == c
    ensures Sort(s, rank) == s
    decreases |s|
  {
    if |s| > 0 {
      UniformRankKeepsOrder(s[1..], rank, c);
      assert s == [s[0]] + s[1..];
    }
  }
}
