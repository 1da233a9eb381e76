/** Distinct sequences, their elements, and sizes of finite sets. */
module Finite {

  predicate Distinct<T(==)>(s: seq<T>) {
    forall i, j :: 0 <= i < j < |s| ==> s[i] != s[j]
  }

  function Elements<T(==,!new)>(s: seq<T>): (r: set<T>)
    ensures forall x :: x in r <==> x in s
  {
    set x | x in s
  }

  lemma {:induction false} DistinctSize<T(!new)>(s: seq<T>)
    requires Distinct(s)
    ensures |Elements(s)| == |s|
    decreases |s|
  {
    if s != [] {
      var front, last := s[..|s| - 1], s[|s| - 1];
      DistinctSize(front);
      assert s == front + [last];
      assert Elements(s) == Elements(front) + {last};
      assert last !in front;
    }
  }

  lemma SubsetSize<T>(a: set<T>, b: set<T>)
    requires a <= b
    ensures |a| <= |b|
    ensures |a| == |b| ==> a == b
  {
    assert a + (b - a) == b;
  }

  function Interval(lo: nat, n: nat): (s: set<nat>)
    ensures forall r: nat :: r in s <==> lo <= r < lo + n
    ensures |s| == n
  {
    if n == 0 then {} else Interval(lo, n - 1) + {lo + n - 1}
  }

  /** n distinct numbers below n are all of them. */
  lemma AllPicked(n: nat, picks: seq<nat>, b: nat)
    requires Distinct(picks) && |picks| == n && b < n
    requires forall i :: 0 <= i < n ==> picks[i] < n
    ensures b in picks
  {
    DistinctSize(picks);
    SubsetSize(Elements(picks), Interval(0, n));
    assert b in Interval(0, n);
  }

  /** Fewer than n picks leave some number below n unpicked. */
  lemma {:induction false} SomeLeft(n: nat, picks: seq<nat>)
    requires |picks| < n
    ensures exists j: nat :: j < n && j !in picks
    decreases n
  {
    if n - 1 in picks {
      var i :| 0 <= i < |picks| && picks[i] == n - 1;
      var rest := picks[..i] + picks[i + 1..];
      SomeLeft(n - 1, rest);
      var j: nat :| j < n - 1 && j !in rest;
      forall k | 0 <= k < |picks| ensures picks[k] != j {
        if k < i { assert rest[k] == picks[k]; }
        if k > i { assert rest[k - 1] == picks[k]; }
      }
      assert j < n && j !in picks;
    } else {
      var j: nat := n - 1;
      assert j < n && j !in picks;
    }
  }
}
