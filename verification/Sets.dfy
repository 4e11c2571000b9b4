/** Counting arguments shared by the models: finite sets of numbers and of sequence elements. */
module Sets {
  /** The n numbers from lo on. */
  function Interval(lo: nat, n: nat): (r: set<nat>)
    ensures forall k: nat :: k in r <==> lo <= k < lo + n
    ensures |r| == n
  {
    if n == 0 then {} else Interval(lo, n - 1) + {lo + n - 1}
  }

  /** The numbers 0 .. n - 1. */
  function Below(n: nat): set<nat> {
    Interval(0, n)
  }

  function Elements<T(==)>(s: seq<T>): set<T>
  {
    set x | x in s
  }

  predicate Distinct<T(==)>(s: seq<T>) {
    forall j, k :: 0 <= j < k < |s| ==> s[j] != s[k]
  }

  lemma {:induction false} SubsetSize<T>(a: set<T>, b: set<T>)
    requires a <= b
    ensures |a| <= |b|
    ensures |a| == |b| ==> a == b
    decreases a
  {
    if a != {} {
      var x :| x in a;
      SubsetSize(a - {x}, b - {x});
    }
  }

  lemma {:induction false} ElementsSize<T>(s: seq<T>)
    ensures |Elements(s)| <= |s|
    ensures Distinct(s) ==> |Elements(s)| == |s|
  {
    if s != [] {
      var t := s[..|s| - 1];
      ElementsSize(t);
      assert Elements(s) == Elements(t) + {s[|s| - 1]};
    } else {
      assert Elements(s) == {};
    }
  }

  /** n distinct numbers below n are all of them. */
  lemma DistinctBelowIsAll(s: seq<nat>, n: nat, x: nat)
    requires Distinct(s) && |s| == n && x < n
    requires forall k :: 0 <= k < |s| ==> s[k] < n
    ensures x in s
  {
    ElementsSize(s);
    assert Elements(s) <= Below(n);
    SubsetSize(Elements(s), Below(n));
    assert x in Elements(s);
  }

  /** Distinct numbers below n that leave one out are fewer than n. */
  lemma DistinctWithout(s: seq<nat>, n: nat, x: nat)
    requires Distinct(s) && x < n && x !in s
    requires forall k :: 0 <= k < |s| ==> s[k] < n
    ensures |s| < n
  {
    ElementsSize(s);
    var rest := Below(n) - {x};
    assert Below(n) == rest + {x};
    assert Elements(s) <= rest;
    SubsetSize(Elements(s), rest);
  }

  /** The elements from position k on, with and without the one at k. */
  lemma SuffixElements<T>(h: seq<T>, k: nat)
    requires Distinct(h) && k < |h|
    ensures h[k] in Elements(h[k..]) && Elements(h[k..]) <= Elements(h)
    ensures Elements(h[k..]) - {h[k]} == Elements(h[k + 1..])
  {
    assert h[k..] == [h[k]] + h[k + 1..];
  }
}
