/** Sets and their sizes, sets of indices, and lists without repetition. */
module Ranges {

  ghost predicate Distinct<T>(xs: seq<T>) {
    forall i, j | 0 <= i < j < |xs| :: xs[i] != xs[j]
  }

  lemma SubsetSize<T>(a: set<T>, b: set<T>)
    requires a <= b
    ensures |a| <= |b| && (|a| == |b| ==> a == b)
  {
    assert b == a + (b - a) && a !! (b - a);
    assert |b| == |a| + |b - a|;
  }

  lemma {:induction false} RangeSize(s: set<int>, lo: int, hi: int)
    requires lo <= hi && forall i | i in s :: lo <= i < hi
    ensures |s| <= hi - lo
    decreases hi - lo
  {
    if lo == hi {
      assert forall i :: i !in s;
      assert s == {};
    } else if hi - 1 in s {
      RangeSize(s - {hi - 1}, lo, hi - 1);
    } else {
      RangeSize(s, lo, hi - 1);
    }
  }

  lemma Extremes(s: set<int>, n: nat) returns (least: nat, greatest: nat)
    requires s != {} && forall i | i in s :: 0 <= i < n
    ensures least in s && greatest in s && forall i | i in s :: least <= i <= greatest
  {
    var any :| any in s;
    least, greatest := 0, n - 1;
    while least !in s
      invariant least <= any && forall i | 0 <= i < least :: i !in s
      decreases any - least
    {
      least := least + 1;
    }
    while greatest !in s
      invariant any <= greatest < n && forall i | greatest < i < n :: i !in s
      decreases greatest
    {
      greatest := greatest - 1;
    }
  }

  /** The integers of [lo, hi). */
  ghost function Range(lo: int, hi: int): (s: set<int>)
    requires lo <= hi
    ensures |s| == hi - lo && forall i :: i in s <==> lo <= i < hi
    decreases hi - lo
  {
    if lo == hi then {} else Range(lo, hi - 1) + {hi - 1}
  }
}
