/** Sorting names by a numeric key, largest first. */
module Sorting {
  import opened Ranges

  /** A missing key counts as 0. */
  function At(f: map<string, int>, t: string): int {
    if t in f then f[t] else 0
  }

  ghost predicate Descending(ts: seq<string>, key: map<string, int>) {
    forall i, j | 0 <= i < j < |ts| :: At(key, ts[i]) >= At(key, ts[j])
  }

  /** `sorted(ts, key=key, reverse=True)`: stable, so equal keys keep their order. */
  function Insert(sorted: seq<string>, t: string, key: map<string, int>): seq<string> {
    if sorted == [] || At(key, sorted[|sorted| - 1]) >= At(key, t) then sorted + [t]
    else Insert(sorted[..|sorted| - 1], t, key) + [sorted[|sorted| - 1]]
  }

  function SortDescending(ts: seq<string>, key: map<string, int>): seq<string> {
    if ts == [] then [] else Insert(SortDescending(ts[..|ts| - 1], key), ts[|ts| - 1], key)
  }

  lemma {:induction false} InsertMembers(sorted: seq<string>, t: string, key: map<string, int>)
    ensures forall u :: u in Insert(sorted, t, key) <==> u in sorted || u == t
    ensures Distinct(sorted) && t !in sorted ==> Distinct(Insert(sorted, t, key))
  {
    if sorted != [] && At(key, sorted[|sorted| - 1]) < At(key, t) {
      var less, last := sorted[..|sorted| - 1], sorted[|sorted| - 1];
      InsertMembers(less, t, key);
      assert sorted == less + [last];
      assert Insert(sorted, t, key) == Insert(less, t, key) + [last];
      if Distinct(sorted) {
        assert last !in less by {
          assert forall i | 0 <= i < |less| :: less[i] == sorted[i] && sorted[i] != sorted[|less|];
        }
      }
    } else {
      assert Insert(sorted, t, key) == sorted + [t];
    }
  }

  lemma {:induction false} InsertOrders(sorted: seq<string>, t: string, key: map<string, int>)
    requires Descending(sorted, key)
    ensures Descending(Insert(sorted, t, key), key)
  {
    if sorted != [] && At(key, sorted[|sorted| - 1]) < At(key, t) {
      var less, last := sorted[..|sorted| - 1], sorted[|sorted| - 1];
      InsertOrders(less, t, key);
      InsertMembers(less, t, key);
      var r := Insert(less, t, key);
      forall i | 0 <= i < |r| ensures At(key, r[i]) >= At(key, last) {
        assert r[i] in r;
      }
    }
  }

  lemma {:induction false} InsertLength(sorted: seq<string>, t: string, key: map<string, int>)
    ensures |Insert(sorted, t, key)| == |sorted| + 1
  {
    if sorted != [] && At(key, sorted[|sorted| - 1]) < At(key, t) {
      InsertLength(sorted[..|sorted| - 1], t, key);
    }
  }

  lemma {:induction false} SortKeepsLength(ts: seq<string>, key: map<string, int>)
    ensures |SortDescending(ts, key)| == |ts|
  {
    if ts != [] {
      SortKeepsLength(ts[..|ts| - 1], key);
      InsertLength(SortDescending(ts[..|ts| - 1], key), ts[|ts| - 1], key);
    }
  }

  lemma {:induction false} SortOrders(ts: seq<string>, key: map<string, int>)
    ensures Descending(SortDescending(ts, key), key)
    ensures forall u :: u in SortDescending(ts, key) <==> u in ts
    ensures Distinct(ts) ==> Distinct(SortDescending(ts, key))
  {
    if ts != [] {
      SortOrders(ts[..|ts| - 1], key);
      InsertOrders(SortDescending(ts[..|ts| - 1], key), ts[|ts| - 1], key);
      InsertMembers(SortDescending(ts[..|ts| - 1], key), ts[|ts| - 1], key);
    }
  }
}
