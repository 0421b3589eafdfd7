/** The stratified sample of missed clauses: largest-remainder quotas per clause type. */
module Quotas {
  import opened Ranges
  import opened Sorting

  datatype Row = Row(clauseType: string, contract: string, detail: string)

  /** `rng.sample(group, k)` at the i-th draw. */
  type Sampler = (int, seq<Row>, int) -> seq<Row>

  /** What the library promises of a draw: k rows taken from different positions of the group. */
  ghost predicate DrawsFromGroup(sample: Sampler) {
    forall i, group, k | 0 <= k <= |group| ::
      |sample(i, group, k)| == k && multiset(sample(i, group, k)) <= multiset(group)
  }

  /** `<=` on strings. */
  predicate Leq(a: string, b: string) {
    a == "" || (b != "" && (a[0] < b[0] || (a[0] == b[0] && Leq(a[1..], b[1..]))))
  }

  /** The sort key: the clause type, then the contract. */
  predicate KeyLeq(r: Row, s: Row) {
    if r.clauseType == s.clauseType then Leq(r.contract, s.contract) else Leq(r.clauseType, s.clauseType)
  }

  ghost predicate InKeyOrder(rows: seq<Row>) {
    forall i, j | 0 <= i < j < |rows| :: KeyLeq(rows[i], rows[j])
  }

  /** `out.sort(key=...)` */
  type RowSort = seq<Row> -> seq<Row>

  ghost predicate SortsByKey(sort: RowSort) {
    forall rows :: multiset(sort(rows)) == multiset(rows) && InKeyOrder(sort(rows))
  }

  // ----- grouping -----------------------------------------------------------------------------------

  /** The clause types in the order in which they first occur: the key order of the `by_type` dict. */
  function Types(rows: seq<Row>): seq<string> {
    if rows == [] then []
    else
      var types, t := Types(rows[..|rows| - 1]), rows[|rows| - 1].clauseType;
      if t in types then types else types + [t]
  }

  function Group(rows: seq<Row>, t: string): seq<Row> {
    if rows == [] then []
    else
      var group, last := Group(rows[..|rows| - 1], t), rows[|rows| - 1];
      if last.clauseType == t then group + [last] else group
  }

  function Sum(ts: seq<string>, f: map<string, int>): int {
    if ts == [] then 0 else Sum(ts[..|ts| - 1], f) + At(f, ts[|ts| - 1])
  }

  function Sizes(rows: seq<Row>): map<string, int> {
    map t | t in Types(rows) :: |Group(rows, t)|
  }

  ghost predicate GroupedBy(rows: seq<Row>, types: seq<string>, byType: map<string, seq<Row>>) {
    && types == Types(rows)
    && byType.Keys == (set t | t in types)
    && forall t | t in types :: byType[t] == Group(rows, t)
  }

  method GroupByType(rows: seq<Row>) returns (types: seq<string>, byType: map<string, seq<Row>>)
    ensures GroupedBy(rows, types, byType)
  {
    types, byType := [], map[];
    for i := 0 to |rows|
      invariant GroupedBy(rows[..i], types, byType)
    {
      assert rows[..i + 1][..i] == rows[..i];
      var t := rows[i].clauseType;
      AbsentGroupIsEmpty(rows[..i], t);
      if t !in byType {
        types := types + [t];
        byType := byType[t := []];
      }
      byType := byType[t := byType[t] + [rows[i]]];
    }
    assert rows[..|rows|] == rows;
  }

  lemma {:induction false} AbsentGroupIsEmpty(rows: seq<Row>, t: string)
    ensures t !in Types(rows) ==> Group(rows, t) == []
  {
    if rows != [] {
      AbsentGroupIsEmpty(rows[..|rows| - 1], t);
    }
  }

  lemma {:induction false} TypesDistinct(rows: seq<Row>)
    ensures Distinct(Types(rows))
  {
    if rows != [] {
      TypesDistinct(rows[..|rows| - 1]);
    }
  }

  /** A row is in the group of its own type as often as it is in the table, and in no other. */
  lemma {:induction false} GroupCounts(rows: seq<Row>, t: string, r: Row)
    ensures multiset(Group(rows, t))[r] == if r.clauseType == t then multiset(rows)[r] else 0
  {
    if rows != [] {
      var less := rows[..|rows| - 1];
      GroupCounts(less, t, r);
      assert rows == less + [rows[|rows| - 1]];
    }
  }

  // ----- sums ---------------------------------------------------------------------------------------

  lemma {:induction false} SumAgree(ts: seq<string>, f: map<string, int>, g: map<string, int>)
    requires forall t | t in ts :: At(f, t) == At(g, t)
    ensures Sum(ts, f) == Sum(ts, g)
  {
    if ts != [] {
      SumAgree(ts[..|ts| - 1], f, g);
    }
  }

  /** Raising one entry by 1 raises the sum by 1. */
  lemma {:induction false} SumRaise(ts: seq<string>, f: map<string, int>, g: map<string, int>, t: string)
    requires Distinct(ts) && forall u | u in ts :: At(g, u) == At(f, u) + if u == t then 1 else 0
    ensures Sum(ts, g) == Sum(ts, f) + if t in ts then 1 else 0
  {
    if ts != [] {
      var n := |ts| - 1;
      SumRaise(ts[..n], f, g, t);
      assert ts == ts[..n] + [ts[n]];
    }
  }

  lemma {:induction false} SumBounds(ts: seq<string>, f: map<string, int>, bound: int)
    requires forall t | t in ts :: 0 <= At(f, t) <= bound
    ensures 0 <= Sum(ts, f) <= |ts| * bound
  {
    if ts != [] {
      SumBounds(ts[..|ts| - 1], f, bound);
    }
  }

  /** One more row is one more in the group of its type. */
  lemma SizesStep(rows: seq<Row>, u: string)
    requires rows != [] && u in Types(rows)
    ensures At(Sizes(rows), u) == At(Sizes(rows[..|rows| - 1]), u)
                                  + if u == rows[|rows| - 1].clauseType then 1 else 0
  {
    AbsentGroupIsEmpty(rows[..|rows| - 1], u);
  }

  /** The groups together hold every row. */
  lemma {:induction false} SizesSum(rows: seq<Row>)
    ensures Sum(Types(rows), Sizes(rows)) == |rows|
  {
    if rows != [] {
      var less, t := rows[..|rows| - 1], rows[|rows| - 1].clauseType;
      SizesSum(less);
      TypesDistinct(less);
      forall u | u in Types(rows) ensures At(Sizes(rows), u) == At(Sizes(less), u) + if u == t then 1 else 0 {
        SizesStep(rows, u);
      }
      SumRaise(Types(less), Sizes(less), Sizes(rows), t);
      assert t !in Types(less) ==> At(Sizes(less), t) == 0;
      assert (Types(less) + [t])[..|Types(less)|] == Types(less);
    }
  }

  // ----- largest remainders -------------------------------------------------------------------------

  /** int(exact) and the fraction of the exact share n * size / total, the latter in units of 1/total. */
  function Floor(size: int, n: nat, total: nat): int
    requires total > 0
  {
    n * size / total
  }

  function Rem(size: int, n: nat, total: nat): int
    requires total > 0
  {
    n * size % total
  }

  lemma QuotientBelow(x: int, size: nat, total: nat)
    requires 0 <= x <= total * size && total > 0
    ensures 0 <= x / total <= size
    ensures x % total > 0 ==> x / total < size
  {
    var q := x / total;
    if q >= size {
      assert total * (q - size) >= 0;
    }
  }

  lemma FloorBelow(size: nat, n: nat, total: nat)
    requires n < total
    ensures 0 <= Floor(size, n, total) <= size && 0 <= Rem(size, n, total) < total
    ensures Rem(size, n, total) > 0 ==> Floor(size, n, total) < size
  {
    assert 0 <= n * size && 0 <= (total - n) * size;
    assert (total - n) * size == total * size - n * size;
    QuotientBelow(n * size, size, total);
  }

  function Floors(sizes: map<string, int>, n: nat, total: nat): map<string, int>
    requires total > 0
  {
    map t | t in sizes :: Floor(sizes[t], n, total)
  }

  function Rems(sizes: map<string, int>, n: nat, total: nat): map<string, int>
    requires total > 0
  {
    map t | t in sizes :: Rem(sizes[t], n, total)
  }

  lemma {:induction false} InsertSum(sorted: seq<string>, t: string, frac: map<string, int>, f: map<string, int>)
    ensures Sum(Insert(sorted, t, frac), f) == Sum(sorted, f) + At(f, t)
  {
    if sorted == [] || At(frac, sorted[|sorted| - 1]) >= At(frac, t) {
      assert (sorted + [t])[..|sorted|] == sorted;
    } else {
      var less, last := sorted[..|sorted| - 1], sorted[|sorted| - 1];
      InsertSum(less, t, frac, f);
      assert (Insert(less, t, frac) + [last])[..|Insert(less, t, frac)|] == Insert(less, t, frac);
    }
  }

  lemma {:induction false} SortSum(ts: seq<string>, frac: map<string, int>, f: map<string, int>)
    ensures Sum(SortDescending(ts, frac), f) == Sum(ts, f)
  {
    if ts != [] {
      SortSum(ts[..|ts| - 1], frac, f);
      InsertSum(SortDescending(ts[..|ts| - 1], frac), ts[|ts| - 1], frac, f);
    }
  }

  // ----- the shortfall and who gets it ----------------------------------------------------------------

  lemma Distribute(n: int, a: int, b: int)
    ensures n * (a + b) == n * a + n * b
  {
  }

  /** The exact shares, split into floors and remainders, add up. */
  lemma {:induction false} SumDivMod(ts: seq<string>, sizes: map<string, int>, n: nat, total: nat)
    requires total > 0 && forall t | t in ts :: t in sizes
    ensures n * Sum(ts, sizes) == total * Sum(ts, Floors(sizes, n, total)) + Sum(ts, Rems(sizes, n, total))
  {
    if ts != [] {
      var less, t := ts[..|ts| - 1], ts[|ts| - 1];
      SumDivMod(less, sizes, n, total);
      Distribute(n, Sum(less, sizes), sizes[t]);
      Distribute(total, Sum(less, Floors(sizes, n, total)), Floor(sizes[t], n, total));
      assert n * sizes[t] == total * Floor(sizes[t], n, total) + Rem(sizes[t], n, total);
    }
  }

  /** Only what precedes the first zero counts. */
  lemma {:induction false} ZeroTail(ts: seq<string>, f: map<string, int>, i: nat)
    requires i <= |ts| && forall j | i <= j < |ts| :: At(f, ts[j]) == 0
    ensures Sum(ts, f) == Sum(ts[..i], f)
  {
    if i < |ts| {
      ZeroTail(ts[..|ts| - 1], f, i);
      assert ts[..|ts| - 1][..i] == ts[..i];
    } else {
      assert ts[..i] == ts;
    }
  }

  function Scaled(k: int, total: int): int {
    k * total
  }

  lemma Exceeds(k: int, i: int, total: nat)
    requires k * total <= i * total && total > 0
    ensures k <= i
  {
    assert k > i ==> (k - i) * total > 0;
  }

  lemma ScaledBound(i: nat, total: nat)
    requires total > 0
    ensures i * (total - 1) <= i * total
    ensures i > 0 ==> i * (total - 1) < i * total
  {
  }

  lemma ZeroAfterFront(order: seq<string>, rems: map<string, int>, k: int, i: nat, total: nat)
    requires total > 0 && Descending(order, rems) && Sum(order, rems) == Scaled(k, total) && i < |order|
    requires forall t | t in order :: 0 <= At(rems, t) <= total - 1
    requires At(rems, order[i]) == 0
    ensures k <= i
  {
    assert forall j | i <= j < |order| :: At(rems, order[j]) <= At(rems, order[i]);
    ZeroTail(order, rems, i);
    SumBounds(order[..i], rems, total - 1);
    ScaledBound(i, total);
    Exceeds(k, i, total);
  }

  /** Remainders that add up to k totals, each below the total and sorted downwards, start with at
      least k positive ones. */
  lemma PositiveFront(order: seq<string>, rems: map<string, int>, k: int, total: nat)
    requires total > 0 && Descending(order, rems) && Sum(order, rems) == Scaled(k, total)
    requires forall t | t in order :: 0 <= At(rems, t) <= total - 1
    ensures 0 <= k <= |order| && forall i | 0 <= i < k :: At(rems, order[i]) > 0
  {
    SumBounds(order, rems, total - 1);
    ScaledBound(|order|, total);
    Exceeds(k, |order|, total);
    Exceeds(0, k, total);
    forall i | 0 <= i < k ensures At(rems, order[i]) > 0 {
      if At(rems, order[i]) == 0 {
        ZeroAfterFront(order, rems, k, i, total);
      }
    }
  }

  function Order(rows: seq<Row>, n: nat): seq<string>
    requires rows != []
  {
    SortDescending(Types(rows), Rems(Sizes(rows), n, |rows|))
  }

  /** What the rounded-down shares leave over. */
  function Missing(types: seq<string>, sizes: map<string, int>, n: nat, total: nat): int
    requires total > 0
  {
    n - Sum(types, Floors(sizes, n, total))
  }

  function Shortfall(rows: seq<Row>, n: nat): int
    requires rows != []
  {
    Missing(Types(rows), Sizes(rows), n, |rows|)
  }

  lemma Rearrange(n: int, total: int, floors: int, rems: int)
    requires n * total == total * floors + rems
    ensures rems == (n - floors) * total
  {
    assert (n - floors) * total == n * total - floors * total;
  }

  lemma RemsOfShares(types: seq<string>, sizes: map<string, int>, n: nat, total: nat)
    requires total > 0 && Sum(types, sizes) == total && forall t | t in types :: t in sizes
    ensures Sum(types, Rems(sizes, n, total)) == Scaled(Missing(types, sizes, n, total), total)
  {
    SumDivMod(types, sizes, n, total);
    var floors, rems := Sum(types, Floors(sizes, n, total)), Sum(types, Rems(sizes, n, total));
    Rearrange(n, total, floors, rems);
  }

  lemma RemsInRange(rows: seq<Row>, n: nat)
    requires n < |rows|
    ensures forall t | t in Types(rows) :: 0 <= At(Rems(Sizes(rows), n, |rows|), t) <= |rows| - 1
  {
    forall t | t in Types(rows) ensures 0 <= At(Rems(Sizes(rows), n, |rows|), t) <= |rows| - 1 {
      FloorBelow(Sizes(rows)[t], n, |rows|);
    }
  }

  /** The remainders add up to the shortfall, in units of the total. */
  lemma RemsTotal(rows: seq<Row>, n: nat)
    requires n < |rows|
    ensures Sum(Order(rows, n), Rems(Sizes(rows), n, |rows|)) == Scaled(Shortfall(rows, n), |rows|)
  {
    var rems := Rems(Sizes(rows), n, |rows|);
    assert Sum(Order(rows, n), rems) == Sum(Types(rows), rems) by {
      SortSum(Types(rows), rems, rems);
    }
    assert Sum(Types(rows), rems) == Scaled(Shortfall(rows, n), |rows|) by {
      SizesSum(rows);
      RemsOfShares(Types(rows), Sizes(rows), n, |rows|);
    }
  }

  ghost predicate Covered(order: seq<string>, types: seq<string>, rems: map<string, int>, k: int) {
    && 0 <= k <= |order|
    && Distinct(order)
    && Descending(order, rems)
    && (forall t :: t in order <==> t in types)
    && (forall i | 0 <= i < k :: At(rems, order[i]) > 0)
  }

  /** What the redistribution pass relies on: enough types have a positive remainder, and they come
      first. */
  lemma ShortfallCovered(rows: seq<Row>, n: nat)
    requires n < |rows|
    ensures Covered(Order(rows, n), Types(rows), Rems(Sizes(rows), n, |rows|), Shortfall(rows, n))
  {
    TypesDistinct(rows);
    SortOrders(Types(rows), Rems(Sizes(rows), n, |rows|));
    RemsInRange(rows, n);
    RemsTotal(rows, n);
    PositiveFront(Order(rows, n), Rems(Sizes(rows), n, |rows|), Shortfall(rows, n), |rows|);
  }

  function Raised(floors: map<string, int>, up: seq<string>): map<string, int> {
    map t | t in floors :: floors[t] + if t in up then 1 else 0
  }

  /** The quotas: the floors, and one more for the `shortfall` largest remainders. */
  function Quota(rows: seq<Row>, n: nat): map<string, int>
    requires n < |rows|
  {
    ShortfallCovered(rows, n);
    Raised(Floors(Sizes(rows), n, |rows|), Order(rows, n)[..Shortfall(rows, n)])
  }

  lemma RaisedOne(floors: map<string, int>, order: seq<string>, i: nat)
    requires i < |order| && Distinct(order) && order[i] in floors
    ensures Raised(floors, order[..i + 1]) == Raised(floors, order[..i])[order[i] := floors[order[i]] + 1]
    ensures Raised(floors, order[..i])[order[i]] == floors[order[i]]
  {
    assert order[..i + 1] == order[..i] + [order[i]];
  }

  lemma {:induction false} RaisedSum(types: seq<string>, floors: map<string, int>, order: seq<string>, k: nat)
    requires k <= |order| && Distinct(order) && Distinct(types)
    requires forall t | t in order :: t in types && t in floors
    ensures Sum(types, Raised(floors, order[..k])) == Sum(types, floors) + k
  {
    if k == 0 {
      SumAgree(types, floors, Raised(floors, order[..0]));
    } else {
      RaisedSum(types, floors, order, k - 1);
      RaisedOne(floors, order, k - 1);
      SumRaise(types, Raised(floors, order[..k - 1]), Raised(floors, order[..k]), order[k - 1]);
    }
  }

  /** The quotas sum to exactly n. */
  lemma QuotasSum(rows: seq<Row>, n: nat)
    requires n < |rows|
    ensures Sum(Types(rows), Quota(rows, n)) == n
  {
    ShortfallCovered(rows, n);
    TypesDistinct(rows);
    RaisedSum(Types(rows), Floors(Sizes(rows), n, |rows|), Order(rows, n), Shortfall(rows, n));
  }

  /** q is less than one row away from the exact share n * size / total, is that share when it is a
      whole number, and does not exceed the group. */
  ghost predicate Fair(q: int, size: nat, n: nat, total: nat) {
    && 0 <= q <= size
    && (q - 1) * total < n * size < (q + 1) * total
    && (total > 0 && n * size % total == 0 ==> q * total == n * size)
  }

  lemma WithinOne(x: nat, total: nat, q: int)
    requires total > 0
    requires q == x / total || (q == x / total + 1 && x % total > 0)
    ensures (q - 1) * total < x < (q + 1) * total
    ensures x % total == 0 ==> q * total == x
  {
    var floor, rem := x / total, x % total;
    assert x == total * floor + rem;
    Distribute(total, floor, 1);
    Distribute(total, floor, 2);
    Distribute(total, floor, -1);
  }

  lemma RoundedIsFair(q: int, size: nat, n: nat, total: nat)
    requires n < total
    requires q == Floor(size, n, total) || (q == Floor(size, n, total) + 1 && Rem(size, n, total) > 0)
    ensures Fair(q, size, n, total)
  {
    FloorBelow(size, n, total);
    var x := n * size;
    assert x >= 0;
    WithinOne(x, total, q);
  }

  lemma RaisedHasRemainder(rows: seq<Row>, n: nat, t: string)
    requires n < |rows| && t in Types(rows)
    ensures Quota(rows, n)[t] == Floor(Sizes(rows)[t], n, |rows|)
         || (Quota(rows, n)[t] == Floor(Sizes(rows)[t], n, |rows|) + 1 && Rem(Sizes(rows)[t], n, |rows|) > 0)
  {
    var order, k := Order(rows, n), Shortfall(rows, n);
    ShortfallCovered(rows, n);
    if t in order[..k] {
      var i :| 0 <= i < k && order[..k][i] == t;
      assert At(Rems(Sizes(rows), n, |rows|), order[i]) > 0;
    }
  }

  /** Each quota is the floor or the ceiling of its exact share and never exceeds its group. */
  lemma QuotaIsFair(rows: seq<Row>, n: nat, t: string)
    requires n < |rows| && t in Types(rows)
    ensures Fair(Quota(rows, n)[t], |Group(rows, t)|, n, |rows|)
  {
    RaisedHasRemainder(rows, n, t);
    RoundedIsFair(Quota(rows, n)[t], |Group(rows, t)|, n, |rows|);
  }

  lemma InPrefix(order: seq<string>, k: nat, j: nat)
    requires j < |order| && k <= |order|
    ensures j < k ==> order[j] in order[..k]
  {
    assert j < k ==> order[..k][j] == order[j];
  }

  /** Largest remainder: a type rounded up has at least the remainder of any type rounded down. */
  lemma LargestRemainderFirst(rows: seq<Row>, n: nat, up: string, down: string)
    requires n < |rows| && up in Types(rows) && down in Types(rows)
    requires Quota(rows, n)[up] > Floor(|Group(rows, up)|, n, |rows|)
    requires Quota(rows, n)[down] <= Floor(|Group(rows, down)|, n, |rows|)
    ensures Rem(|Group(rows, up)|, n, |rows|) >= Rem(|Group(rows, down)|, n, |rows|)
  {
    var order, k, rems := Order(rows, n), Shortfall(rows, n), Rems(Sizes(rows), n, |rows|);
    ShortfallCovered(rows, n);
    var i :| 0 <= i < k && order[..k][i] == up;
    var j :| 0 <= j < |order| && order[j] == down;
    InPrefix(order, k, j);
    assert At(rems, order[i]) >= At(rems, order[j]);
  }

  // ----- the code -----------------------------------------------------------------------------------

  /** The rounded-down shares and their remainders. */
  method RoundDown(rows: seq<Row>, n: nat, types: seq<string>, byType: map<string, seq<Row>>)
    returns (quotas: map<string, int>, fracs: map<string, int>)
    requires n < |rows| && GroupedBy(rows, types, byType)
    ensures quotas == Floors(Sizes(rows), n, |rows|) && fracs == Rems(Sizes(rows), n, |rows|)
  {
    quotas, fracs := map[], map[];
    for i := 0 to |types|
      invariant quotas.Keys == fracs.Keys == set t | t in types[..i]
      invariant forall t | t in types[..i] :: quotas[t] == Floor(Sizes(rows)[t], n, |rows|)
      invariant forall t | t in types[..i] :: fracs[t] == Rem(Sizes(rows)[t], n, |rows|)
    {
      var t := types[i];
      var size := |byType[t]|;
      FloorBelow(size, n, |rows|);
      var whole := Floor(size, n, |rows|);
      quotas := quotas[t := if size < whole then size else whole];
      fracs := fracs[t := Rem(size, n, |rows|)];
      assert types[..i + 1] == types[..i] + [t];
    }
    assert types[..|types|] == types;
  }

  /** Each of the first k types in order has room for one more row. */
  ghost predicate HasRoom(order: seq<string>, k: int, floors: map<string, int>, byType: map<string, seq<Row>>) {
    forall i | 0 <= i < k && i < |order| ::
      order[i] in floors && order[i] in byType && floors[order[i]] < |byType[order[i]]|
  }

  lemma RoomForOneMore(rows: seq<Row>, n: nat, types: seq<string>, byType: map<string, seq<Row>>)
    requires n < |rows| && GroupedBy(rows, types, byType)
    ensures HasRoom(Order(rows, n), Shortfall(rows, n), Floors(Sizes(rows), n, |rows|), byType)
  {
    var order, k := Order(rows, n), Shortfall(rows, n);
    ShortfallCovered(rows, n);
    forall i | 0 <= i < k && i < |order|
      ensures order[i] in types && Floors(Sizes(rows), n, |rows|)[order[i]] < |byType[order[i]]|
    {
      assert order[i] in order;
      assert At(Rems(Sizes(rows), n, |rows|), order[i]) > 0;
      FloorBelow(|Group(rows, order[i])|, n, |rows|);
    }
  }

  /** The redistribution pass: one walk over the types by falling fraction places the whole shortfall,
      one row each, on the types it meets first. */
  method Redistribute(n: int, types: seq<string>, byType: map<string, seq<Row>>, floors: map<string, int>,
                      fracs: map<string, int>)
    returns (quotas: map<string, int>, shortfall: int)
    requires Covered(SortDescending(types, fracs), types, fracs, n - Sum(types, floors))
    requires HasRoom(SortDescending(types, fracs), n - Sum(types, floors), floors, byType)
    ensures quotas == Raised(floors, SortDescending(types, fracs)[..n - Sum(types, floors)])
    ensures shortfall == 0
  {
    quotas, shortfall := floors, n - Sum(types, floors);
    var order := SortDescending(types, fracs);
    ghost var k := shortfall;
    var i := 0;
    assert quotas == Raised(floors, order[..0]);
    while i < |order| && shortfall > 0
      invariant 0 <= i <= k <= |order| && shortfall == k - i
      invariant quotas == Raised(floors, order[..i])
    {
      var t := order[i];
      RaisedOne(floors, order, i);
      if quotas[t] < |byType[t]| {
        quotas := quotas[t := quotas[t] + 1];
        shortfall := shortfall - 1;
      }
      i := i + 1;
    }
  }

  method StratifiedQuotas(rows: seq<Row>, n: nat, types: seq<string>, byType: map<string, seq<Row>>)
    returns (quotas: map<string, int>)
    requires n < |rows| && GroupedBy(rows, types, byType)
    ensures quotas == Quota(rows, n)
  {
    var floors, fracs := RoundDown(rows, n, types, byType);
    ShortfallCovered(rows, n);
    RoomForOneMore(rows, n, types, byType);
    assert SortDescending(types, fracs) == Order(rows, n) && n - Sum(types, floors) == Shortfall(rows, n);
    var shortfall;
    quotas, shortfall := Redistribute(n, types, byType, floors, fracs);
  }

  // ----- the sample ---------------------------------------------------------------------------------

  lemma {:induction false} GroupConcat(a: seq<Row>, b: seq<Row>, t: string)
    ensures Group(a + b, t) == Group(a, t) + Group(b, t)
  {
    if b == [] {
      assert a + b == a;
    } else {
      assert (a + b)[..|a + b| - 1] == a + b[..|b| - 1];
      GroupConcat(a, b[..|b| - 1], t);
    }
  }

  lemma {:induction false} GroupOfOneType(rows: seq<Row>, t: string, u: string)
    requires forall r | r in rows :: r.clauseType == t
    ensures Group(rows, u) == if u == t then rows else []
  {
    if rows != [] {
      GroupOfOneType(rows[..|rows| - 1], t, u);
    }
  }

  lemma DrawnRows(rows: seq<Row>, t: string, drawn: seq<Row>)
    requires multiset(drawn) <= multiset(Group(rows, t))
    ensures forall r | r in drawn :: r.clauseType == t
    ensures forall r :: multiset(drawn)[r] <= if r.clauseType == t then multiset(rows)[r] else 0
  {
    forall r ensures multiset(drawn)[r] <= if r.clauseType == t then multiset(rows)[r] else 0 {
      GroupCounts(rows, t, r);
    }
    forall r | r in drawn ensures r.clauseType == t {
      assert multiset(drawn)[r] > 0;
    }
  }

  /** What has been drawn for the types of `done`: each quota, and no row more often than the table
      holds it. */
  ghost predicate Drawn(out: seq<Row>, rows: seq<Row>, done: seq<string>, quotas: map<string, int>) {
    && |out| == Sum(done, quotas)
    && (forall t :: |Group(out, t)| == if t in done then At(quotas, t) else 0)
    && (forall r :: multiset(out)[r] <= if r.clauseType in done then multiset(rows)[r] else 0)
  }

  lemma DrawnStep(out: seq<Row>, rows: seq<Row>, done: seq<string>, quotas: map<string, int>, t: string,
                  drawn: seq<Row>)
    requires Drawn(out, rows, done, quotas) && t !in done
    requires |drawn| == At(quotas, t) && multiset(drawn) <= multiset(Group(rows, t))
    ensures Drawn(out + drawn, rows, done + [t], quotas)
  {
    DrawnRows(rows, t, drawn);
    assert (done + [t])[..|done|] == done;
    forall u ensures |Group(out + drawn, u)| == if u in done + [t] then At(quotas, u) else 0 {
      GroupConcat(out, drawn, u);
      GroupOfOneType(drawn, t, u);
    }
    forall r ensures multiset(out + drawn)[r] <= if r.clauseType in done + [t] then multiset(rows)[r] else 0 {
      assert multiset(out + drawn)[r] == multiset(out)[r] + multiset(drawn)[r];
    }
  }

  lemma DrawnNext(out: seq<Row>, rows: seq<Row>, types: seq<string>, quotas: map<string, int>, i: nat,
                  drawn: seq<Row>)
    requires Distinct(types) && i < |types| && Drawn(out, rows, types[..i], quotas)
    requires |drawn| == At(quotas, types[i]) && multiset(drawn) <= multiset(Group(rows, types[i]))
    ensures Drawn(out + drawn, rows, types[..i + 1], quotas)
  {
    assert types[..i + 1] == types[..i] + [types[i]];
    DrawnStep(out, rows, types[..i], quotas, types[i], drawn);
  }

  method DrawGroups(rows: seq<Row>, types: seq<string>, byType: map<string, seq<Row>>,
                    quotas: map<string, int>, sample: Sampler)
    returns (out: seq<Row>)
    requires DrawsFromGroup(sample) && GroupedBy(rows, types, byType)
    requires forall t | t in types :: t in quotas && 0 <= quotas[t] <= |byType[t]|
    ensures Drawn(out, rows, types, quotas)
  {
    out := [];
    TypesDistinct(rows);
    assert Drawn([], rows, types[..0], quotas);
    for i := 0 to |types|
      invariant Drawn(out, rows, types[..i], quotas)
    {
      var group, k := byType[types[i]], quotas[types[i]];
      var drawn := sample(i, group, k);
      assert |drawn| == k && multiset(drawn) <= multiset(group);
      DrawnNext(out, rows, types, quotas, i, drawn);
      out := out + drawn;
    }
    assert types[..|types|] == types;
  }

  lemma DrawnIsSample(out: seq<Row>, rows: seq<Row>, n: nat)
    requires n < |rows| && Drawn(out, rows, Types(rows), Quota(rows, n))
    ensures |out| == n && multiset(out) <= multiset(rows)
    ensures forall t | t in Types(rows) :: Fair(|Group(out, t)|, |Group(rows, t)|, n, |rows|)
  {
    QuotasSum(rows, n);
    forall t | t in Types(rows) ensures Fair(|Group(out, t)|, |Group(rows, t)|, n, |rows|) {
      QuotaIsFair(rows, n, t);
    }
  }

  /** Reordering rows changes no group's size. */
  lemma SameGroupSizes(a: seq<Row>, b: seq<Row>, t: string)
    requires multiset(a) == multiset(b)
    ensures |Group(a, t)| == |Group(b, t)|
  {
    forall r: Row ensures multiset(Group(a, t))[r] == multiset(Group(b, t))[r] {
      GroupCounts(a, t, r);
      GroupCounts(b, t, r);
    }
    assert multiset(Group(a, t)) == multiset(Group(b, t));
    assert |multiset(Group(a, t))| == |Group(a, t)| && |multiset(Group(b, t))| == |Group(b, t)|;
  }

  lemma SameSize(a: seq<Row>, b: seq<Row>)
    requires multiset(a) == multiset(b)
    ensures |a| == |b|
  {
    assert |multiset(a)| == |a| && |multiset(b)| == |b|;
  }

  /** The sample has exactly n rows of the table, of each clause type as many as its fair quota, and is
      in the order of its key; a table of n rows or fewer is returned whole and as it is. */
  method StratifiedSample(rows: seq<Row>, n: nat, sample: Sampler, sort: RowSort) returns (out: seq<Row>)
    requires DrawsFromGroup(sample) && SortsByKey(sort)
    ensures n >= |rows| ==> out == rows
    ensures n < |rows| ==> InKeyOrder(out)
    ensures n < |rows| ==> |out| == n && multiset(out) <= multiset(rows)
    ensures n < |rows| ==> forall t | t in Types(rows) :: Fair(|Group(out, t)|, |Group(rows, t)|, n, |rows|)
    ensures n < |rows| ==> forall t | t in Types(rows) :: |Group(out, t)| == Quota(rows, n)[t]
  {
    if n >= |rows| {
      return rows;
    }
    var types, byType := GroupByType(rows);
    var quotas := StratifiedQuotas(rows, n, types, byType);
    forall t | t in types ensures 0 <= quotas[t] <= |byType[t]| {
      QuotaIsFair(rows, n, t);
    }
    var drawn := DrawGroups(rows, types, byType, quotas, sample);
    DrawnIsSample(drawn, rows, n);
    out := sort(drawn);
    SameSize(out, drawn);
    forall t | t in Types(rows) ensures |Group(out, t)| == |Group(drawn, t)| {
      SameGroupSizes(out, drawn, t);
    }
  }
}
