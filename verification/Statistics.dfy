/** The evaluation harness's rates, its interpolated percentile, and the bootstrap intervals built
    from them.  Numbers are exact reals. */
module Statistics {
  import opened Options

  // ----- the interpolated percentile ---------------------------------------------------------------

  function Insert(x: real, xs: seq<real>): seq<real> {
    if xs == [] || x <= xs[0] then [x] + xs else [xs[0]] + Insert(x, xs[1..])
  }

  /** `sorted(values)` */
  function Sorted(values: seq<real>): seq<real> {
    if values == [] then [] else Insert(values[0], Sorted(values[1..]))
  }

  ghost predicate Ascending(xs: seq<real>) {
    forall i, j | 0 <= i <= j < |xs| :: xs[i] <= xs[j]
  }

  lemma {:induction false} InsertSorts(x: real, xs: seq<real>)
    requires Ascending(xs)
    ensures Ascending(Insert(x, xs)) && |Insert(x, xs)| == |xs| + 1
    ensures forall y :: y in Insert(x, xs) <==> y == x || y in xs
  {
    if xs != [] && xs[0] < x {
      var rest := Insert(x, xs[1..]);
      InsertSorts(x, xs[1..]);
      assert xs == [xs[0]] + xs[1..];
      forall j | 0 <= j < |rest|
        ensures xs[0] <= rest[j]
      {
        assert rest[j] in rest;
      }
    }
  }

  lemma {:induction false} SortedSorts(values: seq<real>)
    ensures Ascending(Sorted(values)) && |Sorted(values)| == |values|
    ensures forall y :: y in Sorted(values) <==> y in values
  {
    if values != [] {
      SortedSorts(values[1..]);
      InsertSorts(values[0], Sorted(values[1..]));
      assert values == [values[0]] + values[1..];
    }
  }

  /** Linear interpolation at the fractional index `idx`. */
  function At(xs: seq<real>, idx: real): real
    requires xs != [] && 0.0 <= idx <= (|xs| - 1) as real
  {
    var lo := idx.Floor;
    var frac := idx - lo as real;
    var hi := if lo + 1 < |xs| - 1 then lo + 1 else |xs| - 1;
    Between(xs[lo], xs[hi], frac)
  }

  function Times(x: real, d: real): real {
    x * d
  }

  function Between(a: real, b: real, frac: real): real {
    a + Times(b - a, frac)
  }

  /** `q * (len(xs) - 1)` for a list of `n + 1` values. */
  function Index(q: real, n: nat): (idx: real)
    requires 0.0 <= q <= 1.0
    ensures 0.0 <= idx <= n as real
  {
    Scale(q, n as real);
    Times(q, n as real)
  }

  function Percentile(values: seq<real>, q: real): real
    requires 0.0 <= q <= 1.0
  {
    if values == [] then 0.0
    else
      var xs := Sorted(values);
      SortedSorts(values);
      if |xs| == 1 then xs[0] else At(xs, Index(q, |xs| - 1))
  }

  lemma Scale(q: real, n: real)
    requires 0.0 <= q <= 1.0 && 0.0 <= n
    ensures 0.0 <= q * n <= n
  {
    assert 0.0 <= (1.0 - q) * n;
  }

  lemma Interpolates(a: real, b: real, frac: real)
    requires a <= b && 0.0 <= frac <= 1.0
    ensures a <= Between(a, b, frac) <= b
  {
    var d := b - a;
    ScaleMonotone(d, 0.0, frac);
    ScaleMonotone(d, frac, 1.0);
    assert Times(d, 0.0) == 0.0 && Times(d, 1.0) == d;
  }

  lemma AtBounds(xs: seq<real>, idx: real)
    requires Ascending(xs) && xs != [] && 0.0 <= idx <= (|xs| - 1) as real
    ensures xs[idx.Floor] <= At(xs, idx)
    ensures At(xs, idx) <= xs[if idx.Floor + 1 < |xs| then idx.Floor + 1 else |xs| - 1]
  {
    var lo := idx.Floor;
    var hi := if lo + 1 < |xs| - 1 then lo + 1 else |xs| - 1;
    assert 0 <= lo <= hi < |xs|;
    assert hi == if lo + 1 < |xs| then lo + 1 else |xs| - 1;
    var a, b, frac := xs[lo], xs[hi], idx - lo as real;
    Interpolates(a, b, frac);
    assert At(xs, idx) == Between(a, b, frac);
  }

  lemma AtMonotone(xs: seq<real>, a: real, b: real)
    requires Ascending(xs) && xs != [] && 0.0 <= a <= b <= (|xs| - 1) as real
    ensures At(xs, a) <= At(xs, b)
  {
    if a.Floor == b.Floor {
      var lo := a.Floor;
      var hi := if lo + 1 < |xs| - 1 then lo + 1 else |xs| - 1;
      var d, x, y := xs[hi] - xs[lo], a - lo as real, b - lo as real;
      assert At(xs, a) == xs[lo] + Times(d, x) && At(xs, b) == xs[lo] + Times(d, y);
      ScaleMonotone(d, x, y);
    } else {
      AtBounds(xs, a);
      AtBounds(xs, b);
      assert a.Floor + 1 <= b.Floor;
      assert xs[a.Floor + 1] <= xs[b.Floor];
    }
  }

  lemma ScaleMonotone(d: real, x: real, y: real)
    requires 0.0 <= d && x <= y
    ensures Times(d, x) <= Times(d, y)
  {
    assert 0.0 <= d * (y - x);
  }

  lemma IndexMonotone(q: real, r: real, n: nat)
    requires 0.0 <= q <= r <= 1.0
    ensures Index(q, n) <= Index(r, n)
  {
    ScaleRight(q, r, n as real);
  }

  lemma ScaleRight(x: real, y: real, d: real)
    requires 0.0 <= d && x <= y
    ensures Times(x, d) <= Times(y, d)
  {
    assert 0.0 <= (y - x) * d;
  }

  /** The percentile is monotone in `q`, and lies between the least and the greatest value. */
  lemma PercentileMonotone(values: seq<real>, q: real, r: real)
    requires 0.0 <= q <= r <= 1.0
    ensures Percentile(values, q) <= Percentile(values, r)
  {
    SortedSorts(values);
    if |values| > 1 {
      var n := |values| - 1;
      IndexMonotone(q, r, n);
      AtMonotone(Sorted(values), Index(q, n), Index(r, n));
    }
  }

  lemma PercentileBetween(values: seq<real>, q: real, least: real, greatest: real)
    requires 0.0 <= q <= 1.0 && values != []
    requires forall x | x in values :: least <= x <= greatest
    ensures least <= Percentile(values, q) <= greatest
  {
    var xs := Sorted(values);
    SortedSorts(values);
    forall k | 0 <= k < |xs|
      ensures least <= xs[k] <= greatest
    {
      assert xs[k] in xs;
    }
    if |values| > 1 {
      AtBounds(xs, Index(q, |xs| - 1));
    }
  }

  /** At a whole index the percentile is the value there. */
  lemma AtWhole(xs: seq<real>, k: nat)
    requires k < |xs|
    ensures At(xs, k as real) == xs[k]
  {
    var hi := if k + 1 < |xs| - 1 then k + 1 else |xs| - 1;
    assert Times(xs[hi] - xs[k], 0.0) == 0.0;
  }

  /** And in between it moves from the one value to the next in proportion. */
  lemma AtInterpolates(xs: seq<real>, k: nat, frac: real)
    requires k + 1 < |xs| && 0.0 <= frac < 1.0
    ensures At(xs, k as real + frac) == Times(1.0 - frac, xs[k]) + Times(frac, xs[k + 1])
  {
    var idx := k as real + frac;
    assert idx.Floor == k && idx <= (|xs| - 1) as real;
    Mixture(xs[k], xs[k + 1], frac);
  }

  lemma Mixture(a: real, b: real, frac: real)
    ensures Between(a, b, frac) == Times(1.0 - frac, a) + Times(frac, b)
  {
  }

  /** The extremes are the least and the greatest value. */
  lemma PercentileEnds(values: seq<real>)
    requires values != []
    ensures Percentile(values, 0.0) in values && Percentile(values, 1.0) in values
    ensures forall x | x in values :: Percentile(values, 0.0) <= x <= Percentile(values, 1.0)
  {
    var xs := Sorted(values);
    SortedSorts(values);
    if |xs| > 1 {
      var n := |xs| - 1;
      assert Index(0.0, n) == 0.0 && Index(1.0, n) == n as real;
      AtWhole(xs, 0);
      AtWhole(xs, n);
    }
    forall x | x in values ensures xs[0] <= x <= xs[|xs| - 1] {
      var k :| 0 <= k < |xs| && xs[k] == x;
    }
  }

  /** The q-th percentile lies q times the number of steps up the sorted list. */
  lemma PercentileAt(values: seq<real>, q: real, k: nat, frac: real)
    requires 0.0 <= q <= 1.0 && k + 1 < |values| && 0.0 <= frac < 1.0
    requires Times(q, (|values| - 1) as real) == k as real + frac
    ensures |Sorted(values)| == |values| && Ascending(Sorted(values))
    ensures Percentile(values, q) == Times(1.0 - frac, Sorted(values)[k]) + Times(frac, Sorted(values)[k + 1])
  {
    SortedSorts(values);
    AtInterpolates(Sorted(values), k, frac);
  }

  lemma {:induction false} InsertAdds(x: real, xs: seq<real>)
    ensures multiset(Insert(x, xs)) == multiset(xs) + multiset{x}
  {
    if xs != [] && xs[0] < x {
      InsertAdds(x, xs[1..]);
      assert xs == [xs[0]] + xs[1..];
    }
  }

  lemma {:induction false} SortedPermutes(values: seq<real>)
    ensures multiset(Sorted(values)) == multiset(values)
  {
    if values != [] {
      SortedPermutes(values[1..]);
      InsertAdds(values[0], Sorted(values[1..]));
      assert values == [values[0]] + values[1..];
    }
  }

  // ----- detection rates ---------------------------------------------------------------------------

  function SafeDiv(n: real, d: real): Option<real> {
    if d == 0.0 then None else Some(n / d)
  }

  /** A document's, or a sample's, detection tallies. */
  datatype Five = Five(tp: int, fn: int, fpClean: int, tn: int, unlabeled: int) {
    ghost predicate Valid() {
      tp >= 0 && fn >= 0 && fpClean >= 0 && tn >= 0 && unlabeled >= 0
    }
  }

  datatype Metric = Precision | Recall | F1 | MissRate | FalseFlagRate

  const METRICS: set<Metric> := {Precision, Recall, F1, MissRate, FalseFlagRate}

  function Harmonic(p: real, r: real): Option<real> {
    SafeDiv(2.0 * p * r, p + r)
  }

  function Rate(m: Metric, s: Five): Option<real> {
    var precision := SafeDiv(s.tp as real, (s.tp + s.fpClean + s.unlabeled) as real);
    var recall := SafeDiv(s.tp as real, (s.tp + s.fn) as real);
    match m
    case Precision => precision
    case Recall => recall
    case F1 =>
      if precision.Some? && precision.value != 0.0 && recall.Some? && recall.value != 0.0 then
        Harmonic(precision.value, recall.value)
      else if precision == None || recall == None then None
      else Some(0.0)
    case MissRate => SafeDiv(s.fn as real, (s.tp + s.fn) as real)
    case FalseFlagRate => SafeDiv(s.fpClean as real, (s.fpClean + s.tn) as real)
  }

  lemma Cancel(a: real, b: real, s: real)
    requires 0.0 < s && a * s <= b * s
    ensures a <= b
  {
    assert b < a ==> 0.0 < (a - b) * s;
  }

  lemma QuotientBetween(lo: real, n: real, d: real, hi: real)
    requires 0.0 < d && lo * d <= n <= hi * d
    ensures lo <= n / d <= hi
  {
    var r := n / d;
    assert r * d == n;
    Cancel(lo, r, d);
    Cancel(r, hi, d);
  }

  lemma RatioInUnit(n: real, d: real)
    requires 0.0 <= n <= d && 0.0 < d
    ensures 0.0 <= n / d <= 1.0
  {
    QuotientBetween(0.0, n, d, 1.0);
  }

  lemma TwiceProduct(p: real, r: real)
    requires 0.0 < p <= r
    ensures p * (p + r) <= 2.0 * p * r <= r * (p + r)
  {
    ScaleMonotone(p, p, r);
    assert p * (p + r) == p * p + p * r;
    assert 2.0 * p * r == p * r + p * r;
    ScaleMonotone(r, p, r);
    assert r * (p + r) == p * r + r * r;
  }

  /** The harmonic mean lies between its two arguments. */
  lemma HarmonicBetween(p: real, r: real)
    requires 0.0 < p <= r
    ensures p <= 2.0 * p * r / (p + r) <= r
  {
    TwiceProduct(p, r);
    QuotientBetween(p, 2.0 * p * r, p + r, r);
  }

  lemma HarmonicSymmetric(p: real, r: real)
    ensures Harmonic(p, r) == Harmonic(r, p)
  {
    assert 2.0 * p * r == 2.0 * r * p;
  }

  lemma PositiveQuotient(n: real, d: real)
    requires 0.0 < d && 0.0 <= n
    ensures 0.0 <= n / d && (n / d == 0.0 <==> n == 0.0)
  {
    var r := n / d;
    assert r * d == n;
    Cancel(0.0, r, d);
  }

  /** F1 is defined exactly when precision and recall are, and then lies between the two. */
  lemma F1Between(s: Five)
    requires s.Valid()
    ensures Rate(F1, s).Some? <==> Rate(Precision, s).Some? && Rate(Recall, s).Some?
    ensures Rate(F1, s).Some? ==>
              var p, r, f := Rate(Precision, s).value, Rate(Recall, s).value, Rate(F1, s).value;
              (p <= f <= r) || (r <= f <= p)
  {
    var precision, recall := Rate(Precision, s), Rate(Recall, s);
    if precision.Some? && recall.Some? {
      PositiveQuotient(s.tp as real, (s.tp + s.fpClean + s.unlabeled) as real);
      PositiveQuotient(s.tp as real, (s.tp + s.fn) as real);
      var p, r := precision.value, recall.value;
      HarmonicOf(p, r);
      assert p == 0.0 <==> r == 0.0;
      if p == 0.0 {
        assert Rate(F1, s) == Some(0.0);
      } else {
        assert Rate(F1, s) == Harmonic(p, r);
      }
    }
  }

  lemma HarmonicOf(p: real, r: real)
    requires 0.0 <= p && 0.0 <= r
    ensures p != 0.0 && r != 0.0 ==>
              var f := Harmonic(p, r);
              f.Some? && (p <= f.value <= r || r <= f.value <= p)
  {
    if p != 0.0 && r != 0.0 {
      if p <= r {
        HarmonicBetween(p, r);
      } else {
        HarmonicSymmetric(p, r);
        HarmonicBetween(r, p);
      }
    }
  }

  lemma QuotientRateInUnit(m: Metric, s: Five)
    requires s.Valid() && m != F1 && Rate(m, s).Some?
    ensures 0.0 <= Rate(m, s).value <= 1.0
  {
    match m
    case Precision => RatioInUnit(s.tp as real, (s.tp + s.fpClean + s.unlabeled) as real);
    case Recall => RatioInUnit(s.tp as real, (s.tp + s.fn) as real);
    case MissRate => RatioInUnit(s.fn as real, (s.tp + s.fn) as real);
    case FalseFlagRate => RatioInUnit(s.fpClean as real, (s.fpClean + s.tn) as real);
  }

  /** Every defined rate is a number between 0 and 1. */
  lemma RateInUnit(m: Metric, s: Five)
    requires s.Valid() && Rate(m, s).Some?
    ensures 0.0 <= Rate(m, s).value <= 1.0
  {
    if m == F1 {
      F1Between(s);
      QuotientRateInUnit(Precision, s);
      QuotientRateInUnit(Recall, s);
    } else {
      QuotientRateInUnit(m, s);
    }
  }

  lemma QuotientIs(n: real, d: real)
    ensures SafeDiv(n, d).Some? <==> d != 0.0
    ensures d != 0.0 ==> Times(SafeDiv(n, d).value, d) == n
  {
  }

  /** A rate is undefined exactly when there is nothing it could be a share of. */
  lemma RateDefinedIff(s: Five)
    ensures Rate(Precision, s).Some? <==> s.tp + s.fpClean + s.unlabeled != 0
    ensures Rate(Recall, s).Some? <==> s.tp + s.fn != 0
    ensures Rate(MissRate, s).Some? <==> s.tp + s.fn != 0
    ensures Rate(FalseFlagRate, s).Some? <==> s.fpClean + s.tn != 0
  {
  }

  /** What each rate is a share of: precision of the findings, recall and misses of the risky gold clauses,
      false flags of the clean ones. */
  lemma RatesAreShares(s: Five)
    ensures Rate(Precision, s).Some? ==>
              Times(Rate(Precision, s).value, (s.tp + s.fpClean + s.unlabeled) as real) == s.tp as real
    ensures Rate(Recall, s).Some? ==> Times(Rate(Recall, s).value, (s.tp + s.fn) as real) == s.tp as real
    ensures Rate(MissRate, s).Some? ==> Times(Rate(MissRate, s).value, (s.tp + s.fn) as real) == s.fn as real
    ensures Rate(FalseFlagRate, s).Some? ==>
              Times(Rate(FalseFlagRate, s).value, (s.fpClean + s.tn) as real) == s.fpClean as real
  {
    QuotientIs(s.tp as real, (s.tp + s.fpClean + s.unlabeled) as real);
    QuotientIs(s.tp as real, (s.tp + s.fn) as real);
    QuotientIs(s.fn as real, (s.tp + s.fn) as real);
    QuotientIs(s.fpClean as real, (s.fpClean + s.tn) as real);
  }

  lemma QuotientsAdd(a: real, b: real, d: real)
    requires d != 0.0 && a + b == d
    ensures a / d + b / d == 1.0
  {
  }

  /** Every risky gold clause is found or missed. */
  lemma RecallAndMissAddUp(s: Five)
    requires s.tp + s.fn != 0
    ensures Rate(Recall, s).Some? && Rate(MissRate, s).Some?
    ensures Rate(Recall, s).value + Rate(MissRate, s).value == 1.0
  {
    QuotientsAdd(s.tp as real, s.fn as real, (s.tp + s.fn) as real);
  }

  /** F1 is the harmonic mean: times the sum of precision and recall it is twice their product. */
  lemma F1IsHarmonic(s: Five)
    requires s.Valid() && Rate(F1, s).Some?
    ensures var p, r, f := Rate(Precision, s), Rate(Recall, s), Rate(F1, s).value;
            p.Some? && r.Some? && Times(f, p.value + r.value) == 2.0 * p.value * r.value
  {
    var p, r := Rate(Precision, s), Rate(Recall, s);
    F1Between(s);
    QuotientRateInUnit(Precision, s);
    QuotientRateInUnit(Recall, s);
    if p.value != 0.0 && r.value != 0.0 {
      QuotientIs(2.0 * p.value * r.value, p.value + r.value);
    } else {
      PositiveQuotient(s.tp as real, (s.tp + s.fpClean + s.unlabeled) as real);
      PositiveQuotient(s.tp as real, (s.tp + s.fn) as real);
      assert p.value == 0.0 && r.value == 0.0;
    }
  }

  // ----- the bootstrap -------------------------------------------------------------------------------

  const NOTHING := Five(0, 0, 0, 0, 0)

  function Plus(a: Five, b: Five): Five {
    Five(a.tp + b.tp, a.fn + b.fn, a.fpClean + b.fpClean, a.tn + b.tn, a.unlabeled + b.unlabeled)
  }

  /** The documents drawn for one iteration: any index at any slot. */
  type Draw = seq<int>

  ghost predicate InRange(draw: Draw, n: nat) {
    forall k | 0 <= k < |draw| :: 0 <= draw[k] < n
  }

  function SampleSum(perDoc: seq<Five>, draw: Draw): Five
    requires InRange(draw, |perDoc|)
  {
    if draw == [] then NOTHING
    else Plus(SampleSum(perDoc, draw[..|draw| - 1]), perDoc[draw[|draw| - 1]])
  }

  function Recorded(values: seq<real>, rate: Option<real>): seq<real> {
    if rate.Some? then values + [rate.value] else values
  }

  /** The defined values of a metric over the iterations. */
  function Distribution(perDoc: seq<Five>, draws: seq<Draw>, m: Metric): seq<real>
    requires forall d | d in draws :: InRange(d, |perDoc|)
  {
    if draws == [] then []
    else
      Recorded(Distribution(perDoc, draws[..|draws| - 1], m), Rate(m, SampleSum(perDoc, draws[|draws| - 1])))
  }

  function EveryDoc(n: nat): Draw {
    seq(n, i => i)
  }

  datatype Interval = Interval(lo: real, hi: real)

  function IntervalFrom(full: Option<real>, dist: seq<real>, ciLevel: real): Option<Interval>
    requires 0.0 <= ciLevel <= 1.0
  {
    var lo := (1.0 - ciLevel) / 2.0;
    if full == None || dist == [] then None
    else Some(Interval(Percentile(dist, lo), Percentile(dist, 1.0 - lo)))
  }

  /** The interval of a metric: none when the full corpus, or every draw, leaves it undefined. */
  function IntervalOf(perDoc: seq<Five>, draws: seq<Draw>, m: Metric, ciLevel: real): Option<Interval>
    requires forall d | d in draws :: InRange(d, |perDoc|)
    requires 0.0 <= ciLevel <= 1.0
  {
    IntervalFrom(Rate(m, SampleSum(perDoc, EveryDoc(|perDoc|))), Distribution(perDoc, draws, m), ciLevel)
  }

  /** One of the five tallies, by its place. */
  function Nth(s: Five, i: int): int {
    if i == 0 then s.tp else if i == 1 then s.fn else if i == 2 then s.fpClean else if i == 3 then s.tn else s.unlabeled
  }

  /** That tally summed over the drawn documents, from the first. */
  function DrawnSum(perDoc: seq<Five>, draw: Draw, i: int): int
    requires InRange(draw, |perDoc|)
  {
    if draw == [] then 0 else Nth(perDoc[draw[0]], i) + DrawnSum(perDoc, draw[1..], i)
  }

  lemma {:induction false} DrawnSumSnoc(perDoc: seq<Five>, draw: Draw, d: int, i: int)
    requires InRange(draw, |perDoc|) && 0 <= d < |perDoc|
    ensures InRange(draw + [d], |perDoc|)
    ensures DrawnSum(perDoc, draw + [d], i) == DrawnSum(perDoc, draw, i) + Nth(perDoc[d], i)
  {
    if draw != [] {
      assert (draw + [d])[1..] == draw[1..] + [d];
      DrawnSumSnoc(perDoc, draw[1..], d, i);
    }
  }

  /** Each of the five tallies of a sample is its own sum over the drawn documents, a document drawn twice
      counting twice. */
  lemma {:induction false} SampleSumIsSum(perDoc: seq<Five>, draw: Draw, i: int)
    requires InRange(draw, |perDoc|)
    ensures Nth(SampleSum(perDoc, draw), i) == DrawnSum(perDoc, draw, i)
    decreases |draw|
  {
    if draw != [] {
      var n := |draw| - 1;
      SampleSumIsSum(perDoc, draw[..n], i);
      DrawnSumSnoc(perDoc, draw[..n], draw[n], i);
      assert draw == draw[..n] + [draw[n]];
    }
  }

  /** `sum(s[i] for s in sample)` for the five tallies. */
  method Aggregate(perDoc: seq<Five>, draw: Draw) returns (agg: Five)
    requires InRange(draw, |perDoc|)
    ensures agg == SampleSum(perDoc, draw)
  {
    agg := NOTHING;
    for k := 0 to |draw|
      invariant agg == SampleSum(perDoc, draw[..k])
    {
      assert draw[..k + 1][..k] == draw[..k];
      agg := Plus(agg, perDoc[draw[k]]);
    }
    assert draw[..|draw|] == draw;
  }

  lemma EveryMetric(m: Metric)
    ensures m in METRICS
  {
    match m case Precision => case Recall => case F1 => case MissRate => case FalseFlagRate =>
  }

  method BootstrapDetectionCi(perDoc: seq<Five>, draws: seq<Draw>, ciLevel: real)
    returns (intervals: map<Metric, Option<Interval>>)
    requires forall d | d in draws :: InRange(d, |perDoc|) && |d| == |perDoc|
    requires 0.0 <= ciLevel <= 1.0
    ensures forall m :: m in intervals
    ensures forall m | m in intervals :: intervals[m] ==
              if perDoc == [] then None else IntervalOf(perDoc, draws, m, ciLevel)
  {
    forall m: Metric
      ensures m in METRICS
    {
      EveryMetric(m);
    }
    if perDoc == [] {
      intervals := map m | m in METRICS :: None;
      return;
    }
    var full := Aggregate(perDoc, EveryDoc(|perDoc|));
    var dists := Distributions(perDoc, draws);
    intervals := map m | m in METRICS :: IntervalFrom(Rate(m, full), dists[m], ciLevel);
  }

  /** The resampling loop: one list of defined values a metric. */
  method Distributions(perDoc: seq<Five>, draws: seq<Draw>) returns (dists: map<Metric, seq<real>>)
    requires forall d | d in draws :: InRange(d, |perDoc|)
    ensures forall m | m in METRICS :: m in dists && dists[m] == Distribution(perDoc, draws, m)
  {
    dists := map m | m in METRICS :: [];
    for i := 0 to |draws|
      invariant forall m | m in METRICS :: m in dists && dists[m] == Distribution(perDoc, draws[..i], m)
    {
      assert draws[..i + 1][..i] == draws[..i];
      var agg := Aggregate(perDoc, draws[i]);
      dists := map m | m in METRICS :: Recorded(dists[m], Rate(m, agg));
    }
    assert draws[..|draws|] == draws;
  }

  ghost predicate AllValid(perDoc: seq<Five>) {
    forall s | s in perDoc :: s.Valid()
  }

  lemma {:induction false} SampleSumValid(perDoc: seq<Five>, draw: Draw)
    requires AllValid(perDoc) && InRange(draw, |perDoc|)
    ensures SampleSum(perDoc, draw).Valid()
    decreases |draw|
  {
    if draw != [] {
      SampleSumValid(perDoc, draw[..|draw| - 1]);
      assert perDoc[draw[|draw| - 1]] in perDoc;
    }
  }

  ghost predicate AllInUnit(values: seq<real>) {
    forall x | x in values :: 0.0 <= x <= 1.0
  }

  lemma RecordedInUnit(values: seq<real>, m: Metric, s: Five)
    requires AllInUnit(values) && s.Valid()
    ensures AllInUnit(Recorded(values, Rate(m, s)))
  {
    if Rate(m, s).Some? {
      RateInUnit(m, s);
    }
  }

  lemma {:induction false} DistributionInUnit(perDoc: seq<Five>, draws: seq<Draw>, m: Metric)
    requires AllValid(perDoc) && forall d | d in draws :: InRange(d, |perDoc|)
    ensures AllInUnit(Distribution(perDoc, draws, m))
    decreases |draws|
  {
    if draws != [] {
      var n := |draws| - 1;
      DistributionInUnit(perDoc, draws[..n], m);
      SampleSumValid(perDoc, draws[n]);
      RecordedInUnit(Distribution(perDoc, draws[..n], m), m, SampleSum(perDoc, draws[n]));
    }
  }

  /** The metric on each of the draws. */
  ghost function RatesOf(perDoc: seq<Five>, draws: seq<Draw>, m: Metric): seq<Option<real>>
    requires forall d | d in draws :: InRange(d, |perDoc|)
  {
    seq(|draws|, k requires 0 <= k < |draws| => Rate(m, SampleSum(perDoc, draws[k])))
  }

  function Defined(rates: seq<Option<real>>): seq<real> {
    if rates == [] then [] else Recorded(Defined(rates[..|rates| - 1]), rates[|rates| - 1])
  }

  lemma {:induction false} DefinedMembers(rates: seq<Option<real>>, x: real)
    ensures x in Defined(rates) <==> Some(x) in rates
  {
    if rates != [] {
      var n := |rates| - 1;
      DefinedMembers(rates[..n], x);
      assert rates == rates[..n] + [rates[n]];
    }
  }

  /** The bootstrapped values are the rates of the draws, in order, where they are defined. */
  lemma {:induction false} DistributionIsDefined(perDoc: seq<Five>, draws: seq<Draw>, m: Metric, x: real)
    requires forall d | d in draws :: InRange(d, |perDoc|)
    ensures Distribution(perDoc, draws, m) == Defined(RatesOf(perDoc, draws, m))
    ensures x in Distribution(perDoc, draws, m) <==> Some(x) in RatesOf(perDoc, draws, m)
    decreases |draws|
  {
    if draws != [] {
      var n := |draws| - 1;
      DistributionIsDefined(perDoc, draws[..n], m, x);
      assert RatesOf(perDoc, draws, m)[..n] == RatesOf(perDoc, draws[..n], m);
    }
    DefinedMembers(RatesOf(perDoc, draws, m), x);
  }

  /** The ends of an interval are percentiles at equal distance from both sides, `ciLevel` apart; there is no
      interval exactly when the full corpus or every draw leaves the metric undefined. */
  lemma IntervalCovers(perDoc: seq<Five>, draws: seq<Draw>, m: Metric, ciLevel: real) returns (q: real)
    requires (forall d | d in draws :: InRange(d, |perDoc|)) && 0.0 <= ciLevel <= 1.0
    ensures 0.0 <= q <= 1.0 - q <= 1.0 && (1.0 - q) - q == ciLevel
    ensures var ci, dist := IntervalOf(perDoc, draws, m, ciLevel), Distribution(perDoc, draws, m);
            && (ci == None <==> Rate(m, SampleSum(perDoc, EveryDoc(|perDoc|))) == None || dist == [])
            && (ci.Some? ==> ci.value.lo == Percentile(dist, q) && ci.value.hi == Percentile(dist, 1.0 - q))
  {
    q := (1.0 - ciLevel) / 2.0;
  }

  lemma PercentilePair(dist: seq<real>, ciLevel: real)
    requires dist != [] && AllInUnit(dist) && 0.0 <= ciLevel <= 1.0
    ensures var lo := (1.0 - ciLevel) / 2.0;
            0.0 <= Percentile(dist, lo) <= Percentile(dist, 1.0 - lo) <= 1.0
  {
    var lo := (1.0 - ciLevel) / 2.0;
    PercentileBetween(dist, lo, 0.0, 1.0);
    PercentileBetween(dist, 1.0 - lo, 0.0, 1.0);
    PercentileMonotone(dist, lo, 1.0 - lo);
  }

  /** Whatever the resampling draws, every interval is a proper one inside [0, 1]. */
  lemma IntervalsAreProper(perDoc: seq<Five>, draws: seq<Draw>, m: Metric, ciLevel: real)
    requires AllValid(perDoc) && forall d | d in draws :: InRange(d, |perDoc|)
    requires 0.0 <= ciLevel <= 1.0
    ensures var ci := IntervalOf(perDoc, draws, m, ciLevel);
            ci.Some? ==> 0.0 <= ci.value.lo <= ci.value.hi <= 1.0
  {
    DistributionInUnit(perDoc, draws, m);
    if Distribution(perDoc, draws, m) != [] {
      PercentilePair(Distribution(perDoc, draws, m), ciLevel);
    }
  }

  /** When every draw on which the metric is defined gives the same value x, the interval is [x, x]. */
  lemma ConstantDistribution(perDoc: seq<Five>, draws: seq<Draw>, m: Metric, ciLevel: real, x: real)
    requires forall d | d in draws :: InRange(d, |perDoc|)
    requires 0.0 <= ciLevel <= 1.0
    requires IntervalOf(perDoc, draws, m, ciLevel).Some?
    requires forall y | y in Distribution(perDoc, draws, m) :: y == x
    ensures IntervalOf(perDoc, draws, m, ciLevel) == Some(Interval(x, x))
  {
    var dist := Distribution(perDoc, draws, m);
    PercentileBetween(dist, (1.0 - ciLevel) / 2.0, x, x);
    PercentileBetween(dist, 1.0 - (1.0 - ciLevel) / 2.0, x, x);
  }
}
