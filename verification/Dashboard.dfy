/** The dashboard metrics over an account's job rows. */
module Dashboard {
  import opened ContractState
  import opened Options
  import opened Ranges
  import opened RiskSummary
  import opened Sorting
  import opened Statistics

  // ----- specification ------------------------------------------------------------------------------

  function CompletedRows(rows: seq<Row>): seq<Row> {
    if rows == [] then []
    else
      var before, row := CompletedRows(rows[..|rows| - 1]), rows[|rows| - 1];
      if row.completed then before + [row] else before
  }

  /** One summary for each completed row that has one. */
  function Summaries(rows: seq<Row>, read: Reader): seq<Summary> {
    if rows == [] then []
    else
      var before, row := Summaries(rows[..|rows| - 1], read), rows[|rows| - 1];
      var s := RowSummary(row, read);
      if row.completed && s.Some? then before + [s.value] else before
  }

  function Plus(a: Counts, b: Counts): Counts {
    Counts(a.low + b.low, a.medium + b.medium, a.high + b.high)
  }

  function AddTable(table: Table, other: Table): Table {
    map t | t in table.Keys + other.Keys :: Plus(CountAt(table, t), CountAt(other, t))
  }

  function Merged(summaries: seq<Summary>): Table {
    if summaries == [] then map[]
    else AddTable(Merged(summaries[..|summaries| - 1]), summaries[|summaries| - 1].byType)
  }

  /** The graded totals over all summaries. */
  function Totals(summaries: seq<Summary>): Counts {
    if summaries == [] then ZERO
    else
      var s := summaries[|summaries| - 1];
      Plus(Totals(summaries[..|summaries| - 1]), Counts(s.low, s.medium, s.high))
  }

  function Highs(table: Table): map<string, int> {
    map t | t in table :: table[t].high
  }

  function WithHigh(types: seq<string>, table: Table): seq<string> {
    if types == [] then []
    else
      var before, t := WithHigh(types[..|types| - 1], table), types[|types| - 1];
      if CountAt(table, t).high > 0 then before + [t] else before
  }

  function TopRisky(types: seq<string>, table: Table): seq<string> {
    var ranked := SortDescending(WithHigh(types, table), Highs(table));
    if |ranked| > 5 then ranked[..5] else ranked
  }

  datatype Config = Config(mediumWeight: real, healthy: int, elevated: int)

  /** Half-to-even rounding. */
  function Rounded(x: real): int {
    var floor := x.Floor;
    var rest := x - floor as real;
    if rest < 0.5 then floor else if rest > 0.5 then floor + 1 else if floor % 2 == 0 then floor else floor + 1
  }

  function WeightedShare(high: real, medium: real, weight: real, graded: real): real
    requires graded > 0.0
  {
    (high + Times(weight, medium)) / graded
  }

  function AtLeastOne(n: int): (m: int)
    ensures m >= 1 && m >= n
  {
    if n > 1 then n else 1
  }

  function Penalty(c: Counts, weight: real): real {
    WeightedShare(c.high as real, c.medium as real, weight, AtLeastOne(c.high + c.medium + c.low) as real)
  }

  function HealthPct(c: Counts, weight: real): int {
    var pct := Rounded(100.0 * (1.0 - Penalty(c, weight)));
    if pct > 100 then 100 else if pct < 0 then 0 else pct
  }

  function HealthBand(pct: int, cfg: Config): string {
    if pct >= cfg.healthy then "healthy" else if pct >= cfg.elevated then "elevated" else "at_risk"
  }

  datatype Metrics = Metrics(total: int, completed: int, distribution: Counts, pct: int, band: string,
                             types: seq<string>, byType: seq<Counts>, cells: seq<seq<int>>, top: seq<string>)

  /** `sorted(keys)`: each key once, in an order that depends on the keys only. */
  type KeySort = set<string> -> seq<string>

  ghost predicate ListsKeys(sort: KeySort) {
    forall keys :: Distinct(sort(keys)) && forall t :: t in sort(keys) <==> t in keys
  }

  function Cells(c: Counts): seq<int> {
    [c.low, c.medium, c.high]
  }

  function MetricsOf(total: int, completed: int, summaries: seq<Summary>, sort: KeySort, cfg: Config): Metrics {
    var table, totals := Merged(summaries), Totals(summaries);
    var types := sort(table.Keys);
    var pct := HealthPct(totals, cfg.mediumWeight);
    Metrics(total, completed, totals, pct, HealthBand(pct, cfg), types,
            seq(|types|, i requires 0 <= i < |types| => CountAt(table, types[i])),
            seq(|types|, i requires 0 <= i < |types| => Cells(CountAt(table, types[i]))),
            TopRisky(types, table))
  }

  function MetricsFor(rows: seq<Row>, read: Reader, sort: KeySort, cfg: Config): Metrics {
    MetricsOf(|rows|, |CompletedRows(rows)|, Summaries(rows, read), sort, cfg)
  }

  // ----- the code -----------------------------------------------------------------------------------

  method CollectSummaries(rows: seq<Row>, read: Reader) returns (completed: seq<Row>, summaries: seq<Summary>)
    ensures completed == CompletedRows(rows) && summaries == Summaries(rows, read)
  {
    completed, summaries := [], [];
    for i := 0 to |rows|
      invariant completed == CompletedRows(rows[..i]) && summaries == Summaries(rows[..i], read)
    {
      assert rows[..i + 1][..i] == rows[..i];
      if rows[i].completed {
        completed := completed + [rows[i]];
        var s := RowSummary(rows[i], read);
        if s.Some? {
          summaries := summaries + [s.value];
        }
      }
    }
    assert rows[..|rows|] == rows;
  }

  function AddSome(table: Table, other: Table, done: set<string>): Table {
    map t | t in table.Keys + done :: if t in done then Plus(CountAt(table, t), CountAt(other, t)) else table[t]
  }

  /** One report's table into the running one, key by key and severity by severity. */
  method MergeTable(before: Table, other: Table) returns (table: Table)
    ensures table == AddTable(before, other)
  {
    table := before;
    var todo := other.Keys;
    assert table == AddSome(before, other, other.Keys - todo);
    while todo != {}
      invariant todo <= other.Keys && table == AddSome(before, other, other.Keys - todo)
    {
      var t :| t in todo;
      var entry, counts := CountAt(table, t), other[t];
      entry := entry.(low := entry.low + counts.low);
      entry := entry.(medium := entry.medium + counts.medium);
      entry := entry.(high := entry.high + counts.high);
      table := table[t := entry];
      assert other.Keys - (todo - {t}) == other.Keys - todo + {t};
      todo := todo - {t};
    }
    assert other.Keys - todo == other.Keys;
  }

  method BuildDashboardMetrics(rows: seq<Row>, read: Reader, sort: KeySort, cfg: Config) returns (m: Metrics)
    ensures m == MetricsFor(rows, read, sort, cfg)
  {
    var completed, summaries := CollectSummaries(rows, read);
    var totals, table := ZERO, map[];
    for i := 0 to |summaries|
      invariant totals == Totals(summaries[..i]) && table == Merged(summaries[..i])
    {
      assert summaries[..i + 1][..i] == summaries[..i];
      var s := summaries[i];
      totals := Plus(totals, Counts(s.low, s.medium, s.high));
      table := MergeTable(table, s.byType);
    }
    assert summaries[..|summaries|] == summaries;
    var types := sort(table.Keys);
    var byType, cells := [], [];
    for i := 0 to |types|
      invariant |byType| == |cells| == i
      invariant forall j | 0 <= j < i :: byType[j] == CountAt(table, types[j])
      invariant forall j | 0 <= j < i :: cells[j] == Cells(CountAt(table, types[j]))
    {
      var c := CountAt(table, types[i]);
      byType := byType + [c];
      cells := cells + [Cells(c)];
    }
    var pct := HealthPct(totals, cfg.mediumWeight);
    m := Metrics(|rows|, |completed|, totals, pct, HealthBand(pct, cfg), types, byType, cells,
                 TopRisky(types, table));
    assert byType == MetricsFor(rows, read, sort, cfg).byType;
    assert cells == MetricsFor(rows, read, sort, cfg).cells;
  }

  /** The metrics count every row, and the completed ones among them. */
  lemma {:induction false} CompletedAreCounted(rows: seq<Row>)
    ensures |CompletedRows(rows)| == |set i | 0 <= i < |rows| && rows[i].completed|
  {
    var all := set i | 0 <= i < |rows| && rows[i].completed;
    if rows != [] {
      var n := |rows| - 1;
      CompletedAreCounted(rows[..n]);
      var less := set i | 0 <= i < |rows[..n]| && rows[..n][i].completed;
      if rows[n].completed {
        assert all == less + {n};
      } else {
        assert all == less;
      }
    } else {
      assert all == {};
    }
  }

  lemma MetricsCountRows(rows: seq<Row>, read: Reader, sort: KeySort, cfg: Config)
    ensures var m := MetricsFor(rows, read, sort, cfg);
            m.total == |rows| && m.completed == |set i | 0 <= i < |rows| && rows[i].completed|
  {
    CompletedAreCounted(rows);
  }

  // ----- the usage timeline -------------------------------------------------------------------------

  /** How many of these jobs were submitted on a day, the days as the first ten characters tell them. */
  function DayCount(submitted: seq<string>, day: string): int {
    if submitted == [] then 0
    else DayCount(submitted[..|submitted| - 1], day) + if Day(submitted[|submitted| - 1]) == day then 1 else 0
  }

  function Day(submittedAt: string): string {
    if |submittedAt| > 10 then submittedAt[..10] else submittedAt
  }

  function Tallied(counts: map<string, int>, day: string): int {
    if day in counts then counts[day] else 0
  }

  /** One bucket for each of the given days, zero-filled: the number of jobs submitted on it. */
  method UsageTimeline(submitted: seq<string>, days: seq<string>) returns (buckets: seq<int>)
    ensures |buckets| == |days| && forall i | 0 <= i < |days| :: buckets[i] == DayCount(submitted, days[i])
  {
    var counts: map<string, int> := map[];
    for i := 0 to |submitted|
      invariant forall day: string :: Tallied(counts, day) == DayCount(submitted[..i], day)
    {
      assert submitted[..i + 1][..i] == submitted[..i];
      var day := Day(submitted[i]);
      counts := counts[day := Tallied(counts, day) + 1];
    }
    assert submitted[..|submitted|] == submitted;
    buckets := [];
    for i := 0 to |days|
      invariant |buckets| == i && forall j | 0 <= j < i :: buckets[j] == DayCount(submitted, days[j])
    {
      buckets := buckets + [Tallied(counts, days[i])];
    }
  }

  /** A day's count is the number of jobs whose time of submission begins with it. */
  lemma {:induction false} DayCountIsPrefixes(submitted: seq<string>, day: string)
    requires |day| == 10
    ensures DayCount(submitted, day) == |set i | 0 <= i < |submitted| && day <= submitted[i]|
  {
    var all := set i | 0 <= i < |submitted| && day <= submitted[i];
    if submitted == [] {
      assert all == {};
    } else {
      var n := |submitted| - 1;
      DayCountIsPrefixes(submitted[..n], day);
      var less := set i | 0 <= i < |submitted[..n]| && day <= submitted[..n][i];
      DayIffPrefix(submitted[n], day);
      if day <= submitted[n] {
        assert all == less + {n};
      } else {
        assert all == less;
      }
    }
  }

  lemma DayIffPrefix(submittedAt: string, day: string)
    requires |day| == 10
    ensures Day(submittedAt) == day <==> day <= submittedAt
  {
  }

  function InTimeline(submitted: seq<string>, days: seq<string>): int {
    if days == [] then 0 else InTimeline(submitted, days[..|days| - 1]) + DayCount(submitted, days[|days| - 1])
  }

  /** How many of these jobs were submitted on one of the days. */
  function OnDays(submitted: seq<string>, days: seq<string>): int {
    if submitted == [] then 0
    else OnDays(submitted[..|submitted| - 1], days) + if Day(submitted[|submitted| - 1]) in days then 1 else 0
  }

  lemma {:induction false} OneJobInTimeline(submitted: seq<string>, days: seq<string>)
    requires submitted != [] && Distinct(days)
    ensures InTimeline(submitted, days) == InTimeline(submitted[..|submitted| - 1], days)
                                           + if Day(submitted[|submitted| - 1]) in days then 1 else 0
    decreases |days|
  {
    if days != [] {
      var less, last := days[..|days| - 1], days[|days| - 1];
      OneJobInTimeline(submitted, less);
      assert days == less + [last];
    }
  }

  lemma {:induction false} NoJobInTimeline(days: seq<string>)
    ensures InTimeline([], days) == 0
  {
    if days != [] {
      NoJobInTimeline(days[..|days| - 1]);
    }
  }

  /** The buckets of different days add up to the number of jobs submitted on those days. */
  lemma {:induction false} TimelineCountsEachJobOnce(submitted: seq<string>, days: seq<string>)
    requires Distinct(days)
    ensures InTimeline(submitted, days) == OnDays(submitted, days)
    decreases |submitted|
  {
    if submitted == [] {
      NoJobInTimeline(days);
    } else {
      OneJobInTimeline(submitted, days);
      TimelineCountsEachJobOnce(submitted[..|submitted| - 1], days);
    }
  }

  // ----- parity -------------------------------------------------------------------------------------

  function Bare(row: Row): Row {
    row.(risk := UNSUMMARIZED)
  }

  function AllBare(rows: seq<Row>): seq<Row> {
    seq(|rows|, i requires 0 <= i < |rows| => Bare(rows[i]))
  }

  ghost predicate AllStamped(rows: seq<Row>, read: Reader) {
    forall i | 0 <= i < |rows| && rows[i].completed :: Stamped(rows[i], read)
  }

  lemma StampedReadsLive(row: Row, read: Reader)
    requires Stamped(row, read)
    ensures RowSummary(row, read) == read(row.reportPath) == RowSummary(Bare(row), read)
  {
    var live := read(row.reportPath);
    if live.Some? {
      SummaryRoundTrip(live.value);
    }
  }

  lemma {:induction false} StampedSummaries(rows: seq<Row>, read: Reader)
    requires AllStamped(rows, read)
    ensures Summaries(rows, read) == Summaries(AllBare(rows), read)
    ensures |CompletedRows(rows)| == |CompletedRows(AllBare(rows))|
  {
    if rows != [] {
      var n := |rows| - 1;
      StampedSummaries(rows[..n], read);
      assert AllBare(rows)[..n] == AllBare(rows[..n]);
      assert AllBare(rows)[n] == Bare(rows[n]);
      if rows[n].completed {
        StampedReadsLive(rows[n], read);
      }
    }
  }

  /** Metrics from stored summaries equal metrics from live reads of every report. */
  lemma StoredMetricsEqualLive(rows: seq<Row>, read: Reader, sort: KeySort, cfg: Config)
    requires AllStamped(rows, read)
    ensures MetricsFor(rows, read, sort, cfg) == MetricsFor(AllBare(rows), read, sort, cfg)
  {
    StampedSummaries(rows, read);
  }

  // ----- the per-type table is a direct count -------------------------------------------------------

  type Reports = Option<string> -> Option<Report>

  function Live(reports: Reports): Reader {
    path => if reports(path).Some? then Some(Summarized(reports(path).value)) else None
  }

  /** The findings of every readable report of a completed row, one after the other. */
  function AllFindings(rows: seq<Row>, reports: Reports): seq<Finding> {
    if rows == [] then []
    else
      var before, row := AllFindings(rows[..|rows| - 1], reports), rows[|rows| - 1];
      if row.completed && reports(row.reportPath).Some? then before + reports(row.reportPath).value.findings
      else before
  }

  lemma {:induction false} CountConcat(a: seq<Finding>, b: seq<Finding>, t: string, severity: RiskLevel)
    ensures Count(a + b, t, severity) == Count(a, t, severity) + Count(b, t, severity)
  {
    if b == [] {
      assert a + b == a;
    } else {
      assert (a + b)[..|a + b| - 1] == a + b[..|b| - 1];
      CountConcat(a, b[..|b| - 1], t, severity);
    }
  }

  lemma TallyOfCounts(ab: seq<Finding>, a: seq<Finding>, b: seq<Finding>, t: string)
    requires Count(ab, t, Low) == Count(a, t, Low) + Count(b, t, Low)
    requires Count(ab, t, Medium) == Count(a, t, Medium) + Count(b, t, Medium)
    requires Count(ab, t, High) == Count(a, t, High) + Count(b, t, High)
    ensures Tally(ab, t) == Plus(Tally(a, t), Tally(b, t))
  {
  }

  lemma TallyConcat(a: seq<Finding>, b: seq<Finding>, t: string)
    ensures Tally(a + b, t) == Plus(Tally(a, t), Tally(b, t))
  {
    CountConcat(a, b, t, Low);
    CountConcat(a, b, t, Medium);
    CountConcat(a, b, t, High);
    TallyOfCounts(a + b, a, b, t);
  }

  lemma AddTableAt(table: Table, other: Table, t: string)
    ensures CountAt(AddTable(table, other), t) == Plus(CountAt(table, t), CountAt(other, t))
    ensures t in AddTable(table, other) <==> t in table || t in other
  {
  }

  lemma MergedStep(before: seq<Summary>, found: seq<Finding>, report: Report, t: string)
    requires CountAt(Merged(before), t) == Tally(found, t)
    requires t in Merged(before) <==> Tally(found, t) != ZERO
    ensures CountAt(Merged(before + [Summarized(report)]), t) == Tally(found + report.findings, t)
    ensures t in Merged(before + [Summarized(report)]) <==> Tally(found + report.findings, t) != ZERO
  {
    MergedSnoc(before, Summarized(report));
    AddTableAt(Merged(before), ByType(report.findings), t);
    ByTypeIsTally(report.findings, t);
    TallyConcat(found, report.findings, t);
    NonNegativeTally(found, t);
    NonNegativeTally(report.findings, t);
  }

  lemma MergedSnoc(before: seq<Summary>, s: Summary)
    ensures Merged(before + [s]) == AddTable(Merged(before), s.byType)
  {
    assert (before + [s])[..|before|] == before;
  }

  lemma NonNegativeTally(findings: seq<Finding>, t: string)
    ensures NonNegative(Tally(findings, t))
  {
  }

  ghost predicate StampedOrBare(row: Row, read: Reader) {
    Stamped(row, read) || row.risk == UNSUMMARIZED
  }

  lemma ReadsLive(row: Row, read: Reader)
    requires StampedOrBare(row, read)
    ensures RowSummary(row, read) == read(row.reportPath)
  {
    if Stamped(row, read) {
      StampedReadsLive(row, read);
    }
  }

  /** Each entry of the merged table is the direct count over the concatenated findings, whether the
      rows were stamped or have to be read live, and a type is listed exactly when it has a graded
      finding. */
  lemma {:induction false} MergedIsDirectCount(rows: seq<Row>, reports: Reports, t: string)
    requires forall i | 0 <= i < |rows| && rows[i].completed :: StampedOrBare(rows[i], Live(reports))
    ensures CountAt(Merged(Summaries(rows, Live(reports))), t) == Tally(AllFindings(rows, reports), t)
    ensures t in Merged(Summaries(rows, Live(reports))) <==> Tally(AllFindings(rows, reports), t) != ZERO
  {
    if rows != [] {
      var less, row := rows[..|rows| - 1], rows[|rows| - 1];
      MergedIsDirectCount(less, reports, t);
      if row.completed {
        ReadsLive(row, Live(reports));
        var report := reports(row.reportPath);
        if report.Some? {
          MergedStep(Summaries(less, Live(reports)), AllFindings(less, reports), report.value, t);
        }
      }
    }
  }

  // ----- the derived figures ------------------------------------------------------------------------

  /** The heatmap repeats the per-type table, row by row, and the table has one row for each type. */
  lemma HeatmapAgrees(rows: seq<Row>, reports: Reports, sort: KeySort, cfg: Config, i: nat)
    requires ListsKeys(sort)
    requires forall i | 0 <= i < |rows| && rows[i].completed :: StampedOrBare(rows[i], Live(reports))
    requires i < |MetricsFor(rows, Live(reports), sort, cfg).types|
    ensures var m := MetricsFor(rows, Live(reports), sort, cfg);
            && m.cells[i] == [m.byType[i].low, m.byType[i].medium, m.byType[i].high]
            && m.byType[i] == Tally(AllFindings(rows, reports), m.types[i])
            && forall j | 0 <= j < |m.types| && j != i :: m.types[j] != m.types[i]
  {
    var m := MetricsFor(rows, Live(reports), sort, cfg);
    MergedIsDirectCount(rows, reports, m.types[i]);
  }

  lemma {:induction false} WithHighMembers(types: seq<string>, table: Table)
    ensures forall t :: t in WithHigh(types, table) <==> t in types && CountAt(table, t).high > 0
    ensures Distinct(types) ==> Distinct(WithHigh(types, table))
  {
    if types != [] {
      var less, t := types[..|types| - 1], types[|types| - 1];
      WithHighMembers(less, table);
      assert types == less + [t];
    }
  }

  lemma NotInPrefix(ranked: seq<string>, top: seq<string>, j: nat)
    requires j < |ranked| && top <= ranked && ranked[j] !in top
    ensures |top| <= j
  {
  }

  /** The top list: at most five types, each once, each with a high finding, and nothing left out has
      more high findings than anything listed. */
  lemma TopRiskyIsTop(types: seq<string>, table: Table, listed: string, other: string)
    requires Distinct(types) && listed in TopRisky(types, table)
    requires other in types && other !in TopRisky(types, table)
    ensures |TopRisky(types, table)| <= 5 && Distinct(TopRisky(types, table))
    ensures listed in types && CountAt(table, listed).high > 0
    ensures CountAt(table, other).high <= CountAt(table, listed).high
  {
    var some := WithHigh(types, table);
    var ranked := SortDescending(some, Highs(table));
    WithHighMembers(types, table);
    SortOrders(some, Highs(table));
    var top := TopRisky(types, table);
    var i :| 0 <= i < |top| && top[i] == listed;
    assert ranked[i] == listed;
    if CountAt(table, other).high > 0 {
      assert other in ranked;
      var j :| 0 <= j < |ranked| && ranked[j] == other;
      NotInPrefix(ranked, top, j);
      assert Sorting.At(Highs(table), ranked[i]) >= Sorting.At(Highs(table), ranked[j]);
    }
  }

  /** The list is short of five only when it has every type with a high finding, and it is in falling order. */
  lemma TopRiskyIsFull(types: seq<string>, table: Table, other: string)
    requires other in types && CountAt(table, other).high > 0
    ensures other in TopRisky(types, table) || |TopRisky(types, table)| == 5
    ensures forall i, j | 0 <= i < j < |TopRisky(types, table)| ::
              CountAt(table, TopRisky(types, table)[i]).high >= CountAt(table, TopRisky(types, table)[j]).high
  {
    var some := WithHigh(types, table);
    var ranked := SortDescending(some, Highs(table));
    WithHighMembers(types, table);
    SortOrders(some, Highs(table));
    assert other in ranked;
    forall i | 0 <= i < |ranked| ensures Sorting.At(Highs(table), ranked[i]) == CountAt(table, ranked[i]).high {
    }
  }

  /** The totals, severity by severity, summed from the first summary on. */
  function SumOfLevel(summaries: seq<Summary>, severity: RiskLevel): int {
    if summaries == [] then 0
    else
      var s := summaries[0];
      (match severity case Low => s.low case Medium => s.medium case High => s.high)
      + SumOfLevel(summaries[1..], severity)
  }

  lemma {:induction false} SumOfLevelSnoc(summaries: seq<Summary>, s: Summary, severity: RiskLevel)
    ensures SumOfLevel(summaries + [s], severity) == SumOfLevel(summaries, severity) + SumOfLevel([s], severity)
  {
    if summaries == [] {
      assert [] + [s] == [s] && [s][1..] == [];
    } else {
      assert (summaries + [s])[1..] == summaries[1..] + [s];
      SumOfLevelSnoc(summaries[1..], s, severity);
    }
  }

  lemma {:induction false} TotalsAreSums(summaries: seq<Summary>)
    ensures var c := Totals(summaries);
            && c.low == SumOfLevel(summaries, Low) && c.medium == SumOfLevel(summaries, Medium)
            && c.high == SumOfLevel(summaries, High)
  {
    if summaries != [] {
      var less, last := summaries[..|summaries| - 1], summaries[|summaries| - 1];
      TotalsAreSums(less);
      assert summaries == less + [last] && [last][1..] == [];
      SumOfLevelSnoc(less, last, Low);
      SumOfLevelSnoc(less, last, Medium);
      SumOfLevelSnoc(less, last, High);
    }
  }

  lemma RoundedMonotone(x: real, y: real)
    requires x <= y
    ensures Rounded(x) <= Rounded(y)
  {
  }

  ghost predicate NonNegative(c: Counts) {
    c.low >= 0 && c.medium >= 0 && c.high >= 0
  }

  lemma WeightedBelow(weight: real, n: real)
    requires 0.0 <= weight <= 1.0 && n >= 0.0
    ensures 0.0 <= Times(weight, n) <= n
  {
    ScaleRight(0.0, weight, n);
    ScaleRight(weight, 1.0, n);
    assert Times(0.0, n) == 0.0 && Times(1.0, n) == n;
  }

  lemma SumAsReal(a: int, b: int, c: int)
    ensures (a + b + c) as real == a as real + b as real + c as real
  {
  }

  lemma ShareInUnit(high: real, medium: real, weight: real, graded: real)
    requires high >= 0.0 && medium >= 0.0 && 0.0 <= weight <= 1.0 && graded > 0.0 && high + medium <= graded
    ensures 0.0 <= WeightedShare(high, medium, weight, graded) <= 1.0
  {
    WeightedBelow(weight, medium);
    RatioInUnit(high + Times(weight, medium), graded);
  }

  lemma PenaltyInUnit(c: Counts, weight: real)
    requires NonNegative(c) && 0.0 <= weight <= 1.0
    ensures 0.0 <= Penalty(c, weight) <= 1.0
  {
    SumAsReal(c.high, c.medium, c.low);
    ShareInUnit(c.high as real, c.medium as real, weight, AtLeastOne(c.high + c.medium + c.low) as real);
  }

  /** The health of a portfolio: full without a finding or with low ones only, none when every finding is
      high, and in between the share that is left when each medium finding counts with the weight. */
  lemma HealthIsShareLeft(c: Counts, weight: real)
    requires NonNegative(c) && 0.0 <= weight <= 1.0
    ensures c.high == 0 && c.medium == 0 ==> HealthPct(c, weight) == 100
    ensures c.high > 0 && c.medium == 0 && c.low == 0 ==> HealthPct(c, weight) == 0
    ensures Times(Penalty(c, weight), AtLeastOne(c.high + c.medium + c.low) as real)
         == c.high as real + Times(weight, c.medium as real)
  {
    var n := AtLeastOne(c.high + c.medium + c.low) as real;
    ShareTimes(c.high as real + Times(weight, c.medium as real), n);
    if c.high == 0 && c.medium == 0 {
      assert Times(weight, 0.0) == 0.0 && Penalty(c, weight) == 0.0 / n == 0.0;
      assert Rounded(100.0) == 100;
    }
    if c.high > 0 && c.medium == 0 && c.low == 0 {
      assert Times(weight, 0.0) == 0.0 && n == c.high as real && Penalty(c, weight) == n / n == 1.0;
      assert Rounded(0.0) == 0;
    }
  }

  lemma ShareTimes(share: real, n: real)
    requires n > 0.0
    ensures Times(share / n, n) == share
  {
  }

  /** Rounding goes to the nearest number, and from half-way to the even one. */
  lemma RoundedIsNearest(x: real)
    ensures -0.5 <= Rounded(x) as real - x <= 0.5
    ensures (Rounded(x) as real - x == 0.5 || Rounded(x) as real - x == -0.5) ==> Rounded(x) % 2 == 0
  {
  }

  /** The bands: each begins where its limit says. */
  lemma BandOf(pct: int, cfg: Config)
    requires cfg.elevated <= cfg.healthy
    ensures HealthBand(pct, cfg) == "healthy" <==> pct >= cfg.healthy
    ensures HealthBand(pct, cfg) == "elevated" <==> cfg.elevated <= pct < cfg.healthy
    ensures HealthBand(pct, cfg) == "at_risk" <==> pct < cfg.elevated
  {
    Bands();
  }

  lemma Bands()
    ensures "healthy"[0] != "elevated"[0] && "elevated"[0] != "at_risk"[0] && "healthy"[0] != "at_risk"[0]
  {
  }

  /** With a weight between 0 and 1 the health is a percentage before it is clamped. */
  lemma HealthNeedsNoClamp(c: Counts, weight: real)
    requires NonNegative(c) && 0.0 <= weight <= 1.0
    ensures HealthPct(c, weight) == Rounded(100.0 * (1.0 - Penalty(c, weight)))
  {
    PenaltyInUnit(c, weight);
    RoundedMonotone(0.0, 100.0 * (1.0 - Penalty(c, weight)));
    RoundedMonotone(100.0 * (1.0 - Penalty(c, weight)), 100.0);
  }

  lemma QuotientMonotone(a: real, b: real, d: real)
    requires a <= b && d > 0.0
    ensures a / d <= b / d
  {
    assert a / d * d == a && b / d * d == b;
    Cancel(a / d, b / d, d);
  }

  lemma OneMore(weight: real, n: real)
    ensures Times(weight, n + 1.0) == Times(weight, n) + weight
  {
  }

  /** One finding regraded from low to medium, or from medium to high. */
  predicate Worse(c: Counts, worse: Counts) {
    worse == c.(low := c.low - 1, medium := c.medium + 1) || worse == c.(medium := c.medium - 1, high := c.high + 1)
  }

  lemma ShareMonotone(high: real, medium: real, high': real, medium': real, weight: real, graded: real)
    requires graded > 0.0 && 0.0 <= weight <= 1.0
    requires (high' == high && medium' == medium + 1.0) || (high' == high + 1.0 && medium == medium' + 1.0)
    ensures WeightedShare(high, medium, weight, graded) <= WeightedShare(high', medium', weight, graded)
  {
    OneMore(weight, medium);
    OneMore(weight, medium');
    QuotientMonotone(high + Times(weight, medium), high' + Times(weight, medium'), graded);
  }

  lemma PenaltyGrows(c: Counts, weight: real, worse: Counts)
    requires NonNegative(c) && 0.0 <= weight <= 1.0 && Worse(c, worse)
    ensures Penalty(c, weight) <= Penalty(worse, weight)
  {
    assert worse.high + worse.medium + worse.low == c.high + c.medium + c.low;
    ShareMonotone(c.high as real, c.medium as real, worse.high as real, worse.medium as real, weight,
                  AtLeastOne(c.high + c.medium + c.low) as real);
  }

  /** Regrading a finding upwards never raises the health. */
  lemma WorseIsNotHealthier(c: Counts, weight: real, worse: Counts)
    requires NonNegative(c) && 0.0 <= weight <= 1.0 && Worse(c, worse)
    ensures HealthPct(worse, weight) <= HealthPct(c, weight)
  {
    PenaltyGrows(c, weight, worse);
    var p, q := Penalty(c, weight), Penalty(worse, weight);
    RoundedMonotone(100.0 * (1.0 - q), 100.0 * (1.0 - p));
  }
}
