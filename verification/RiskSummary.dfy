/** The compact risk summary of a finished report, its columns on the job row, and what the dashboard
    makes of both. */
module RiskSummary {
  import opened ContractState
  import opened Options

  datatype Finding = Finding(clauseType: Option<string>, riskLevel: Option<string>)

  /** A parsed report; a missing number or flag is None. */
  datatype Report = Report(high: Option<int>, medium: Option<int>, low: Option<int>, validated: Option<int>,
                           total: Option<int>, degraded: Option<bool>, findings: seq<Finding>)

  datatype Counts = Counts(low: int, medium: int, high: int)

  type Table = map<string, Counts>

  datatype Summary = Summary(high: int, medium: int, low: int, validated: int, total: int, degraded: bool,
                             byType: Table)

  const ZERO := Counts(0, 0, 0)

  // ----- summarizing a report -----------------------------------------------------------------------

  /** A null or unknown risk level has no severity. */
  function SeverityOf(f: Finding): Option<RiskLevel> {
    if f.riskLevel == Some("low") then Some(Low)
    else if f.riskLevel == Some("medium") then Some(Medium)
    else if f.riskLevel == Some("high") then Some(High)
    else None
  }

  predicate Graded(f: Finding) {
    SeverityOf(f).Some?
  }

  function TypeOf(f: Finding): string {
    if f.clauseType.None? || f.clauseType.value == "" then "Uncategorized" else f.clauseType.value
  }

  function CountAt(table: Table, t: string): Counts {
    if t in table then table[t] else ZERO
  }

  function Bumped(c: Counts, severity: RiskLevel): Counts {
    match severity
    case Low => c.(low := c.low + 1)
    case Medium => c.(medium := c.medium + 1)
    case High => c.(high := c.high + 1)
  }

  function ByType(findings: seq<Finding>): Table {
    if findings == [] then map[]
    else
      var table, f := ByType(findings[..|findings| - 1]), findings[|findings| - 1];
      if Graded(f) then table[TypeOf(f) := Bumped(CountAt(table, TypeOf(f)), SeverityOf(f).value)] else table
  }

  function OrZero(x: Option<int>): int {
    if x.Some? then x.value else 0
  }

  function Summarized(r: Report): Summary {
    Summary(OrZero(r.high), OrZero(r.medium), OrZero(r.low), OrZero(r.validated), OrZero(r.total),
            r.degraded.Some? && r.degraded.value, ByType(r.findings))
  }

  method SummarizeReport(r: Report) returns (s: Summary)
    ensures s == Summarized(r)
    ensures (r.high.Some? ==> s.high == r.high.value) && (r.medium.Some? ==> s.medium == r.medium.value)
    ensures (r.low.Some? ==> s.low == r.low.value) && (r.validated.Some? ==> s.validated == r.validated.value)
    ensures (r.total.Some? ==> s.total == r.total.value) && (s.degraded <==> r.degraded == Some(true))
    ensures (r.high.None? ==> s.high == 0) && (r.medium.None? ==> s.medium == 0) && (r.low.None? ==> s.low == 0)
  {
    var byType: Table := map[];
    for i := 0 to |r.findings|
      invariant byType == ByType(r.findings[..i])
    {
      assert r.findings[..i + 1][..i] == r.findings[..i];
      var f := r.findings[i];
      if !Graded(f) {
        continue;
      }
      var t := TypeOf(f);
      if t !in byType {
        byType := byType[t := ZERO];
      }
      byType := byType[t := Bumped(byType[t], SeverityOf(f).value)];
    }
    assert r.findings[..|r.findings|] == r.findings;
    s := Summary(OrZero(r.high), OrZero(r.medium), OrZero(r.low), OrZero(r.validated), OrZero(r.total),
                 r.degraded.Some? && r.degraded.value, byType);
  }

  /** How many findings have this type and this severity. */
  function Count(findings: seq<Finding>, t: string, severity: RiskLevel): nat {
    if findings == [] then 0
    else
      var f := findings[|findings| - 1];
      Count(findings[..|findings| - 1], t, severity)
        + if SeverityOf(f) == Some(severity) && TypeOf(f) == t then 1 else 0
  }

  function Tally(findings: seq<Finding>, t: string): Counts {
    Counts(Count(findings, t, Low), Count(findings, t, Medium), Count(findings, t, High))
  }

  /** The table is a direct count: each entry is the tally of its type, and a type without an entry has
      no graded finding. */
  lemma {:induction false} ByTypeIsTally(findings: seq<Finding>, t: string)
    ensures CountAt(ByType(findings), t) == Tally(findings, t)
    ensures t in ByType(findings) <==> Tally(findings, t) != ZERO
  {
    if findings != [] {
      ByTypeIsTally(findings[..|findings| - 1], t);
    }
  }

  /** The finding is counted under this type: its own, or "Uncategorized" when it has none. */
  predicate Typed(f: Finding, t: string) {
    if t == "Uncategorized" then f.clauseType == None || f.clauseType == Some("") || f.clauseType == Some(t)
    else t != "" && f.clauseType == Some(t)
  }

  lemma TypedIff(f: Finding, t: string)
    ensures TypeOf(f) == t <==> Typed(f, t)
  {
  }

  /** The findings of this type and level, by their places. */
  ghost function Places(findings: seq<Finding>, t: string, level: string): set<int> {
    set i | 0 <= i < |findings| && findings[i].riskLevel == Some(level) && Typed(findings[i], t)
  }

  function LevelName(severity: RiskLevel): string {
    match severity
    case Low => "low"
    case Medium => "medium"
    case High => "high"
  }

  lemma SeverityIff(f: Finding, severity: RiskLevel)
    ensures SeverityOf(f) == Some(severity) <==> f.riskLevel == Some(LevelName(severity))
  {
  }

  lemma PlacesStep(findings: seq<Finding>, t: string, level: string)
    requires findings != []
    ensures var n, f := |findings| - 1, findings[|findings| - 1];
            |Places(findings, t, level)| == |Places(findings[..n], t, level)|
                                            + if f.riskLevel == Some(level) && Typed(f, t) then 1 else 0
  {
    var n := |findings| - 1;
    var less, more := Places(findings[..n], t, level), Places(findings, t, level);
    if n in more {
      assert more == less + {n};
    } else {
      assert more == less;
    }
  }

  lemma {:induction false} CountIsPlaces(findings: seq<Finding>, t: string, severity: RiskLevel)
    ensures Count(findings, t, severity) == |Places(findings, t, LevelName(severity))|
  {
    if findings == [] {
      assert Places(findings, t, LevelName(severity)) == {};
    } else {
      var n := |findings| - 1;
      CountIsPlaces(findings[..n], t, severity);
      PlacesStep(findings, t, LevelName(severity));
      SeverityIff(findings[n], severity);
      TypedIff(findings[n], t);
    }
  }

  /** Each entry of the table counts the findings of its type that are low, medium and high. */
  lemma TableCountsPlaces(findings: seq<Finding>, t: string)
    ensures var c := CountAt(ByType(findings), t);
            && c.low == |Places(findings, t, "low")| && c.medium == |Places(findings, t, "medium")|
            && c.high == |Places(findings, t, "high")|
  {
    ByTypeIsTally(findings, t);
    CountIsPlaces(findings, t, Low);
    CountIsPlaces(findings, t, Medium);
    CountIsPlaces(findings, t, High);
  }

  // ----- the columns --------------------------------------------------------------------------------

  /** `risk_by_type` as a JobRow may carry it: absent, a dict, or text that does or does not parse, to a
      dict or to something else. */
  datatype ByTypeField = Absent | Dict(table: Table) | Text(parsed: Option<Option<Table>>)

  datatype RiskFields = RiskFields(high: Option<int>, medium: Option<int>, low: Option<int>,
                                   validated: Option<int>, total: Option<int>, degraded: Option<bool>,
                                   byType: ByTypeField)

  /** The `risk_by_type` column: NULL, the JSON of a dict, or anything else. */
  datatype Cell = NullCell | JsonCell(table: Table) | BrokenCell

  datatype Columns = Columns(high: Option<int>, medium: Option<int>, low: Option<int>, validated: Option<int>,
                             total: Option<int>, degraded: Option<int>, byType: Cell)

  const UNSUMMARIZED := RiskFields(None, None, None, None, None, None, Absent)

  function ToRowFields(s: Summary): RiskFields {
    RiskFields(Some(s.high), Some(s.medium), Some(s.low), Some(s.validated), Some(s.total), Some(s.degraded),
               Dict(s.byType))
  }

  function FromRow(row: RiskFields): Option<Summary> {
    if row.high.None? then None
    else if row.byType.Text? && row.byType.parsed.None? then None
    else
      var table := match row.byType
        case Dict(t) => t
        case Text(parsed) => if parsed.value.Some? then parsed.value.value else map[]
        case Absent => map[];
      Some(Summary(OrZero(row.high), OrZero(row.medium), OrZero(row.low), OrZero(row.validated),
                   OrZero(row.total), row.degraded.Some? && row.degraded.value, table))
  }

  /** Rows that the store writes carry a dict or nothing. */
  function Encode(row: RiskFields): Columns
    requires !row.byType.Text?
  {
    Columns(row.high, row.medium, row.low, row.validated, row.total,
            if row.degraded.None? then None else Some(if row.degraded.value then 1 else 0),
            if row.byType.Absent? then NullCell else JsonCell(row.byType.table))
  }

  function Decode(c: Columns): RiskFields {
    RiskFields(c.high, c.medium, c.low, c.validated, c.total,
               if c.degraded.None? then None else Some(c.degraded.value != 0),
               if c.byType.JsonCell? then Dict(c.byType.table) else Absent)
  }

  /** Every figure of a stored summary is in the column of its name. */
  lemma ColumnsAreNamed(s: Summary)
    ensures var c := Encode(ToRowFields(s));
            && c.high == Some(s.high) && c.medium == Some(s.medium) && c.low == Some(s.low)
            && c.validated == Some(s.validated) && c.total == Some(s.total)
            && c.degraded == Some(if s.degraded then 1 else 0) && c.byType == JsonCell(s.byType)
  {
  }

  /** A stamped summary survives the row and the store. */
  lemma SummaryRoundTrip(s: Summary)
    ensures FromRow(Decode(Encode(ToRowFields(s)))) == Some(s)
  {
    assert Decode(Encode(ToRowFields(s))) == ToRowFields(s);
  }

  // ----- stored or live -----------------------------------------------------------------------------

  /** The legacy read of a report, by report path; None when it is unset, missing or malformed. */
  type Reader = Option<string> -> Option<Summary>

  datatype Row = Row(completed: bool, reportPath: Option<string>, risk: RiskFields)

  function RowSummary(row: Row, read: Reader): Option<Summary> {
    var stored := FromRow(row.risk);
    if stored.Some? then stored else read(row.reportPath)
  }

  /** What `mark_terminal` leaves on a completed row, read back from the store, as long as the report does
      not change: the columns of the summary, or nothing when the report could not be read. */
  ghost predicate Stamped(row: Row, read: Reader) {
    var live := read(row.reportPath);
    row.risk == if live.Some? then Decode(Encode(ToRowFields(live.value))) else Decode(Encode(UNSUMMARIZED))
  }

  /** A row read from the store falls back to the live report exactly when its `risk_high` is NULL, not
      when its `risk_by_type` cannot be parsed: then the table reads as empty. */
  lemma UnparseableTableReadsEmpty(c: Columns, path: Option<string>, read: Reader)
    ensures c.high.None? ==> RowSummary(Row(true, path, Decode(c)), read) == read(path)
    ensures c.high.Some? && c.byType.BrokenCell? ==>
              RowSummary(Row(true, path, Decode(c)), read).Some?
              && RowSummary(Row(true, path, Decode(c)), read).value.byType == map[]
  {
  }

  ghost predicate AllUngraded(findings: seq<Finding>) {
    forall f | f in findings :: !Graded(f)
  }

  /** A stamped row whose `risk_by_type` column was damaged agrees with the live report if and only if
      that report has no graded finding. */
  lemma DamagedRowAgreesIff(report: Report, path: Option<string>, read: Reader)
    requires read(path) == Some(Summarized(report))
    ensures var damaged := Encode(ToRowFields(Summarized(report))).(byType := BrokenCell);
            RowSummary(Row(true, path, Decode(damaged)), read) == read(path) <==> AllUngraded(report.findings)
  {
    UngradedIffEmpty(report.findings);
  }

  lemma {:induction false} UngradedIffEmpty(findings: seq<Finding>)
    ensures ByType(findings) == map[] <==> AllUngraded(findings)
  {
    if findings != [] {
      var less, f := findings[..|findings| - 1], findings[|findings| - 1];
      UngradedIffEmpty(less);
      assert findings == less + [f];
      assert Graded(f) ==> TypeOf(f) in ByType(findings);
    }
  }
}
