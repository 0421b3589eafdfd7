/** Nodes 4 to 6 end to end: each node's partial update goes through the clause reducer before the
    next node, or the route, reads the state. */
module FindingsFlow {
  import opened ContractState
  import opened Options
  import SelfRag
  import RiskScore
  import Redline

  datatype Oracles = Oracles(judge: SelfRag.Oracle, score: RiskScore.Oracle, draft: Redline.Oracle)
  datatype Configs = Configs(judge: SelfRag.Config, score: RiskScore.Config, draft: Redline.Config)

  const SELF_RAG_FIELDS: set<ClauseField> :=
    {RelevanceVerdict, IsrelVerdict, IssupVerdict, RetryCount, FinalStatus}
  const RISK_FIELDS: set<ClauseField> := {RiskLevelField, RiskRationale, IsFailsafe}
  const REDLINE_FIELDS: set<ClauseField> := {SuggestedRewrite}

  function AnswerValue(a: Option<bool>): FieldValue {
    match a
    case None => Null
    case Some(b) => Flag(b)
  }

  function VerdictRecord(v: SelfRag.Verdict): Record {
    map[RelevanceVerdict := AnswerValue(v.relevance),
        IsrelVerdict := AnswerValue(v.isrel),
        IssupVerdict := AnswerValue(v.issup),
        RetryCount := if v.retryCount.Some? then Number(v.retryCount.value) else Null,
        FinalStatus := Status(v.finalStatus)]
  }

  function VerdictUpdates(verdicts: map<string, SelfRag.Verdict>): Clauses {
    map id | id in verdicts :: VerdictRecord(verdicts[id])
  }

  ghost predicate Visits(order: seq<string>, clauses: Clauses) {
    forall id :: id in order <==> id in clauses
  }

  // ----- the three states, each a node's update merged into the one before ------------------------

  ghost function Judged(o: Oracles, order: seq<string>, clauses: Clauses, cfg: Configs): (judged: Clauses)
    requires Visits(order, clauses)
    ensures judged.Keys == clauses.Keys
  {
    VerdictsCover(o.judge, order, clauses, cfg.judge);
    Merge(clauses, VerdictUpdates(SelfRag.Run(o.judge, order, clauses, cfg.judge).updates))
  }

  ghost function Scored(o: Oracles, order: seq<string>, judged: Clauses, cfg: Configs): (scored: Clauses)
    requires Visits(order, judged)
    ensures scored.Keys == judged.Keys
  {
    RiskScore.RunUpdates(o.score, order, judged, cfg.score);
    Merge(judged, RiskScore.Run(o.score, order, judged, cfg.score).updates)
  }

  ghost function Drafted(o: Oracles, order: seq<string>, scored: Clauses, cfg: Configs): (drafted: Clauses)
    requires Visits(order, scored)
    ensures drafted.Keys == scored.Keys
  {
    Redline.RunUpdates(o.draft, order, scored, cfg.draft);
    if Redline.RouteOnRisk(false, scored, cfg.draft).TakeRedline?
    then Merge(scored, Redline.Run(o.draft, order, scored, cfg.draft).updates)
    else scored
  }

  ghost function Analysed(o: Oracles, order: seq<string>, clauses: Clauses, cfg: Configs): (end: Clauses)
    requires Visits(order, clauses)
    ensures end.Keys == clauses.Keys
  {
    Drafted(o, order, Scored(o, order, Judged(o, order, clauses, cfg), cfg), cfg)
  }

  lemma {:induction false} VerdictsCover(o: SelfRag.Oracle, order: seq<string>, clauses: Clauses, cfg: SelfRag.Config)
    requires forall id | id in order :: id in clauses
    ensures forall id :: id in SelfRag.Run(o, order, clauses, cfg).updates <==> id in order
    decreases |order|
  {
    if order != [] {
      var n := |order| - 1;
      VerdictsCover(o, order[..n], clauses, cfg);
      assert order == order[..n] + [order[n]];
    }
  }

  /** The additive `error_count`: one for every breaker that opened. */
  ghost function Errors(o: Oracles, order: seq<string>, clauses: Clauses, cfg: Configs): nat
    requires Visits(order, clauses)
  {
    var judged := Judged(o, order, clauses, cfg);
    var scored := Scored(o, order, judged, cfg);
    (if SelfRag.Run(o.judge, order, clauses, cfg.judge).cb.tripped then 1 else 0)
    + (if RiskScore.Run(o.score, order, judged, cfg.score).cb.tripped then 1 else 0)
    + (if Redline.Run(o.draft, order, scored, cfg.draft).cb.tripped then 1 else 0)
  }

  /** Nodes 4 to 6 as the graph runs them, with the nodes' and the reducer's code. */
  method RunNodes(o: Oracles, order: seq<string>, clauses: Clauses, cfg: Configs)
    returns (end: Clauses, branch: Redline.Branch, errors: nat)
    requires Enumerates(order, clauses) && Visits(order, clauses)
    ensures end == Analysed(o, order, clauses, cfg)
    ensures branch == Redline.RouteOnRisk(false, Scored(o, order, Judged(o, order, clauses, cfg), cfg), cfg.draft)
    ensures errors == Errors(o, order, clauses, cfg)
  {
    var verdicts, e4 := SelfRag.SelfRagValidationAgent(o.judge, false, order, clauses, cfg.judge);
    var judged := MergeNestedClauseDicts(Some(clauses), Some(VerdictUpdates(verdicts)));
    assert judged == Judged(o, order, clauses, cfg);
    var severities, e5 := RiskScore.RiskScoreAgent(o.score, false, order, judged, cfg.score);
    var scored := MergeNestedClauseDicts(Some(judged), Some(severities));
    assert scored == Scored(o, order, judged, cfg);
    branch := Redline.RouteOnRisk(false, scored, cfg.draft);
    if branch == Redline.TakeRedline {
      var rewrites, e6, _ := Redline.RedlineAgent(o.draft, false, order, scored, cfg.draft);
      end := MergeNestedClauseDicts(Some(scored), Some(rewrites));
      errors := e4 + e5 + e6;
    } else {
      end, errors := scored, e4 + e5;
      SkippedNodeIsSilent(o, order, scored, cfg);
    }
  }

  /** On the skip branch node 6 would have made no call. */
  lemma SkippedNodeIsSilent(o: Oracles, order: seq<string>, scored: Clauses, cfg: Configs)
    requires Enumerates(order, scored)
    requires Redline.RouteOnRisk(false, scored, cfg.draft) == Redline.SkipRedline
    ensures !Redline.Run(o.draft, order, scored, cfg.draft).cb.tripped
  {
    Redline.RouteMatchesNode(o.draft, order, scored, cfg.draft);
    Redline.RunCounts(o.draft, order, scored, cfg.draft);
    Redline.BreakerOpensAtThreshold(o.draft, order, scored, cfg.draft);
    Redline.RunTrace(o.draft, order, scored, cfg.draft);
  }

  // ----- one clause through each state --------------------------------------------------------------

  /** Nodes 1 to 3 leave the later nodes' keys absent. */
  ghost predicate Untouched(record: Record) {
    record.Keys !! SELF_RAG_FIELDS + RISK_FIELDS + REDLINE_FIELDS
  }

  ghost predicate SameField(a: Record, b: Record, field: ClauseField) {
    (field in a <==> field in b) && (field in a ==> a[field] == b[field])
  }

  /** `b` differs from `a` only in `fields`. */
  ghost predicate OnlyChanges(a: Record, b: Record, fields: set<ClauseField>) {
    forall field | field !in fields :: SameField(a, b, field)
  }

  lemma PlusChanges(a: Record, update: Record, fields: set<ClauseField>)
    requires update.Keys <= fields
    ensures OnlyChanges(a, a + update, fields)
  {
  }

  lemma MergedRecord(a: Clauses, b: Clauses, id: string)
    requires id in a
    ensures id in Merge(a, b) && Merge(a, b)[id] == a[id] + FieldsOf(b, id)
  {
    FieldsOfMerge(a, b, id);
  }

  lemma VerdictRecordFields(v: SelfRag.Verdict)
    ensures VerdictRecord(v).Keys == SELF_RAG_FIELDS
    ensures VerdictRecord(v)[FinalStatus] == Status(v.finalStatus)
    ensures HoldsVerdict(VerdictRecord(v), v)
  {
  }

  /** An answer as it is stored: null for none. */
  predicate HoldsAnswer(value: FieldValue, a: SelfRag.Answer) {
    if a.None? then value == Null else value == Flag(a.value)
  }

  /** The clause carries the verdict in the five fields that are named after its parts. */
  predicate HoldsVerdict(record: Record, v: SelfRag.Verdict) {
    && SELF_RAG_FIELDS <= record.Keys
    && HoldsAnswer(record[RelevanceVerdict], v.relevance) && HoldsAnswer(record[IsrelVerdict], v.isrel)
    && HoldsAnswer(record[IssupVerdict], v.issup) && record[FinalStatus] == Status(v.finalStatus)
    && record[RetryCount] == (if v.retryCount.None? then Null else Number(v.retryCount.value))
  }

  /** Node 4 changes its five fields only, to the verdict, and a clause is validated as it decides. */
  lemma JudgedClause(o: Oracles, order: seq<string>, clauses: Clauses, cfg: Configs, id: string)
    requires Visits(order, clauses) && id in clauses
    ensures var verdicts := SelfRag.Run(o.judge, order, clauses, cfg.judge).updates;
            var judged := Judged(o, order, clauses, cfg)[id];
            && OnlyChanges(clauses[id], judged, SELF_RAG_FIELDS)
            && id in verdicts && HoldsVerdict(judged, verdicts[id])
            && (IsValidated(judged) <==> verdicts[id].finalStatus == Validated)
  {
    var verdicts := SelfRag.Run(o.judge, order, clauses, cfg.judge).updates;
    VerdictsCover(o.judge, order, clauses, cfg.judge);
    MergedRecord(clauses, VerdictUpdates(verdicts), id);
    VerdictRecordFields(verdicts[id]);
    PlusChanges(clauses[id], VerdictRecord(verdicts[id]), SELF_RAG_FIELDS);
  }

  /** Node 5 changes its own fields only, and gives a severity to validated clauses only. */
  lemma ScoredClause(o: Oracles, order: seq<string>, judged: Clauses, cfg: Configs, id: string)
    requires Visits(order, judged) && id in judged
    ensures var scored := Scored(o, order, judged, cfg)[id];
            && OnlyChanges(judged[id], scored, RISK_FIELDS)
            && (IsValidated(judged[id]) ==> Get(scored, RiskLevelField).Level?)
            && (!IsValidated(judged[id]) ==> scored == judged[id])
  {
    var updates := RiskScore.Run(o.score, order, judged, cfg.score).updates;
    RiskScore.RunUpdates(o.score, order, judged, cfg.score);
    MergedRecord(judged, updates, id);
    if IsValidated(judged[id]) {
      assert RiskScore.Severity(updates[id], cfg.score);
      PlusChanges(judged[id], updates[id], RISK_FIELDS);
    } else {
      PlusEmpty(judged[id]);
    }
  }

  /** Node 6 changes `suggested_rewrite` only, of eligible clauses only. */
  lemma DraftedClause(o: Oracles, order: seq<string>, scored: Clauses, cfg: Configs, id: string)
    requires Visits(order, scored) && id in scored
    ensures var drafted := Drafted(o, order, scored, cfg)[id];
            && OnlyChanges(scored[id], drafted, REDLINE_FIELDS)
            && (Redline.IsRedlineEligible(scored[id], cfg.draft) ==> SuggestedRewrite in drafted)
            && (!Redline.IsRedlineEligible(scored[id], cfg.draft) ==> drafted == scored[id])
  {
    var updates := Redline.Run(o.draft, order, scored, cfg.draft).updates;
    Redline.RunUpdates(o.draft, order, scored, cfg.draft);
    MergedRecord(scored, updates, id);
    PlusChanges(scored[id], FieldsOf(updates, id), REDLINE_FIELDS);
    PlusEmpty(scored[id]);
  }

  // ----- the end of the analysis ------------------------------------------------------------------

  /** What holds of one clause's records before node 4 and after nodes 4, 5 and 6. */
  lemma ClauseInvariant(before: Record, judged: Record, scored: Record, drafted: Record,
                        validated: bool, cfg: Redline.Config)
    requires OnlyChanges(before, judged, SELF_RAG_FIELDS) && (IsValidated(judged) <==> validated)
    requires OnlyChanges(judged, scored, RISK_FIELDS)
    requires if validated then Get(scored, RiskLevelField).Level? else scored == judged
    requires OnlyChanges(scored, drafted, REDLINE_FIELDS)
    requires if Redline.IsRedlineEligible(scored, cfg) then SuggestedRewrite in drafted else drafted == scored
    ensures IsValidated(drafted) <==> validated
    ensures RiskLevelField in drafted <==> validated || RiskLevelField in before
    ensures validated ==> drafted[RiskLevelField].Level?
    ensures SuggestedRewrite in drafted
       <==> (validated && drafted[RiskLevelField].level in cfg.riskThreshold) || SuggestedRewrite in before
    ensures OnlyChanges(before, drafted, SELF_RAG_FIELDS + RISK_FIELDS + REDLINE_FIELDS)
    ensures Redline.IsRedlineEligible(scored, cfg) <==> Redline.IsRedlineEligible(drafted, cfg)
  {
    assert SameField(before, judged, RiskLevelField) && SameField(before, judged, SuggestedRewrite);
    assert SameField(judged, scored, FinalStatus) && SameField(judged, scored, SuggestedRewrite);
    assert SameField(scored, drafted, FinalStatus) && SameField(scored, drafted, RiskLevelField);
    forall field | field !in SELF_RAG_FIELDS + RISK_FIELDS + REDLINE_FIELDS
      ensures SameField(before, drafted, field)
    {
      assert SameField(before, judged, field) && SameField(judged, scored, field);
      assert SameField(scored, drafted, field);
    }
  }

  /** The clause has a severity exactly when it is a finding, and a `suggested_rewrite` key exactly when
      that severity is in the threshold. */
  predicate Coherent(end: Record, cfg: Redline.Config)
    requires IsValidated(end) ==> RiskLevelField in end && end[RiskLevelField].Level?
  {
    && (RiskLevelField in end <==> IsValidated(end))
    && (SuggestedRewrite in end <==> IsValidated(end) && end[RiskLevelField].level in cfg.riskThreshold)
  }

  /** At the end of the analysis, for every clause and whatever fields it came with: it is a finding exactly
      when Self-RAG validated it, and then it has a severity; the fields of nodes 1 to 3 are as they were;
      and the end is coherent if and only if a clause that came with a severity is a finding, and one that
      came with a rewrite is eligible for one.  Clauses fresh from node 3 came with neither. */
  lemma FindingsInvariant(o: Oracles, order: seq<string>, clauses: Clauses, cfg: Configs, id: string)
    requires Visits(order, clauses) && id in clauses
    ensures var verdicts := SelfRag.Run(o.judge, order, clauses, cfg.judge).updates;
            var before, end := clauses[id], Analysed(o, order, clauses, cfg)[id];
            && id in verdicts
            && (IsValidated(end) <==> verdicts[id].finalStatus == Validated)
            && (IsValidated(end) ==> RiskLevelField in end && end[RiskLevelField].Level?)
            && OnlyChanges(before, end, SELF_RAG_FIELDS + RISK_FIELDS + REDLINE_FIELDS)
            && (Coherent(end, cfg.draft) <==>
                  && (RiskLevelField in before ==> IsValidated(end))
                  && (SuggestedRewrite in before ==>
                        IsValidated(end) && end[RiskLevelField].level in cfg.draft.riskThreshold))
            && (Untouched(before) ==> Coherent(end, cfg.draft))
  {
    var judged := Judged(o, order, clauses, cfg);
    var scored := Scored(o, order, judged, cfg);
    JudgedClause(o, order, clauses, cfg, id);
    ScoredClause(o, order, judged, cfg, id);
    DraftedClause(o, order, scored, cfg, id);
    ClauseInvariant(clauses[id], judged[id], scored[id], Drafted(o, order, scored, cfg)[id],
                    IsValidated(judged[id]), cfg.draft);
  }

  /** Under the configured threshold every finding is drafted for, no other clause gets a rewrite, and the
      graph takes `skip_redline` exactly when there is no finding at all. */
  lemma EveryFindingIsDrafted(o: Oracles, order: seq<string>, clauses: Clauses, cfg: Configs)
    requires Visits(order, clauses)
    requires cfg.draft.riskThreshold == Redline.ALL_LEVELS
    ensures var end := Analysed(o, order, clauses, cfg);
            var scored := Scored(o, order, Judged(o, order, clauses, cfg), cfg);
            && (forall id | id in clauses ::
                  SuggestedRewrite in end[id] <==> IsValidated(end[id]) || SuggestedRewrite in clauses[id])
            && (Redline.RouteOnRisk(false, scored, cfg.draft) == Redline.SkipRedline
                <==> forall id | id in clauses :: !IsValidated(end[id]))
  {
    var judged := Judged(o, order, clauses, cfg);
    var scored := Scored(o, order, judged, cfg);
    var end := Drafted(o, order, scored, cfg);
    forall id | id in clauses
      ensures SuggestedRewrite in end[id] <==> IsValidated(end[id]) || SuggestedRewrite in clauses[id]
      ensures Redline.IsRedlineEligible(scored[id], cfg.draft) <==> IsValidated(end[id])
    {
      JudgedClause(o, order, clauses, cfg, id);
      ScoredClause(o, order, judged, cfg, id);
      DraftedClause(o, order, scored, cfg, id);
      ClauseInvariant(clauses[id], judged[id], scored[id], end[id], IsValidated(judged[id]), cfg.draft);
      AnyLevel(end[id]);
    }
  }

  lemma AnyLevel(record: Record)
    ensures Get(record, RiskLevelField).Level? ==> record[RiskLevelField].level in Redline.ALL_LEVELS
  {
    if Get(record, RiskLevelField).Level? {
      var level := record[RiskLevelField].level;
      assert level == Low || level == Medium || level == High;
    }
  }
}
