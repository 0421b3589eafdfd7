/** What Self-RAG's runs guarantee: the breaker is determined by the call trace, failures only ever
    validate, and the merged judgment refines the sequential one. */
module SelfRagProperties {
  import opened ContractState
  import opened Options
  import opened CircuitBreaker
  import opened Ranges
  import opened SelfRag

  ghost predicate Known(order: seq<string>, clauses: Clauses) {
    forall id | id in order :: id in clauses
  }

  // ----- the call trace -----------------------------------------------------------------------

  /** How many ISSUP attempts the configuration allows. */
  function Attempts(cfg: Config): nat {
    if cfg.maxAttempts < 0 then 0 else cfg.maxAttempts
  }

  lemma {:induction false} IssupCalls(o: Oracle, id: string, attempt: int, cfg: Config, isrel: Answer)
    requires 1 <= attempt
    ensures var j := IssupJudgment(o, id, attempt, cfg, isrel);
            && FailsOnlyLast(j.calls)
            && |j.calls| <= if attempt > cfg.maxAttempts then 0 else cfg.maxAttempts + 1 - attempt
    decreases cfg.maxAttempts - attempt
  {
    if attempt <= cfg.maxAttempts && o.issup(id, attempt) == Some(false) {
      IssupCalls(o, id, attempt + 1, cfg, isrel);
    }
  }

  lemma ClauseCalls(o: Oracle, id: string, record: Record, open: bool, cfg: Config)
    ensures var j := ClauseJudgment(o, id, record, open, cfg);
            && FailsOnlyLast(j.calls)
            && |j.calls| <= 2 + Attempts(cfg)
            && (open ==> j.calls == [])
            && (j.calls != [] && !j.calls[|j.calls| - 1] ==> j.verdict.finalStatus == Validated)
  {
    IssupCalls(o, id, 1, cfg, Some(true));
    IssupFailureValidates(o, id, 1, cfg, Some(true));
  }

  lemma {:induction false} IssupFailureValidates(o: Oracle, id: string, attempt: int, cfg: Config, isrel: Answer)
    ensures var j := IssupJudgment(o, id, attempt, cfg, isrel);
            j.calls != [] && !j.calls[|j.calls| - 1] ==> j.verdict.finalStatus == Validated
    decreases cfg.maxAttempts - attempt
  {
    if attempt <= cfg.maxAttempts && o.issup(id, attempt) == Some(false) {
      IssupFailureValidates(o, id, attempt + 1, cfg, isrel);
    }
  }

  /** The run's breaker is a function of its call trace, no call follows the opening, and the run
      makes at most 2 + MAX_ATTEMPTS calls a clause. */
  lemma {:induction false} RunTrace(o: Oracle, order: seq<string>, clauses: Clauses, cfg: Config)
    requires Known(order, clauses)
    ensures var r := Run(o, order, clauses, cfg);
            && r.cb == After(r.calls, cfg.threshold)
            && Quiet(r.calls, cfg.threshold)
            && |r.calls| <= (2 + Attempts(cfg)) * |order|
    decreases |order|
  {
    if order != [] {
      var n := |order| - 1;
      RunTrace(o, order[..n], clauses, cfg);
      var before := Run(o, order[..n], clauses, cfg);
      var j := ClauseJudgment(o, order[n], clauses[order[n]], before.cb.open, cfg);
      ClauseCalls(o, order[n], clauses[order[n]], before.cb.open, cfg);
      QuietClause(before.calls, j.calls, cfg.threshold);
      assert (2 + Attempts(cfg)) * n + (2 + Attempts(cfg)) == (2 + Attempts(cfg)) * |order|;
    }
  }

  /** Node 4 emits its health signal exactly when its last calls are THRESHOLD consecutive
      failures, and no earlier call completed as many. */
  lemma BreakerOpensAtThreshold(o: Oracle, order: seq<string>, clauses: Clauses, cfg: Config)
    requires Known(order, clauses)
    ensures var r := Run(o, order, clauses, cfg);
            && r.cb.tripped == r.cb.open
            && (r.cb.open <==> r.calls != [] && FailureRun(r.calls, |r.calls| - 1, Needed(cfg.threshold)))
            && (forall i: nat | i + 1 < |r.calls| :: !FailureRun(r.calls, i, Needed(cfg.threshold)))
  {
    RunTrace(o, order, clauses, cfg);
    var calls := Run(o, order, clauses, cfg).calls;
    QuietTraceEndsAtOpening(calls, cfg.threshold);
    OpenIffFailureRun(calls, cfg.threshold);
  }

  // ----- what it takes to discard -----------------------------------------------------------------

  ghost predicate AllRefused(o: Oracle, id: string, first: int, cfg: Config) {
    forall i | first <= i <= cfg.maxAttempts :: o.issup(id, i) == Some(false)
  }

  /** Some judgment that counts for this clause is an answered no. */
  ghost predicate Refused(o: Oracle, id: string, record: Record, cfg: Config) {
    if !HasEvidence(record) then o.relevance(id) == Some(false)
    else if cfg.merge then
      o.combined(id).Some? &&
      var t := o.combined(id).value;
      t.relevance == Some(false)
      || (t.relevance == Some(true) && !OnFloor(record, cfg)
          && (t.isrel == Some(false) || (t.isrel == Some(true) && t.issup == Some(false))))
    else
      o.relevance(id) == Some(false)
      || (o.relevance(id) == Some(true) && !OnFloor(record, cfg)
          && (o.isrel(id) == Some(false) || (o.isrel(id) == Some(true) && AllRefused(o, id, 1, cfg))))
  }

  lemma {:induction false} IssupDiscardsIff(o: Oracle, id: string, attempt: int, cfg: Config, isrel: Answer)
    ensures IssupJudgment(o, id, attempt, cfg, isrel).verdict.finalStatus == Discarded
       <==> AllRefused(o, id, attempt, cfg)
    decreases cfg.maxAttempts - attempt
  {
    if attempt <= cfg.maxAttempts {
      IssupDiscardsIff(o, id, attempt + 1, cfg, isrel);
      assert AllRefused(o, id, attempt, cfg)
        <==> o.issup(id, attempt) == Some(false) && AllRefused(o, id, attempt + 1, cfg);
    }
  }

  /** A clause is discarded if and only if it is blank, or has neither evidence nor a floor type, or the
      breaker is closed and the model said no; a failed call never discards. */
  lemma DiscardedIffRefused(o: Oracle, id: string, record: Record, open: bool, cfg: Config)
    ensures ClauseJudgment(o, id, record, open, cfg).verdict.finalStatus == Discarded
       <==> !NeedsCalls(record, cfg) || (!open && Refused(o, id, record, cfg))
  {
    if HasEvidence(record) && cfg.merge {
      MergedDiscardsIff(o, id, record, cfg);
    } else if HasEvidence(record) {
      SequentialDiscardsIff(o, id, record, cfg);
    } else {
      assert RescueJudgment(o, id).verdict.finalStatus == Discarded <==> o.relevance(id) == Some(false);
    }
  }

  lemma MergedDiscardsIff(o: Oracle, id: string, record: Record, cfg: Config)
    requires HasEvidence(record) && cfg.merge
    ensures MergedJudgment(o, id, record, cfg).verdict.finalStatus == Discarded <==> Refused(o, id, record, cfg)
  {
    match o.combined(id)
    case None =>
    case Some(t) =>
      match t.relevance
      case None =>
      case Some(r) =>
        match t.isrel
        case None =>
        case Some(i) =>
          match t.issup
          case None =>
          case Some(s) =>
  }

  lemma SequentialDiscardsIff(o: Oracle, id: string, record: Record, cfg: Config)
    requires HasEvidence(record) && !cfg.merge
    ensures SequentialJudgment(o, id, record, cfg).verdict.finalStatus == Discarded <==> Refused(o, id, record, cfg)
  {
    IssupDiscardsIff(o, id, 1, cfg, Some(true));
    match o.relevance(id)
    case None =>
    case Some(r) =>
      match o.isrel(id)
      case None =>
      case Some(i) =>
  }

  /** A clause is discarded only for a reason, and for any reason while the breaker is closed. */
  ghost predicate DiscardedFor(v: Verdict, closed: bool, reason: bool) {
    (v.finalStatus == Discarded ==> reason) && (closed ==> (v.finalStatus == Discarded <==> reason))
  }

  ghost predicate Reason(o: Oracle, id: string, record: Record, cfg: Config) {
    !NeedsCalls(record, cfg) || Refused(o, id, record, cfg)
  }

  lemma ClauseDiscards(o: Oracle, id: string, record: Record, b: Breaker, cfg: Config)
    ensures var j := ClauseJudgment(o, id, record, b.open, cfg);
            && DiscardedFor(j.verdict, !b.open, Reason(o, id, record, cfg))
            && (b.open ==> Feed(b, j.calls, cfg.threshold).open)
  {
    DiscardedIffRefused(o, id, record, b.open, cfg);
    StaysOpen(b, ClauseJudgment(o, id, record, b.open, cfg).calls, cfg.threshold);
  }

  /** Over whole runs: no clause is discarded without a reason of its own, and while the breaker stays
      closed every clause with one is. */
  lemma {:induction false} RunDiscards(o: Oracle, order: seq<string>, clauses: Clauses, cfg: Config, id: string)
    requires Known(order, clauses) && id in order
    ensures var r := Run(o, order, clauses, cfg);
            id in r.updates && DiscardedFor(r.updates[id], !r.cb.open, Reason(o, id, clauses[id], cfg))
    decreases |order|
  {
    var n := |order| - 1;
    var before := Run(o, order[..n], clauses, cfg);
    ClauseDiscards(o, order[n], clauses[order[n]], before.cb, cfg);
    if id != order[n] {
      assert order == order[..n] + [order[n]];
      RunDiscards(o, order[..n], clauses, cfg, id);
    }
  }

  // ----- what a verdict records -----------------------------------------------------------------------

  ghost predicate SaidNo(o: Oracle, id: string, first: int, last: int) {
    forall i | first <= i <= last :: o.issup(id, i) == Some(false)
  }

  /** The loop ends at the first attempt that is not answered no: a yes validates with the number of retries
      made, a failed call validates without a word. */
  lemma {:induction false} IssupStopsAt(o: Oracle, id: string, first: int, k: int, cfg: Config, isrel: Answer)
    requires 1 <= first <= k <= cfg.maxAttempts && SaidNo(o, id, first, k - 1) && o.issup(id, k) != Some(false)
    ensures var j := IssupJudgment(o, id, first, cfg, isrel);
            && j.verdict.relevance == Some(true) && j.verdict.isrel == isrel && j.verdict.issup == o.issup(id, k)
            && j.verdict.retryCount == (if o.issup(id, k) == Some(true) then Some(k - 1) else None)
            && j.verdict.finalStatus == Validated
            && |j.calls| == k - first + 1 && j.calls[k - first] == o.issup(id, k).Some?
            && forall i | 0 <= i < k - first :: j.calls[i]
    decreases k - first
  {
    if first < k {
      assert o.issup(id, first) == Some(false);
      IssupStopsAt(o, id, first + 1, k, cfg, isrel);
    }
  }

  /** And it discards when every attempt is answered no, with all retries used. */
  lemma {:induction false} IssupRunsOut(o: Oracle, id: string, first: int, cfg: Config, isrel: Answer)
    requires 1 <= first <= cfg.maxAttempts + 1 && SaidNo(o, id, first, cfg.maxAttempts)
    ensures var j := IssupJudgment(o, id, first, cfg, isrel);
            && j.verdict == Verdict(Some(true), isrel, Some(false), Some(cfg.maxAttempts - 1), Discarded)
            && |j.calls| == cfg.maxAttempts + 1 - first && forall i | 0 <= i < |j.calls| :: j.calls[i]
    decreases cfg.maxAttempts - first
  {
    if first <= cfg.maxAttempts {
      assert o.issup(id, first) == Some(false);
      IssupRunsOut(o, id, first + 1, cfg, isrel);
    }
  }

  /** What the model says of relevance on the path that is taken. */
  function RelevanceSaid(o: Oracle, id: string, record: Record, cfg: Config): Answer {
    if HasEvidence(record) && cfg.merge then if o.combined(id).Some? then o.combined(id).value.relevance else None
    else o.relevance(id)
  }

  /** And of the evidence, which only counts for a relevant clause with evidence and no floor type. */
  function IsrelSaid(o: Oracle, id: string, record: Record, cfg: Config): Answer {
    if RelevanceSaid(o, id, record, cfg) != Some(true) || !HasEvidence(record) || OnFloor(record, cfg) then None
    else if cfg.merge then o.combined(id).value.isrel
    else o.isrel(id)
  }

  predicate No(a: Answer) {
    a == Some(false)
  }

  /** A clause that is judged records what the model said, question by question as far as they were asked;
      it is discarded exactly when one of the recorded answers is no, and a retry count comes with the
      answer on support. */
  lemma VerdictRecordsAnswers(o: Oracle, id: string, record: Record, cfg: Config)
    requires NeedsCalls(record, cfg)
    ensures var v := ClauseJudgment(o, id, record, false, cfg).verdict;
            && v.relevance == RelevanceSaid(o, id, record, cfg) && v.isrel == IsrelSaid(o, id, record, cfg)
            && (v.issup.Some? ==> v.isrel == Some(true)) && (v.issup.Some? <==> v.retryCount.Some?)
            && (v.finalStatus == Discarded <==> No(v.relevance) || No(v.isrel) || No(v.issup))
  {
    IssupRecords(o, id, 1, cfg, Some(true));
    if o.combined(id).Some? {
      TripleRecords(o.combined(id).value, OnFloor(record, cfg));
    }
  }

  /** A clause that is not judged records nothing and makes no call: discarded for want of anything to judge,
      or validated because the breaker is open. */
  lemma UnjudgedRecordsNothing(o: Oracle, id: string, record: Record, open: bool, cfg: Config)
    requires !NeedsCalls(record, cfg) || open
    ensures var j := ClauseJudgment(o, id, record, open, cfg);
            && j.verdict.relevance == None && j.verdict.isrel == None && j.verdict.issup == None
            && j.verdict.retryCount == None && j.calls == []
            && j.verdict.finalStatus == if NeedsCalls(record, cfg) then Validated else Discarded
  {
  }

  /** A clause of a floor type with text is a finding unless the model says that it is not relevant: neither the
      evidence nor its absence can discard it. */
  lemma FloorProtects(o: Oracle, id: string, record: Record, open: bool, cfg: Config)
    requires ClauseType in record && record[ClauseType].Str? && record[ClauseType].text in cfg.floor
    requires !IsBlank(record) && RelevanceSaid(o, id, record, cfg) != Some(false)
    ensures ClauseJudgment(o, id, record, open, cfg).verdict.finalStatus == Validated
  {
    if o.combined(id).Some? {
      TripleRecords(o.combined(id).value, true);
    }
  }

  /** Which clauses are judged: those with text and either at least one snippet of evidence or a floor type;
      the others are never findings. */
  lemma JudgedIff(o: Oracle, id: string, record: Record, open: bool, cfg: Config)
    ensures var evidence := EvidenceSnippets in record && record[EvidenceSnippets].Snippets?
                            && |record[EvidenceSnippets].snippets| > 0;
            var floor := ClauseType in record && record[ClauseType].Str? && record[ClauseType].text in cfg.floor;
            && (!IsBlank(record) && (evidence || floor) ==>
                  (ClauseJudgment(o, id, record, false, cfg).calls != []
                   && (open ==> ClauseJudgment(o, id, record, open, cfg).verdict.finalStatus == Validated)))
            && (IsBlank(record) || !(evidence || floor) ==>
                  ClauseJudgment(o, id, record, open, cfg).calls == []
                  && ClauseJudgment(o, id, record, open, cfg).verdict.finalStatus == Discarded)
  {
  }

  lemma TripleRecords(t: Triple, onFloor: bool)
    ensures var v := TripleVerdict(t, onFloor);
            && v.relevance == t.relevance
            && v.isrel == (if t.relevance == Some(true) && !onFloor then t.isrel else None)
            && v.issup == (if v.isrel == Some(true) then t.issup else None)
            && v.retryCount == (if v.issup.Some? then Some(0) else None)
            && (v.finalStatus == Discarded <==> No(v.relevance) || No(v.isrel) || No(v.issup))
  {
    match t.relevance
    case None =>
    case Some(r) =>
      match t.isrel
      case None =>
      case Some(i) =>
        match t.issup
        case None =>
        case Some(s) =>
  }

  lemma {:induction false} IssupRecords(o: Oracle, id: string, attempt: int, cfg: Config, isrel: Answer)
    ensures var v := IssupJudgment(o, id, attempt, cfg, isrel).verdict;
            && v.relevance == Some(true) && v.isrel == isrel && (v.issup.Some? <==> v.retryCount.Some?)
            && (v.finalStatus == Discarded <==> No(v.issup))
    decreases cfg.maxAttempts - attempt
  {
    if attempt <= cfg.maxAttempts && o.issup(id, attempt) == Some(false) {
      IssupRecords(o, id, attempt + 1, cfg, isrel);
    }
  }

  /** The calls it makes: one on the merged path and without evidence; otherwise one a question asked, and on
      the last question one an attempt; a call counts as failed exactly when it was not answered. */
  lemma CallsOfClause(o: Oracle, id: string, record: Record, cfg: Config)
    requires NeedsCalls(record, cfg)
    ensures var j, isrel := ClauseJudgment(o, id, record, false, cfg), IsrelSaid(o, id, record, cfg);
            if !HasEvidence(record) then j.calls == [o.relevance(id).Some?]
            else if cfg.merge then j.calls == [o.combined(id).Some?]
            else if o.relevance(id) != Some(true) || OnFloor(record, cfg) then j.calls == [o.relevance(id).Some?]
            else if isrel != Some(true) then j.calls == [true, isrel.Some?]
            else j.calls == [true, true] + IssupJudgment(o, id, 1, cfg, Some(true)).calls
  {
    var rest := IssupJudgment(o, id, 1, cfg, Some(true)).calls;
    assert [true] + ([true] + rest) == [true, true] + rest;
    assert [true] + [false] == [true, false] && [true] + [true] == [true, true];
  }

  // ----- failures only ever validate ------------------------------------------------------------

  ghost predicate FailsInstead(a: Answer, b: Answer) {
    b == a || b == None
  }

  ghost predicate TripleFailsInstead(a: Option<Triple>, b: Option<Triple>) {
    b == None || (a.Some?
                  && FailsInstead(a.value.relevance, b.value.relevance)
                  && FailsInstead(a.value.isrel, b.value.isrel)
                  && FailsInstead(a.value.issup, b.value.issup))
  }

  /** `b` is `a` with some answers replaced by failures. */
  ghost predicate FailsMore(a: Oracle, b: Oracle) {
    && (forall id :: FailsInstead(a.relevance(id), b.relevance(id)))
    && (forall id :: FailsInstead(a.isrel(id), b.isrel(id)))
    && (forall id, n :: FailsInstead(a.issup(id, n), b.issup(id, n)))
    && (forall id :: TripleFailsInstead(a.combined(id), b.combined(id)))
  }

  /** The second breaker is at least as far on the way to opening as the first. */
  ghost predicate Ahead(a: Breaker, b: Breaker) {
    b.open || (!a.open && a.failures <= b.failures)
  }

  /** A clause's calls compare: the same, or the second sequence fails no later than the first ends. */
  ghost predicate CutShort(a: seq<bool>, b: seq<bool>) {
    b == a || (b != [] && !b[|b| - 1] && |b| <= |a|)
  }

  lemma AheadKept(a: Breaker, b: Breaker, ca: seq<bool>, cb: seq<bool>, threshold: int)
    requires !a.open && !b.open && a.failures <= b.failures
    requires FailsOnlyLast(ca) && FailsOnlyLast(cb) && CutShort(ca, cb)
    ensures Ahead(Feed(a, ca, threshold), Feed(b, cb, threshold))
  {
    FeedClause(a, ca, threshold);
    FeedClause(b, cb, threshold);
  }

  lemma {:induction false} IssupMonotone(a: Oracle, b: Oracle, id: string, attempt: int, cfg: Config, isrel: Answer)
    requires FailsMore(a, b)
    ensures var ja, jb := IssupJudgment(a, id, attempt, cfg, isrel), IssupJudgment(b, id, attempt, cfg, isrel);
            && CutShort(ja.calls, jb.calls)
            && (ja.verdict.finalStatus == Validated ==> jb.verdict.finalStatus == Validated)
    decreases cfg.maxAttempts - attempt
  {
    assert FailsInstead(a.issup(id, attempt), b.issup(id, attempt));
    if attempt <= cfg.maxAttempts && a.issup(id, attempt) == Some(false) {
      IssupMonotone(a, b, id, attempt + 1, cfg, isrel);
    }
  }

  lemma ClauseMonotone(a: Oracle, b: Oracle, id: string, record: Record, cfg: Config)
    requires FailsMore(a, b)
    ensures var ja, jb := ClauseJudgment(a, id, record, false, cfg), ClauseJudgment(b, id, record, false, cfg);
            && CutShort(ja.calls, jb.calls)
            && (ja.verdict.finalStatus == Validated ==> jb.verdict.finalStatus == Validated)
  {
    assert FailsInstead(a.relevance(id), b.relevance(id));
    assert FailsInstead(a.isrel(id), b.isrel(id));
    assert TripleFailsInstead(a.combined(id), b.combined(id));
    IssupMonotone(a, b, id, 1, cfg, Some(true));
  }

  /** Fail-open monotonicity over whole runs: replacing answers by failures never turns a finding
      into a non-finding, and the breaker never opens later. */
  lemma {:induction false} FailuresOnlyValidate(a: Oracle, b: Oracle, order: seq<string>, clauses: Clauses, cfg: Config)
    requires Known(order, clauses) && FailsMore(a, b)
    ensures var ra, rb := Run(a, order, clauses, cfg), Run(b, order, clauses, cfg);
            && Ahead(ra.cb, rb.cb)
            && ra.updates.Keys == rb.updates.Keys
            && forall id | id in ra.updates ::
                 ra.updates[id].finalStatus == Validated ==> rb.updates[id].finalStatus == Validated
    decreases |order|
  {
    if order != [] {
      var n := |order| - 1;
      FailuresOnlyValidate(a, b, order[..n], clauses, cfg);
      var ra, rb := Run(a, order[..n], clauses, cfg), Run(b, order[..n], clauses, cfg);
      var id, record := order[n], clauses[order[n]];
      var ja := ClauseJudgment(a, id, record, ra.cb.open, cfg);
      var jb := ClauseJudgment(b, id, record, rb.cb.open, cfg);
      ClauseCalls(a, id, record, ra.cb.open, cfg);
      ClauseCalls(b, id, record, rb.cb.open, cfg);
      ClauseMonotone(a, b, id, record, cfg);
      if !rb.cb.open {
        AheadKept(ra.cb, rb.cb, ja.calls, jb.calls, cfg.threshold);
      }
    }
  }

  // ----- the merged judgment refines the sequential one ----------------------------------------

  /** The combined answer and the three separate answers say the same about a clause. */
  ghost predicate Consistent(o: Oracle, id: string) {
    match o.combined(id)
    case None => o.relevance(id) == None
    case Some(t) => o.relevance(id) == t.relevance && o.isrel(id) == t.isrel && o.issup(id, 1) == t.issup
  }

  ghost predicate ConsistentOn(o: Oracle, order: seq<string>, clauses: Clauses)
    requires Known(order, clauses)
  {
    forall id | id in order && HasEvidence(clauses[id]) :: Consistent(o, id)
  }

  /** From a closed breaker, with one ISSUP attempt, both paths give the same five fields. */
  lemma MergedClause(o: Oracle, id: string, record: Record, cfg: Config)
    requires cfg.maxAttempts == 1 && Consistent(o, id)
    ensures MergedJudgment(o, id, record, cfg).verdict == SequentialJudgment(o, id, record, cfg).verdict
    ensures MergedJudgment(o, id, record, cfg).calls == [o.combined(id).Some?]
    ensures SequentialJudgment(o, id, record, cfg).calls != []
    ensures o.combined(id) == None ==> SequentialJudgment(o, id, record, cfg).calls == [false]
  {
    assert IssupJudgment(o, id, 2, cfg, Some(true)).calls == [];
  }

  /** One clause on both paths, whatever the two breakers are. */
  lemma MergedStep(o: Oracle, id: string, record: Record, m: Breaker, s: Breaker, cfg: Config)
    requires cfg.maxAttempts == 1 && (HasEvidence(record) ==> Consistent(o, id)) && Ahead(m, s)
    ensures var jm := ClauseJudgment(o, id, record, m.open, cfg.(merge := true));
            var js := ClauseJudgment(o, id, record, s.open, cfg.(merge := false));
            && Ahead(Feed(m, jm.calls, cfg.threshold), Feed(s, js.calls, cfg.threshold))
            && (jm.verdict.finalStatus == Validated ==> js.verdict.finalStatus == Validated)
  {
    var cm, cs := cfg.(merge := true), cfg.(merge := false);
    ClauseCalls(o, id, record, m.open, cm);
    ClauseCalls(o, id, record, s.open, cs);
    var jm, js := ClauseJudgment(o, id, record, m.open, cm), ClauseJudgment(o, id, record, s.open, cs);
    if HasEvidence(record) {
      MergedClause(o, id, record, cm);
      MergedClause(o, id, record, cs);
    }
    if !s.open {
      FeedClause(m, jm.calls, cfg.threshold);
      FeedClause(s, js.calls, cfg.threshold);
      JudgmentIgnoresMerge(o, id, record, cfg);
    }
  }

  lemma JudgmentIgnoresMerge(o: Oracle, id: string, record: Record, cfg: Config)
    ensures MergedJudgment(o, id, record, cfg.(merge := true)) == MergedJudgment(o, id, record, cfg)
    ensures SequentialJudgment(o, id, record, cfg.(merge := true))
         == SequentialJudgment(o, id, record, cfg.(merge := false))
  {
    IssupIgnoresMerge(o, id, 1, cfg, Some(true));
  }

  lemma {:induction false} IssupIgnoresMerge(o: Oracle, id: string, attempt: int, cfg: Config, isrel: Answer)
    ensures IssupJudgment(o, id, attempt, cfg.(merge := true), isrel)
         == IssupJudgment(o, id, attempt, cfg.(merge := false), isrel)
    decreases cfg.maxAttempts - attempt
  {
    if attempt <= cfg.maxAttempts {
      IssupIgnoresMerge(o, id, attempt + 1, cfg, isrel);
    }
  }

  /** Over whole runs the merged path never validates a clause the sequential path discards, and its
      breaker is never the first to open. */
  lemma {:induction false} MergedRefinesSequential(o: Oracle, order: seq<string>, clauses: Clauses, cfg: Config)
    requires Known(order, clauses) && ConsistentOn(o, order, clauses) && cfg.maxAttempts == 1
    ensures var m, s := Run(o, order, clauses, cfg.(merge := true)), Run(o, order, clauses, cfg.(merge := false));
            && Ahead(m.cb, s.cb)
            && m.updates.Keys == s.updates.Keys
            && forall id | id in m.updates ::
                 m.updates[id].finalStatus == Validated ==> s.updates[id].finalStatus == Validated
    decreases |order|
  {
    if order != [] {
      var n := |order| - 1;
      var cm, cs := cfg.(merge := true), cfg.(merge := false);
      MergedRefinesSequential(o, order[..n], clauses, cfg);
      var m, s := Run(o, order[..n], clauses, cm), Run(o, order[..n], clauses, cs);
      MergedStep(o, order[n], clauses[order[n]], m.cb, s.cb, cfg);
    }
  }

  // ----- exactly when the two paths agree -------------------------------------------------------

  /** The sequential breaker is open while the merged one is still closed. */
  predicate Parted(m: Breaker, s: Breaker) {
    s.open && !m.open
  }

  /** A clause that is judged while only the sequential breaker is open has no relevance answer. */
  ghost predicate AgreesAt(o: Oracle, id: string, record: Record, m: Breaker, s: Breaker, cfg: Config) {
    Parted(m, s) && NeedsCalls(record, cfg) ==> o.relevance(id) == None
  }

  lemma MergedFailsOpenIff(o: Oracle, id: string, record: Record, cfg: Config)
    requires HasEvidence(record) ==> Consistent(o, id)
    ensures var j := if HasEvidence(record) then MergedJudgment(o, id, record, cfg) else RescueJudgment(o, id);
            j.verdict == VALIDATED_ALL_NONE <==> o.relevance(id) == None
  {
  }

  /** One clause has the same verdict on both paths exactly then. */
  lemma StepAgreesIff(o: Oracle, id: string, record: Record, m: Breaker, s: Breaker, cfg: Config)
    requires cfg.maxAttempts == 1 && (HasEvidence(record) ==> Consistent(o, id)) && Ahead(m, s)
    ensures ClauseJudgment(o, id, record, m.open, cfg.(merge := true)).verdict
         == ClauseJudgment(o, id, record, s.open, cfg.(merge := false)).verdict
       <==> AgreesAt(o, id, record, m, s, cfg)
  {
    MergedFailsOpenIff(o, id, record, cfg.(merge := true));
    if HasEvidence(record) && !s.open {
      MergedClause(o, id, record, cfg.(merge := true));
      JudgmentIgnoresMerge(o, id, record, cfg);
    }
  }

  ghost predicate AgreesThroughout(o: Oracle, order: seq<string>, clauses: Clauses, cfg: Config)
    requires Known(order, clauses)
    decreases |order|
  {
    order != [] ==>
      var n := |order| - 1;
      var m, s := Run(o, order[..n], clauses, cfg.(merge := true)), Run(o, order[..n], clauses, cfg.(merge := false));
      && AgreesThroughout(o, order[..n], clauses, cfg)
      && AgreesAt(o, order[n], clauses[order[n]], m.cb, s.cb, cfg)
  }

  lemma {:induction false} RunKeys(o: Oracle, order: seq<string>, clauses: Clauses, cfg: Config, id: string)
    requires Known(order, clauses)
    ensures id in Run(o, order, clauses, cfg).updates <==> id in order
    decreases |order|
  {
    if order != [] {
      var n := |order| - 1;
      RunKeys(o, order[..n], clauses, cfg, id);
      assert order == order[..n] + [order[n]];
    }
  }

  lemma SameWithOneMore(a: map<string, Verdict>, b: map<string, Verdict>, id: string, va: Verdict, vb: Verdict)
    requires id !in a && id !in b
    ensures a[id := va] == b[id := vb] <==> a == b && va == vb
  {
    if a[id := va] == b[id := vb] {
      assert a[id := va][id] == va && b[id := vb][id] == vb;
      assert a == a[id := va] - {id} && b == b[id := vb] - {id};
    }
  }

  /** For an order that visits each clause once, the two paths give the same updates if and only if every
      clause judged while only the sequential breaker is open has no relevance answer. */
  lemma {:induction false} RunsAgreeIff(o: Oracle, order: seq<string>, clauses: Clauses, cfg: Config)
    requires Known(order, clauses) && ConsistentOn(o, order, clauses) && cfg.maxAttempts == 1
    ensures var m, s := Run(o, order, clauses, cfg.(merge := true)), Run(o, order, clauses, cfg.(merge := false));
            && (AgreesThroughout(o, order, clauses, cfg) ==> m.updates == s.updates)
            && (Distinct(order) && m.updates == s.updates ==> AgreesThroughout(o, order, clauses, cfg))
    decreases |order|
  {
    if order != [] {
      var n := |order| - 1;
      var less, id, cm, cs := order[..n], order[n], cfg.(merge := true), cfg.(merge := false);
      RunsAgreeIff(o, less, clauses, cfg);
      MergedRefinesSequential(o, less, clauses, cfg);
      var m, s := Run(o, less, clauses, cm), Run(o, less, clauses, cs);
      StepAgreesIff(o, id, clauses[id], m.cb, s.cb, cfg);
      if Distinct(order) {
        RunKeys(o, less, clauses, cm, id);
        RunKeys(o, less, clauses, cs, id);
        SameWithOneMore(m.updates, s.updates, id, ClauseJudgment(o, id, clauses[id], m.cb.open, cm).verdict,
                        ClauseJudgment(o, id, clauses[id], s.cb.open, cs).verdict);
      }
    }
  }

  /** In particular they agree when the sequential breaker never opens before a clause. */
  lemma {:induction false} ClosedAgrees(o: Oracle, order: seq<string>, clauses: Clauses, cfg: Config)
    requires Known(order, clauses)
    requires !Run(o, order, clauses, cfg.(merge := false)).cb.open
    ensures AgreesThroughout(o, order, clauses, cfg)
    decreases |order|
  {
    if order != [] {
      var n := |order| - 1;
      var cs := cfg.(merge := false);
      var s := Run(o, order[..n], clauses, cs);
      StaysOpen(s.cb, ClauseJudgment(o, order[n], clauses[order[n]], s.cb.open, cs).calls, cs.threshold);
      ClosedAgrees(o, order[..n], clauses, cfg);
    }
  }

  /** Every answer the sequential path can ask for is there. */
  ghost predicate FailureFree(o: Oracle, order: seq<string>) {
    forall id | id in order :: o.relevance(id).Some? && o.isrel(id).Some? && o.issup(id, 1).Some?
  }

  lemma {:induction false} FailureFreeNeverOpens(o: Oracle, order: seq<string>, clauses: Clauses, cfg: Config)
    requires Known(order, clauses) && FailureFree(o, order) && cfg.maxAttempts == 1 && !cfg.merge
    ensures Run(o, order, clauses, cfg).cb == CLOSED
    decreases |order|
  {
    if order != [] {
      var n := |order| - 1;
      var id := order[n];
      FailureFreeNeverOpens(o, order[..n], clauses, cfg);
      var j := ClauseJudgment(o, id, clauses[id], false, cfg);
      ClauseCalls(o, id, clauses[id], false, cfg);
      assert IssupJudgment(o, id, 2, cfg, Some(true)).calls == [];
      assert j.calls != [] ==> j.calls[|j.calls| - 1];
      FeedClause(CLOSED, j.calls, cfg.threshold);
    }
  }

  /** The clauses of `order` for which some call has to be made. */
  function Judged(order: seq<string>, clauses: Clauses, cfg: Config): nat
    requires forall id | id in order :: id in clauses
  {
    if order == [] then 0
    else Judged(order[..|order| - 1], clauses, cfg)
         + if NeedsCalls(clauses[order[|order| - 1]], cfg) then 1 else 0
  }

  /** The merged path makes exactly one call for every judged clause until its breaker opens. */
  lemma {:induction false} MergedOneCallEach(o: Oracle, order: seq<string>, clauses: Clauses, cfg: Config)
    requires Known(order, clauses) && cfg.merge
    ensures var r := Run(o, order, clauses, cfg);
            && |r.calls| <= Judged(order, clauses, cfg)
            && (!r.cb.open ==> |r.calls| == Judged(order, clauses, cfg))
    decreases |order|
  {
    if order != [] {
      var n := |order| - 1;
      MergedOneCallEach(o, order[..n], clauses, cfg);
    }
  }

  /** A failure-free run: the same update map on both paths, with one merged call a judged clause. */
  lemma FailureFreeRunsAgree(o: Oracle, order: seq<string>, clauses: Clauses, cfg: Config)
    requires Known(order, clauses) && ConsistentOn(o, order, clauses) && FailureFree(o, order)
    requires cfg.maxAttempts == 1
    ensures var m, s := Run(o, order, clauses, cfg.(merge := true)), Run(o, order, clauses, cfg.(merge := false));
            && m.updates == s.updates
            && |m.calls| == Judged(order, clauses, cfg)
            && !m.cb.tripped && !s.cb.tripped
  {
    FailureFreeNeverOpens(o, order, clauses, cfg.(merge := false));
    ClosedAgrees(o, order, clauses, cfg);
    RunsAgreeIff(o, order, clauses, cfg);
    MergedRefinesSequential(o, order, clauses, cfg);
    MergedOneCallEach(o, order, clauses, cfg.(merge := true));
    JudgedIgnoresMerge(order, clauses, cfg);
    RunTrace(o, order, clauses, cfg.(merge := true));
    OpenIffFailureRun(Run(o, order, clauses, cfg.(merge := true)).calls, cfg.threshold);
  }

  lemma {:induction false} JudgedIgnoresMerge(order: seq<string>, clauses: Clauses, cfg: Config)
    requires Known(order, clauses)
    ensures Judged(order, clauses, cfg.(merge := true)) == Judged(order, clauses, cfg)
    decreases |order|
  {
    if order != [] {
      JudgedIgnoresMerge(order[..|order| - 1], clauses, cfg);
    }
  }

  const SAMPLE: Record := map[Text := Str("x"), EvidenceSnippets := Snippets(["y"])]

  lemma SampleIsJudged(cfg: Config)
    requires cfg.floor == {}
    ensures NeedsCalls(SAMPLE, cfg)
  {
    assert !IsSpace(SAMPLE[Text].text[0]);
  }

  lemma MergedSample(o: Oracle, clauses: Clauses, cfg: Config)
    requires cfg.maxAttempts == 1 && cfg.threshold == 1 && cfg.floor == {} && cfg.merge
    requires clauses == map["a" := SAMPLE, "b" := SAMPLE]
    requires o.combined("a") == Some(Triple(Some(true), None, None))
    requires o.combined("b") == Some(Triple(Some(false), None, None))
    ensures Run(o, ["a", "b"], clauses, cfg).updates["b"].finalStatus == Discarded
  {
    SampleIsJudged(cfg);
    assert ["a", "b"][..1] == ["a"] && ["a"][..0] == [];
    assert ClauseJudgment(o, "a", SAMPLE, false, cfg).calls == [true];
    FeedClause(CLOSED, [true], 1);
    assert Run(o, ["a"], clauses, cfg).cb == Feed(CLOSED, [true], 1);
  }

  lemma SampleFails(o: Oracle, cfg: Config)
    requires cfg.floor == {} && !cfg.merge && o.relevance("a") == Some(true) && o.isrel("a") == None
    ensures ClauseJudgment(o, "a", SAMPLE, false, cfg).calls == [true, false]
  {
    SampleIsJudged(cfg);
    CallsOfClause(o, "a", SAMPLE, cfg);
  }

  lemma SequentialSample(o: Oracle, clauses: Clauses, cfg: Config)
    requires cfg.maxAttempts == 1 && cfg.threshold == 1 && cfg.floor == {} && !cfg.merge
    requires clauses == map["a" := SAMPLE, "b" := SAMPLE]
    requires o.relevance("a") == Some(true) && o.isrel("a") == None
    ensures Run(o, ["a", "b"], clauses, cfg).updates["b"].finalStatus == Validated
  {
    SampleIsJudged(cfg);
    assert ["a", "b"][..1] == ["a"] && ["a"][..0] == [];
    SampleFails(o, cfg);
    FeedClause(CLOSED, [true, false], 1);
    assert Run(o, ["a"], clauses, cfg).cb == Feed(CLOSED, [true, false], 1);
  }

  /** A run in which they part: a missing key is a failed call on the sequential path only, and the next
      clause is judged by the merged path alone. */
  lemma PathsPartOnceOpen(o: Oracle, cfg: Config)
    requires cfg.maxAttempts == 1 && cfg.threshold == 1 && cfg.floor == {}
    requires o.combined("a") == Some(Triple(Some(true), None, None))
    requires o.combined("b") == Some(Triple(Some(false), None, None))
    requires Consistent(o, "a") && Consistent(o, "b")
    ensures var clauses: Clauses := map["a" := SAMPLE, "b" := SAMPLE];
            Run(o, ["a", "b"], clauses, cfg.(merge := true)).updates["b"].finalStatus == Discarded
            && Run(o, ["a", "b"], clauses, cfg.(merge := false)).updates["b"].finalStatus == Validated
  {
    var clauses: Clauses := map["a" := SAMPLE, "b" := SAMPLE];
    MergedSample(o, clauses, cfg.(merge := true));
    SequentialSample(o, clauses, cfg.(merge := false));
  }
}
