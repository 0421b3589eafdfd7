/** Node 6: the route after risk scoring, and the drafting of a rewrite for every eligible finding. */
module Redline {
  import opened ContractState
  import opened Options
  import opened CircuitBreaker

  /** The drafting call's answer for each clause, `None` for a failed call. */
  type Oracle = string -> Option<string>

  datatype Config = Config(threshold: int, rewriteMax: nat, riskThreshold: set<RiskLevel>)

  /** REDLINE_RISK_THRESHOLD as configured: every level. */
  const ALL_LEVELS: set<RiskLevel> := {Low, Medium, High}

  datatype Branch = TakeRedline | SkipRedline

  predicate IsRedlineEligible(record: Record, cfg: Config) {
    && IsValidated(record)
    && Get(record, RiskLevelField).Level?
    && Get(record, RiskLevelField).level in cfg.riskThreshold
  }

  function RouteOnRisk(ingestError: bool, clauses: Clauses, cfg: Config): Branch {
    if ingestError then SkipRedline
    else if exists id | id in clauses :: IsRedlineEligible(clauses[id], cfg) then TakeRedline
    else SkipRedline
  }

  datatype Counts = Counts(eligible: nat, rewritten: nat, failed: nat, emptyText: nat, bulkSkipped: nat)

  const NO_COUNTS := Counts(0, 0, 0, 0, 0)

  function Truncated(draft: string, cfg: Config): string {
    if |draft| > cfg.rewriteMax then draft[..cfg.rewriteMax] else draft
  }

  function Rewrite(value: FieldValue): Record {
    map[SuggestedRewrite := value]
  }

  datatype Step = Step(update: Option<Record>, calls: seq<bool>, counts: Counts)

  function ClauseStep(o: Oracle, id: string, record: Record, open: bool, c: Counts, cfg: Config): Step {
    if !IsRedlineEligible(record, cfg) then Step(None, [], c)
    else
      var c := c.(eligible := c.eligible + 1);
      if IsBlank(record) then Step(Some(Rewrite(Null)), [], c.(emptyText := c.emptyText + 1))
      else if open then Step(Some(Rewrite(Null)), [], c.(bulkSkipped := c.bulkSkipped + 1))
      else match o(id)
        case None => Step(Some(Rewrite(Null)), [false], c.(failed := c.failed + 1))
        case Some(draft) =>
          Step(Some(Rewrite(Str(Truncated(draft, cfg)))), [true], c.(rewritten := c.rewritten + 1))
  }

  datatype Progress = Progress(updates: Clauses, cb: Breaker, calls: seq<bool>, counts: Counts)

  function Run(o: Oracle, order: seq<string>, clauses: Clauses, cfg: Config): Progress
    requires forall id | id in order :: id in clauses
  {
    if order == [] then
      Progress(map[], CLOSED, [], NO_COUNTS)
    else
      var id := order[|order| - 1];
      var before := Run(o, order[..|order| - 1], clauses, cfg);
      var step := ClauseStep(o, id, clauses[id], before.cb.open, before.counts, cfg);
      Progress(if step.update.Some? then before.updates[id := step.update.value] else before.updates,
               Feed(before.cb, step.calls, cfg.threshold),
               before.calls + step.calls,
               step.counts)
  }

  /** The body of the node's loop for one clause; `None` leaves the clause without an update. */
  method DraftClause(o: Oracle, id: string, record: Record, c: Counts, cfg: Config, cb: Circuit)
    returns (update: Option<Record>, counts: Counts, ghost made: seq<bool>)
    requires cb.Valid() && cb.threshold == cfg.threshold
    modifies cb
    ensures Step(update, made, counts) == ClauseStep(o, id, record, old(cb.open), c, cfg)
    ensures cb.calls == old(cb.calls) + made && cb.State() == Feed(old(cb.State()), made, cfg.threshold)
    ensures cb.Valid()
  {
    counts, made := c, [];
    if !IsRedlineEligible(record, cfg) {
      return None, counts, made;
    }
    counts := counts.(eligible := counts.eligible + 1);
    if IsBlank(record) {
      return Some(Rewrite(Null)), counts.(emptyText := counts.emptyText + 1), made;
    }
    if cb.open {
      return Some(Rewrite(Null)), counts.(bulkSkipped := counts.bulkSkipped + 1), made;
    }
    var result := o(id);
    FeedOne(cb.State(), result.Some?, cfg.threshold);
    cb.Account(result.Some?);
    made := [result.Some?];
    if result == None {
      return Some(Rewrite(Null)), counts.(failed := counts.failed + 1), made;
    }
    return Some(Rewrite(Str(Truncated(result.value, cfg)))), counts.(rewritten := counts.rewritten + 1), made;
  }

  method RedlineAgent(o: Oracle, ingestError: bool, order: seq<string>, clauses: Clauses, cfg: Config)
    returns (updates: Clauses, errorCount: nat, counts: Counts)
    requires Enumerates(order, clauses)
    ensures ingestError ==> updates == map[] && errorCount == 0
    ensures !ingestError ==> updates == Run(o, order, clauses, cfg).updates
    ensures !ingestError ==> counts == Run(o, order, clauses, cfg).counts
    ensures !ingestError ==> errorCount == if Run(o, order, clauses, cfg).cb.tripped then 1 else 0
  {
    updates, errorCount, counts := map[], 0, NO_COUNTS;
    if ingestError || order == [] {
      return;
    }
    var cb := new Circuit(cfg.threshold);
    for i := 0 to |order|
      invariant cb.Valid() && cb.threshold == cfg.threshold && fresh(cb)
      invariant Progress(updates, cb.State(), cb.calls, counts) == Run(o, order[..i], clauses, cfg)
    {
      assert order[..i + 1][..i] == order[..i];
      var update;
      ghost var made;
      update, counts, made := DraftClause(o, order[i], clauses[order[i]], counts, cfg, cb);
      if update.Some? {
        updates := updates[order[i] := update.value];
      }
    }
    assert order[..|order|] == order;
    if cb.tripped {
      errorCount := 1;
    }
  }

  // ----- properties -----------------------------------------------------------------------------

  lemma RouteByUpdates(updates: Clauses, clauses: Clauses, cfg: Config)
    requires updates.Keys <= clauses.Keys
    requires forall id | id in clauses :: id in updates <==> IsRedlineEligible(clauses[id], cfg)
    ensures RouteOnRisk(false, clauses, cfg) == TakeRedline <==> updates != map[]
  {
    if updates != map[] {
      var id :| id in updates;
      assert IsRedlineEligible(clauses[id], cfg);
    }
  }

  /** The route and the node share one predicate: the redline branch is taken exactly when the node
      would have a clause to draft for. */
  lemma RouteMatchesNode(o: Oracle, order: seq<string>, clauses: Clauses, cfg: Config)
    requires Enumerates(order, clauses)
    ensures RouteOnRisk(false, clauses, cfg) == TakeRedline
       <==> Run(o, order, clauses, cfg).counts.eligible > 0
    ensures RouteOnRisk(true, clauses, cfg) == SkipRedline
  {
    var r := Run(o, order, clauses, cfg);
    RunUpdates(o, order, clauses, cfg);
    RouteByUpdates(r.updates, clauses, cfg);
    RunCounts(o, order, clauses, cfg);
    EmptyMap(r.updates);
  }

  lemma EmptyMap(m: Clauses)
    ensures |m| == 0 <==> m == map[]
  {
  }

  lemma {:induction false} RunTrace(o: Oracle, order: seq<string>, clauses: Clauses, cfg: Config)
    requires forall id | id in order :: id in clauses
    ensures var r := Run(o, order, clauses, cfg);
            && r.cb == After(r.calls, cfg.threshold)
            && Quiet(r.calls, cfg.threshold)
            && |r.calls| == r.counts.rewritten + r.counts.failed
            && (r.counts.bulkSkipped > 0 ==> r.cb.open)
    decreases |order|
  {
    if order != [] {
      var n := |order| - 1;
      RunTrace(o, order[..n], clauses, cfg);
      var before := Run(o, order[..n], clauses, cfg);
      var step := ClauseStep(o, order[n], clauses[order[n]], before.cb.open, before.counts, cfg);
      QuietClause(before.calls, step.calls, cfg.threshold);
      StaysOpen(before.cb, step.calls, cfg.threshold);
    }
  }

  lemma BreakerOpensAtThreshold(o: Oracle, order: seq<string>, clauses: Clauses, cfg: Config)
    requires forall id | id in order :: id in clauses
    ensures var r := Run(o, order, clauses, cfg);
            && (r.cb.tripped <==> r.calls != [] && FailureRun(r.calls, |r.calls| - 1, Needed(cfg.threshold)))
            && (forall i: nat | i + 1 < |r.calls| :: !FailureRun(r.calls, i, Needed(cfg.threshold)))
  {
    RunTrace(o, order, clauses, cfg);
    QuietTraceEndsAtOpening(Run(o, order, clauses, cfg).calls, cfg.threshold);
    OpenIffFailureRun(Run(o, order, clauses, cfg).calls, cfg.threshold);
  }

  lemma StepShape(o: Oracle, id: string, record: Record, open: bool, c: Counts, cfg: Config)
    ensures var step := ClauseStep(o, id, record, open, c, cfg);
            && (step.update.Some? <==> IsRedlineEligible(record, cfg))
            && (step.update.Some? ==> step.update.value.Keys == {SuggestedRewrite})
            && step.counts.eligible == c.eligible + (if step.update.Some? then 1 else 0)
            && Outcomes(step.counts) - Outcomes(c) == step.counts.eligible - c.eligible
  {
  }

  function Outcomes(c: Counts): nat {
    c.rewritten + c.failed + c.emptyText + c.bulkSkipped
  }

  /** Exactly the eligible clauses get an update, and it is the one key `suggested_rewrite`. */
  lemma {:induction false} RunUpdates(o: Oracle, order: seq<string>, clauses: Clauses, cfg: Config)
    requires forall id | id in order :: id in clauses
    ensures var updates := Run(o, order, clauses, cfg).updates;
            && (forall id :: id in updates <==> id in order && IsRedlineEligible(clauses[id], cfg))
            && (forall id | id in updates :: updates[id].Keys == {SuggestedRewrite})
    decreases |order|
  {
    if order != [] {
      var n := |order| - 1;
      var before := Run(o, order[..n], clauses, cfg);
      RunUpdates(o, order[..n], clauses, cfg);
      StepShape(o, order[n], clauses[order[n]], before.cb.open, before.counts, cfg);
      assert order == order[..n] + [order[n]];
    }
  }

  lemma GrowsByOne(m: Clauses, id: string, update: Record)
    requires id !in m
    ensures |m[id := update]| == |m| + 1
  {
    assert m[id := update].Keys == m.Keys + {id};
    assert |m[id := update]| == |m[id := update].Keys| && |m| == |m.Keys|;
  }

  lemma UpdatesGrow(o: Oracle, order: seq<string>, clauses: Clauses, cfg: Config)
    requires order != [] && forall id | id in order :: id in clauses
    requires order[|order| - 1] !in order[..|order| - 1]
    ensures var n := |order| - 1;
            var before := Run(o, order[..n], clauses, cfg);
            var step := ClauseStep(o, order[n], clauses[order[n]], before.cb.open, before.counts, cfg);
            |Run(o, order, clauses, cfg).updates| == |before.updates| + if step.update.Some? then 1 else 0
  {
    var n := |order| - 1;
    var before := Run(o, order[..n], clauses, cfg);
    var step := ClauseStep(o, order[n], clauses[order[n]], before.cb.open, before.counts, cfg);
    RunUpdates(o, order[..n], clauses, cfg);
    if step.update.Some? {
      GrowsByOne(before.updates, order[n], step.update.value);
    }
  }

  /** Conservation: every eligible clause is counted once, in exactly one of the four outcomes. */
  lemma {:induction false} RunCounts(o: Oracle, order: seq<string>, clauses: Clauses, cfg: Config)
    requires forall id | id in order :: id in clauses
    requires forall i, j | 0 <= i < j < |order| :: order[i] != order[j]
    ensures Run(o, order, clauses, cfg).counts.eligible == |Run(o, order, clauses, cfg).updates|
    ensures Run(o, order, clauses, cfg).counts.eligible == Outcomes(Run(o, order, clauses, cfg).counts)
    decreases |order|
  {
    if order != [] {
      var n := |order| - 1;
      var before := Run(o, order[..n], clauses, cfg);
      RunCounts(o, order[..n], clauses, cfg);
      StepShape(o, order[n], clauses[order[n]], before.cb.open, before.counts, cfg);
      UpdatesGrow(o, order, clauses, cfg);
    }
  }

  // ----- where each rewrite comes from ----------------------------------------------------------------

  /** Either no rewrite, or the beginning of the draft for that clause, cut only at the limit. */
  ghost predicate FromDraft(update: Record, draft: Option<string>, cfg: Config) {
    && SuggestedRewrite in update
    && (update[SuggestedRewrite] == Null
        || (&& update[SuggestedRewrite].Str? && draft.Some?
            && update[SuggestedRewrite].text <= draft.value
            && |update[SuggestedRewrite].text| <= cfg.rewriteMax
            && (|draft.value| <= cfg.rewriteMax ==> update[SuggestedRewrite].text == draft.value)))
  }

  ghost function Rewritten(updates: Clauses): set<string> {
    set id | id in updates && SuggestedRewrite in updates[id] && updates[id][SuggestedRewrite].Str?
  }

  lemma StepSource(o: Oracle, id: string, record: Record, open: bool, c: Counts, cfg: Config)
    ensures var step := ClauseStep(o, id, record, open, c, cfg);
            && (step.update.Some? ==> FromDraft(step.update.value, o(id), cfg))
            && (step.update.Some? && step.update.value[SuggestedRewrite].Str? <==> step.calls == [true])
            && (step.calls == [true] <==> step.counts.rewritten == c.rewritten + 1)
            && (step.calls != [true] <==> step.counts.rewritten == c.rewritten)
  {
  }

  /** Every rewrite is the draft for its own clause, and `rewritten` counts the clauses that have one. */
  lemma {:induction false} RewritesComeFromDrafts(o: Oracle, order: seq<string>, clauses: Clauses, cfg: Config)
    requires forall id | id in order :: id in clauses
    requires forall i, j | 0 <= i < j < |order| :: order[i] != order[j]
    ensures var r := Run(o, order, clauses, cfg);
            && (forall id | id in r.updates :: FromDraft(r.updates[id], o(id), cfg))
            && r.counts.rewritten == |Rewritten(r.updates)|
    decreases |order|
  {
    if order != [] {
      var n := |order| - 1;
      var before, id := Run(o, order[..n], clauses, cfg), order[n];
      var step := ClauseStep(o, id, clauses[id], before.cb.open, before.counts, cfg);
      RewritesComeFromDrafts(o, order[..n], clauses, cfg);
      StepSource(o, id, clauses[id], before.cb.open, before.counts, cfg);
      assert id !in before.updates by {
        RunUpdates(o, order[..n], clauses, cfg);
      }
      if step.update.Some? {
        RewrittenGrows(before.updates, id, step);
      }
    } else {
      assert Rewritten(map[]) == {};
    }
  }

  lemma RewrittenGrows(updates: Clauses, id: string, step: Step)
    requires id !in updates
    requires step.update.Some? && SuggestedRewrite in step.update.value
    ensures var more := updates[id := step.update.value];
            |Rewritten(more)| == |Rewritten(updates)| + if step.update.value[SuggestedRewrite].Str? then 1 else 0
  {
    var more := updates[id := step.update.value];
    if step.update.value[SuggestedRewrite].Str? {
      assert Rewritten(more) == Rewritten(updates) + {id};
    } else {
      assert Rewritten(more) == Rewritten(updates);
    }
  }

  // ----- every draft is used --------------------------------------------------------------------------

  /** What a clause ends with, given the draft for it: the draft, cut exactly at the limit. */
  ghost predicate Uses(update: Record, draft: string, cfg: Config) {
    && update.Keys == {SuggestedRewrite} && update[SuggestedRewrite].Str?
    && var text := update[SuggestedRewrite].text;
       text <= draft && |text| == if |draft| <= cfg.rewriteMax then |draft| else cfg.rewriteMax
  }

  ghost predicate NoRewrite(update: Record) {
    update == map[SuggestedRewrite := Null]
  }

  lemma CutIsPrefix(draft: string, cfg: Config)
    ensures Uses(Rewrite(Str(Truncated(draft, cfg))), draft, cfg)
  {
  }

  /** An eligible clause with text, reached with the breaker closed, makes one call: an answer is used and
      counted as a rewrite, a failure leaves none and is counted as one.  No other clause makes a call. */
  lemma StepUsesDraft(o: Oracle, id: string, record: Record, open: bool, c: Counts, cfg: Config)
    ensures var step := ClauseStep(o, id, record, open, c, cfg);
            if !IsRedlineEligible(record, cfg) then step == Step(None, [], c)
            else
              && step.update.Some?
              && step.calls == (if IsBlank(record) || open then [] else [o(id).Some?])
              && (if step.calls == [true] then Uses(step.update.value, o(id).value, cfg)
                  else NoRewrite(step.update.value))
              && step.counts.rewritten == c.rewritten + (if step.calls == [true] then 1 else 0)
              && step.counts.failed == c.failed + (if step.calls == [false] then 1 else 0)
              && step.counts.emptyText == c.emptyText + (if IsBlank(record) then 1 else 0)
              && step.counts.bulkSkipped == c.bulkSkipped + (if !IsBlank(record) && open then 1 else 0)
  {
    if o(id).Some? {
      CutIsPrefix(o(id).value, cfg);
    }
  }

  function Answered(calls: seq<bool>): nat {
    if calls == [] then 0 else Answered(calls[..|calls| - 1]) + if calls[|calls| - 1] then 1 else 0
  }

  lemma AnsweredConcat(calls: seq<bool>, more: seq<bool>)
    requires |more| <= 1
    ensures Answered(calls + more) == Answered(calls) + if more == [true] then 1 else 0
  {
    if more == [] {
      assert calls + more == calls;
    } else {
      assert (calls + more)[..|calls|] == calls;
    }
  }

  /** What the update of each clause is: nothing for a blank one; and for every other its own draft unless the
      call failed or the breaker had opened by the end.  The counters count the outcomes of the calls. */
  lemma {:induction false} RunUsesDrafts(o: Oracle, order: seq<string>, clauses: Clauses, cfg: Config)
    requires forall id | id in order :: id in clauses
    ensures var r := Run(o, order, clauses, cfg);
            && r.counts.rewritten == Answered(r.calls) && r.counts.failed == |r.calls| - Answered(r.calls)
            && forall id | id in r.updates ::
                 && id in clauses
                 && (IsBlank(clauses[id]) || o(id) == None ==> NoRewrite(r.updates[id]))
                 && (!IsBlank(clauses[id]) && o(id).Some? ==>
                       Uses(r.updates[id], o(id).value, cfg) || (r.cb.open && NoRewrite(r.updates[id])))
    decreases |order|
  {
    if order != [] {
      var n := |order| - 1;
      var before := Run(o, order[..n], clauses, cfg);
      var step := ClauseStep(o, order[n], clauses[order[n]], before.cb.open, before.counts, cfg);
      RunUsesDrafts(o, order[..n], clauses, cfg);
      StepUsesDraft(o, order[n], clauses[order[n]], before.cb.open, before.counts, cfg);
      AnsweredConcat(before.calls, step.calls);
      StaysOpen(before.cb, step.calls, cfg.threshold);
    }
  }

  /** When every call is answered the breaker stays closed, nothing fails or is skipped, and every eligible
      clause with text has its own draft. */
  lemma {:induction false} AnsweredRun(o: Oracle, order: seq<string>, clauses: Clauses, cfg: Config)
    requires (forall id | id in order :: id in clauses) && forall id | id in order :: o(id).Some?
    ensures var r := Run(o, order, clauses, cfg);
            && !r.cb.open && r.counts.failed == 0 && r.counts.bulkSkipped == 0
            && forall id | id in order && IsRedlineEligible(clauses[id], cfg) && !IsBlank(clauses[id]) ::
                 id in r.updates && Uses(r.updates[id], o(id).value, cfg)
    decreases |order|
  {
    if order != [] {
      var n := |order| - 1;
      var before := Run(o, order[..n], clauses, cfg);
      AnsweredRun(o, order[..n], clauses, cfg);
      StepUsesDraft(o, order[n], clauses[order[n]], before.cb.open, before.counts, cfg);
      FeedOne(before.cb, true, cfg.threshold);
    }
    RunUsesDrafts(o, order, clauses, cfg);
    RunUpdates(o, order, clauses, cfg);
  }
}
