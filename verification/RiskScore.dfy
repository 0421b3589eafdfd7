/** Node 5, risk scoring: a severity for every validated finding, a fail-safe default when the
    scoring call fails, the breaker is open or the text is empty. */
module RiskScore {
  import opened ContractState
  import opened Options
  import opened CircuitBreaker

  datatype Scored = Scored(level: RiskLevel, rationale: string)

  /** The scoring call's answer for each clause, `None` for a failed call. */
  type Oracle = string -> Option<Scored>

  datatype Config = Config(threshold: int, rationaleMax: nat, defaultLevel: RiskLevel, honest: bool)

  function LevelName(level: RiskLevel): string {
    match level
    case Low => "low"
    case Medium => "medium"
    case High => "high"
  }

  /** Why a clause gets the default. */
  datatype Cause = EmptyText | Unavailable | CallFailed

  function Reason(cause: Cause): string {
    match cause
    case EmptyText => "clause text was empty; assigned default severity"
    case Unavailable => "scoring backend unavailable; assigned default severity"
    case CallFailed => "scoring failed; assigned default severity"
  }

  function Failsafe(cause: Cause, cfg: Config): Record {
    var update: Record := map[
      RiskLevelField := Level(cfg.defaultLevel),
      RiskRationale := Str("[auto] " + Reason(cause) + " (default=" + LevelName(cfg.defaultLevel) + ")")];
    if cfg.honest then update[IsFailsafe := Flag(true)] else update
  }

  function Genuine(s: Scored, cfg: Config): Record {
    var rationale := if |s.rationale| > cfg.rationaleMax then s.rationale[..cfg.rationaleMax] else s.rationale;
    var update: Record := map[RiskLevelField := Level(s.level), RiskRationale := Str(rationale)];
    if cfg.honest then update[IsFailsafe := Flag(false)] else update
  }

  /** A clause's update and the outcomes of its calls. */
  datatype Step = Step(update: Option<Record>, calls: seq<bool>)

  function ClauseStep(o: Oracle, id: string, record: Record, open: bool, cfg: Config): Step {
    if !IsValidated(record) then Step(None, [])
    else if IsBlank(record) then Step(Some(Failsafe(EmptyText, cfg)), [])
    else if open then Step(Some(Failsafe(Unavailable, cfg)), [])
    else match o(id)
      case None => Step(Some(Failsafe(CallFailed, cfg)), [false])
      case Some(s) => Step(Some(Genuine(s, cfg)), [true])
  }

  datatype Progress = Progress(updates: Clauses, cb: Breaker, calls: seq<bool>)

  function Run(o: Oracle, order: seq<string>, clauses: Clauses, cfg: Config): Progress
    requires forall id | id in order :: id in clauses
  {
    if order == [] then
      Progress(map[], CLOSED, [])
    else
      var id := order[|order| - 1];
      var before := Run(o, order[..|order| - 1], clauses, cfg);
      var step := ClauseStep(o, id, clauses[id], before.cb.open, cfg);
      Progress(if step.update.Some? then before.updates[id := step.update.value] else before.updates,
               Feed(before.cb, step.calls, cfg.threshold),
               before.calls + step.calls)
  }

  /** The body of the node's loop for one clause; `None` leaves the clause without an update. */
  method ScoreClause(o: Oracle, id: string, record: Record, cfg: Config, cb: Circuit)
    returns (update: Option<Record>)
    requires cb.Valid() && cb.threshold == cfg.threshold
    modifies cb
    ensures update == ClauseStep(o, id, record, old(cb.open), cfg).update
    ensures cb.calls == old(cb.calls) + ClauseStep(o, id, record, old(cb.open), cfg).calls
    ensures cb.State() == Feed(old(cb.State()), ClauseStep(o, id, record, old(cb.open), cfg).calls, cfg.threshold)
    ensures cb.Valid()
  {
    if !IsValidated(record) {
      return None;
    }
    if IsBlank(record) {
      return Some(Failsafe(EmptyText, cfg));
    }
    if cb.open {
      return Some(Failsafe(Unavailable, cfg));
    }
    var result := o(id);
    FeedOne(cb.State(), result.Some?, cfg.threshold);
    cb.Account(result.Some?);
    if result == None {
      return Some(Failsafe(CallFailed, cfg));
    }
    return Some(Genuine(result.value, cfg));
  }

  method RiskScoreAgent(o: Oracle, ingestError: bool, order: seq<string>, clauses: Clauses, cfg: Config)
    returns (updates: Clauses, errorCount: nat)
    requires Enumerates(order, clauses)
    ensures ingestError ==> updates == map[] && errorCount == 0
    ensures !ingestError ==> updates == Run(o, order, clauses, cfg).updates
    ensures !ingestError ==> errorCount == if Run(o, order, clauses, cfg).cb.tripped then 1 else 0
  {
    updates, errorCount := map[], 0;
    if ingestError || order == [] {
      return;
    }
    var cb := new Circuit(cfg.threshold);
    for i := 0 to |order|
      invariant cb.Valid() && cb.threshold == cfg.threshold && fresh(cb)
      invariant Progress(updates, cb.State(), cb.calls) == Run(o, order[..i], clauses, cfg)
    {
      assert order[..i + 1][..i] == order[..i];
      var update := ScoreClause(o, order[i], clauses[order[i]], cfg, cb);
      if update.Some? {
        updates := updates[order[i] := update.value];
      }
    }
    assert order[..|order|] == order;
    if cb.tripped {
      errorCount := 1;
    }
  }

  // ----- properties -----------------------------------------------------------------------------

  /** The breaker is determined by the call trace; no call follows its opening; empty-text,
      bulk-defaulted and discarded clauses make no call, so there is at most one call a clause. */
  lemma {:induction false} RunTrace(o: Oracle, order: seq<string>, clauses: Clauses, cfg: Config)
    requires forall id | id in order :: id in clauses
    ensures var r := Run(o, order, clauses, cfg);
            && r.cb == After(r.calls, cfg.threshold)
            && Quiet(r.calls, cfg.threshold)
            && |r.calls| <= |order|
    decreases |order|
  {
    if order != [] {
      var n := |order| - 1;
      RunTrace(o, order[..n], clauses, cfg);
      var before := Run(o, order[..n], clauses, cfg);
      var step := ClauseStep(o, order[n], clauses[order[n]], before.cb.open, cfg);
      QuietClause(before.calls, step.calls, cfg.threshold);
    }
  }

  /** `error_count` is emitted exactly when the last calls are THRESHOLD consecutive failures. */
  lemma BreakerOpensAtThreshold(o: Oracle, order: seq<string>, clauses: Clauses, cfg: Config)
    requires forall id | id in order :: id in clauses
    ensures var r := Run(o, order, clauses, cfg);
            && (r.cb.tripped <==> r.calls != [] && FailureRun(r.calls, |r.calls| - 1, Needed(cfg.threshold)))
            && (forall i: nat | i + 1 < |r.calls| :: !FailureRun(r.calls, i, Needed(cfg.threshold)))
  {
    RunTrace(o, order, clauses, cfg);
    QuietTraceEndsAtOpening(Run(o, order, clauses, cfg).calls, cfg.threshold);
    OpenIffFailureRun(Run(o, order, clauses, cfg).calls, cfg.threshold);
  }

  /** The fields node 5 owns. */
  function OwnFields(cfg: Config): set<ClauseField> {
    {RiskLevelField, RiskRationale} + if cfg.honest then {IsFailsafe} else {}
  }

  ghost predicate Severity(update: Record, cfg: Config) {
    update.Keys == OwnFields(cfg) && update[RiskLevelField].Level?
  }

  lemma FailsafeSeverity(cause: Cause, cfg: Config)
    ensures Severity(Failsafe(cause, cfg), cfg)
  {
  }

  lemma GenuineSeverity(s: Scored, cfg: Config)
    ensures Severity(Genuine(s, cfg), cfg)
  {
  }

  lemma StepSeverity(o: Oracle, id: string, record: Record, open: bool, cfg: Config)
    ensures var update := ClauseStep(o, id, record, open, cfg).update;
            && (update.Some? <==> IsValidated(record))
            && (update.Some? ==> Severity(update.value, cfg))
  {
    forall cause: Cause ensures Severity(Failsafe(cause, cfg), cfg) {
      FailsafeSeverity(cause, cfg);
    }
    if o(id).Some? {
      GenuineSeverity(o(id).value, cfg);
    }
  }

  /** Exactly the validated clauses get an update; it always holds a severity, and only the node's
      own fields. */
  lemma {:induction false} RunUpdates(o: Oracle, order: seq<string>, clauses: Clauses, cfg: Config)
    requires forall id | id in order :: id in clauses
    ensures var updates := Run(o, order, clauses, cfg).updates;
            && (forall id :: id in updates <==> id in order && IsValidated(clauses[id]))
            && (forall id | id in updates :: Severity(updates[id], cfg))
    decreases |order|
  {
    if order != [] {
      var n := |order| - 1;
      RunUpdates(o, order[..n], clauses, cfg);
      StepSeverity(o, order[n], clauses[order[n]], Run(o, order[..n], clauses, cfg).cb.open, cfg);
      assert order == order[..n] + [order[n]];
    }
  }

  // ----- where each severity comes from ---------------------------------------------------------------

  ghost predicate HasRationale(update: Record) {
    RiskLevelField in update && RiskRationale in update && update[RiskRationale].Str?
  }

  /** The model's own level, and its rationale cut exactly at the limit. */
  ghost predicate FromAnswer(update: Record, answer: Option<Scored>, cfg: Config) {
    && HasRationale(update) && answer.Some?
    && update[RiskLevelField] == Level(answer.value.level)
    && update[RiskRationale].text <= answer.value.rationale
    && |update[RiskRationale].text|
         == (if |answer.value.rationale| <= cfg.rationaleMax then |answer.value.rationale| else cfg.rationaleMax)
    && (cfg.honest ==> IsFailsafe in update && update[IsFailsafe] == Flag(false))
  }

  /** The default level, said to be automatic. */
  ghost predicate Defaulted(update: Record, cfg: Config) {
    && HasRationale(update)
    && update[RiskLevelField] == Level(cfg.defaultLevel)
    && "[auto] " <= update[RiskRationale].text
    && (cfg.honest ==> IsFailsafe in update && update[IsFailsafe] == Flag(true))
  }

  lemma SaidToBeAutomatic(reason: string, level: string)
    ensures "[auto] " <= "[auto] " + reason + " (default=" + level + ")"
  {
    assert "[auto] " + reason + " (default=" + level + ")" == "[auto] " + (reason + " (default=" + level + ")");
  }

  lemma FailsafeDefaults(cause: Cause, cfg: Config)
    ensures Defaulted(Failsafe(cause, cfg), cfg)
  {
    SaidToBeAutomatic(Reason(cause), LevelName(cfg.defaultLevel));
  }

  lemma GenuineFromAnswer(s: Scored, cfg: Config)
    ensures FromAnswer(Genuine(s, cfg), Some(s), cfg)
  {
  }

  /** A clause gets nothing, the answer of its one call, or the default for some cause. */
  lemma StepCause(o: Oracle, id: string, record: Record, open: bool, cfg: Config) returns (cause: Cause)
    ensures var step := ClauseStep(o, id, record, open, cfg);
            && (step.calls == [true] ==> o(id).Some? && step.update == Some(Genuine(o(id).value, cfg)))
            && (step.calls != [true] ==> step.update == None || step.update == Some(Failsafe(cause, cfg)))
            && (step.update.Some? && o(id).Some? && !IsBlank(record) && !open ==> step.calls == [true])
            && step.calls == (if IsValidated(record) && !IsBlank(record) && !open then [o(id).Some?] else [])
  {
    cause := if IsBlank(record) then EmptyText else if open then Unavailable else CallFailed;
  }

  lemma StepSource(o: Oracle, id: string, record: Record, open: bool, cfg: Config)
    ensures var step := ClauseStep(o, id, record, open, cfg);
            && (step.calls == [true] ==> step.update.Some? && FromAnswer(step.update.value, o(id), cfg))
            && (step.calls != [true] && step.update.Some? ==> Defaulted(step.update.value, cfg))
            && (step.update.Some? && o(id).Some? && !IsBlank(record) && !open ==> step.calls == [true])
  {
    var cause := StepCause(o, id, record, open, cfg);
    if ClauseStep(o, id, record, open, cfg).calls == [true] {
      GenuineFromAnswer(o(id).value, cfg);
    } else {
      FailsafeDefaults(cause, cfg);
    }
  }

  /** Every severity is either the model's answer for that clause or the default, and is marked as such;
      in a run in which every call is answered, only blank clauses get the default. */
  lemma {:induction false} SeverityHasSource(o: Oracle, order: seq<string>, clauses: Clauses, cfg: Config, id: string)
    requires (forall i | i in order :: i in clauses) && id in Run(o, order, clauses, cfg).updates
    ensures var update := Run(o, order, clauses, cfg).updates[id];
            && (FromAnswer(update, o(id), cfg) || Defaulted(update, cfg))
            && id in clauses
            && ((forall i | i in order :: o(i).Some?) ==>
                  !Run(o, order, clauses, cfg).cb.open
                  && (!IsBlank(clauses[id]) ==> FromAnswer(update, o(id), cfg)))
    decreases |order|
  {
    if order != [] {
      var n := |order| - 1;
      var before := Run(o, order[..n], clauses, cfg);
      StepSource(o, order[n], clauses[order[n]], before.cb.open, cfg);
      if forall i | i in order :: o(i).Some? {
        AnsweredStaysClosed(o, order, clauses, cfg);
        AnsweredStaysClosed(o, order[..n], clauses, cfg);
      }
      if id in before.updates {
        SeverityHasSource(o, order[..n], clauses, cfg, id);
      }
    }
  }

  lemma {:induction false} AnsweredStaysClosed(o: Oracle, order: seq<string>, clauses: Clauses, cfg: Config)
    requires (forall i | i in order :: i in clauses) && forall i | i in order :: o(i).Some?
    ensures !Run(o, order, clauses, cfg).cb.open
    decreases |order|
  {
    if order != [] {
      var n := |order| - 1;
      AnsweredStaysClosed(o, order[..n], clauses, cfg);
      FeedOne(Run(o, order[..n], clauses, cfg).cb, true, cfg.threshold);
    }
  }
}
