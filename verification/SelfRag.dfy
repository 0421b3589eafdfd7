/** Node 4, Self-RAG validation: up to three reflective judgments a clause decide whether the
    clause is a finding.  Every language-model call is an oracle answer, `None` for a failed call. */
module SelfRag {
  import opened ContractState
  import opened Options
  import opened CircuitBreaker

  type Answer = Option<bool>

  /** The parsed object of the combined call; a missing or malformed key is `None`. */
  datatype Triple = Triple(relevance: Answer, isrel: Answer, issup: Answer)

  /** What the model would answer for each clause, judgment and ISSUP attempt. */
  datatype Oracle = Oracle(
    relevance: string -> Answer,
    isrel: string -> Answer,
    issup: (string, int) -> Answer,
    combined: string -> Option<Triple>)

  datatype Config = Config(maxAttempts: int, threshold: int, floor: set<string>, merge: bool)

  /** The five verdict fields of a clause. */
  datatype Verdict = Verdict(
    relevance: Answer, isrel: Answer, issup: Answer, retryCount: Option<int>,
    finalStatus: ValidationStatus)

  const ALL_NONE_DISCARD := Verdict(None, None, None, None, Discarded)
  const VALIDATED_ALL_NONE := Verdict(None, None, None, None, Validated)

  // ----- specification: the decision tables, free of the breaker ------------------------------

  /** A clause's verdict together with the outcomes of the calls it made, in order. */
  datatype Judgment = Judgment(verdict: Verdict, calls: seq<bool>)

  predicate OnFloor(record: Record, cfg: Config) {
    var ct := ClauseTypeOf(record);
    ct.Some? && ct.value in cfg.floor
  }

  /** Some call is made for the clause while the breaker is closed. */
  predicate NeedsCalls(record: Record, cfg: Config) {
    !IsBlank(record) && (HasEvidence(record) || OnFloor(record, cfg))
  }

  /** The ISSUP attempts from `attempt` on, after relevance and (when there is evidence) ISREL. */
  function IssupJudgment(o: Oracle, id: string, attempt: int, cfg: Config, isrel: Answer): (j: Judgment)
    decreases cfg.maxAttempts - attempt
  {
    if attempt > cfg.maxAttempts then
      Judgment(Verdict(Some(true), isrel, Some(false), Some(cfg.maxAttempts - 1), Discarded), [])
    else
      match o.issup(id, attempt)
      case None => Judgment(Verdict(Some(true), isrel, None, None, Validated), [false])
      case Some(true) => Judgment(Verdict(Some(true), isrel, Some(true), Some(attempt - 1), Validated), [true])
      case Some(false) =>
        var rest := IssupJudgment(o, id, attempt + 1, cfg, isrel);
        Judgment(rest.verdict, [true] + rest.calls)
  }

  /** ISREL and the ISSUP loop, of a clause found relevant. */
  function SupportJudgment(o: Oracle, id: string, cfg: Config): Judgment {
    match o.isrel(id)
    case None => Judgment(Verdict(Some(true), None, None, None, Validated), [false])
    case Some(false) => Judgment(Verdict(Some(true), Some(false), None, None, Discarded), [true])
    case Some(true) =>
      var rest := IssupJudgment(o, id, 1, cfg, Some(true));
      Judgment(rest.verdict, [true] + rest.calls)
  }

  function SequentialJudgment(o: Oracle, id: string, record: Record, cfg: Config): Judgment {
    match o.relevance(id)
    case None => Judgment(VALIDATED_ALL_NONE, [false])
    case Some(false) => Judgment(Verdict(Some(false), None, None, None, Discarded), [true])
    case Some(true) =>
      if OnFloor(record, cfg) then
        Judgment(Verdict(Some(true), None, None, None, Validated), [true])
      else
        var rest := SupportJudgment(o, id, cfg);
        Judgment(rest.verdict, [true] + rest.calls)
  }

  function TripleVerdict(t: Triple, onFloor: bool): Verdict {
    if t.relevance == None then VALIDATED_ALL_NONE
    else if t.relevance == Some(false) then Verdict(Some(false), None, None, None, Discarded)
    else if onFloor || t.isrel == None then Verdict(Some(true), None, None, None, Validated)
    else if t.isrel == Some(false) then Verdict(Some(true), Some(false), None, None, Discarded)
    else if t.issup == None then Verdict(Some(true), Some(true), None, None, Validated)
    else Verdict(Some(true), Some(true), t.issup, Some(0), if t.issup.value then Validated else Discarded)
  }

  function MergedJudgment(o: Oracle, id: string, record: Record, cfg: Config): Judgment {
    match o.combined(id)
    case None => Judgment(VALIDATED_ALL_NONE, [false])
    case Some(t) => Judgment(TripleVerdict(t, OnFloor(record, cfg)), [true])
  }

  /** No evidence but a floor type: relevance alone decides. */
  function RescueJudgment(o: Oracle, id: string): Judgment {
    match o.relevance(id)
    case None => Judgment(VALIDATED_ALL_NONE, [false])
    case Some(r) =>
      Judgment(Verdict(Some(r), None, None, None, if r then Validated else Discarded), [true])
  }

  function ClauseJudgment(o: Oracle, id: string, record: Record, open: bool, cfg: Config): Judgment {
    if !NeedsCalls(record, cfg) then Judgment(ALL_NONE_DISCARD, [])
    else if open then Judgment(VALIDATED_ALL_NONE, [])
    else if !HasEvidence(record) then RescueJudgment(o, id)
    else if cfg.merge then MergedJudgment(o, id, record, cfg)
    else SequentialJudgment(o, id, record, cfg)
  }

  /** A run over the clauses visited so far. */
  datatype Progress = Progress(updates: map<string, Verdict>, cb: Breaker, calls: seq<bool>)

  function Run(o: Oracle, order: seq<string>, clauses: Clauses, cfg: Config): Progress
    requires forall id | id in order :: id in clauses
  {
    if order == [] then
      Progress(map[], CLOSED, [])
    else
      var id := order[|order| - 1];
      var before := Run(o, order[..|order| - 1], clauses, cfg);
      var j := ClauseJudgment(o, id, clauses[id], before.cb.open, cfg);
      Progress(before.updates[id := j.verdict],
               Feed(before.cb, j.calls, cfg.threshold),
               before.calls + j.calls)
  }

  // ----- the node's code ------------------------------------------------------------------------

  /** What the loop has still to find out, after `made` calls. */
  ghost predicate Continues(whole: Judgment, made: seq<bool>, rest: Judgment) {
    whole.verdict == rest.verdict && whole.calls == made + rest.calls
  }

  lemma OneAttempt(o: Oracle, id: string, attempt: int, cfg: Config, isrel: Answer, whole: Judgment,
                   made: seq<bool>)
    requires attempt <= cfg.maxAttempts
    requires Continues(whole, made, IssupJudgment(o, id, attempt, cfg, isrel))
    ensures var answer := o.issup(id, attempt);
            var more := made + [answer.Some?];
            && (answer == None ==> whole == Judgment(Verdict(Some(true), isrel, None, None, Validated), more))
            && (answer == Some(true) ==>
                  whole == Judgment(Verdict(Some(true), isrel, Some(true), Some(attempt - 1), Validated), more))
            && (answer == Some(false) ==> Continues(whole, more, IssupJudgment(o, id, attempt + 1, cfg, isrel)))
  {
  }

  method IssupLoop(o: Oracle, id: string, cfg: Config, cb: Circuit, ghost isrel: Answer)
    returns (issup: Answer, retryCount: Option<int>, finalStatus: ValidationStatus)
    requires cb.Valid() && cb.threshold == cfg.threshold && !cb.open
    modifies cb
    ensures Verdict(Some(true), isrel, issup, retryCount, finalStatus)
         == IssupJudgment(o, id, 1, cfg, isrel).verdict
    ensures cb.calls == old(cb.calls) + IssupJudgment(o, id, 1, cfg, isrel).calls
    ensures cb.Valid()
  {
    var attempt := 1;
    ghost var made: seq<bool> := [];
    ghost var whole := IssupJudgment(o, id, 1, cfg, isrel);
    assert [] + whole.calls == whole.calls;
    while attempt < cfg.maxAttempts + 1
      invariant cfg.maxAttempts >= 0 ==> attempt <= cfg.maxAttempts + 1
      invariant cb.Valid() && !cb.open && cb.calls == old(cb.calls) + made
      invariant Continues(whole, made, IssupJudgment(o, id, attempt, cfg, isrel))
    {
      // the source tests `cb["open"]` here: the loop is only entered, and only goes round, after
      // an answered call, so the test never succeeds
      assert !cb.open;
      var answer := o.issup(id, attempt);
      OneAttempt(o, id, attempt, cfg, isrel, whole, made);
      cb.Account(answer.Some?);
      assert (old(cb.calls) + made) + [answer.Some?] == old(cb.calls) + (made + [answer.Some?]);
      made := made + [answer.Some?];
      assert cb.calls == old(cb.calls) + made;
      if answer == None {
        return None, None, Validated;
      }
      if answer == Some(true) {
        return Some(true), Some(attempt - 1), Validated;
      }
      attempt := attempt + 1;
    }
    assert made + [] == made;
    return Some(false), Some(cfg.maxAttempts - 1), Discarded;
  }

  method BranchARescue(o: Oracle, id: string, record: Record, cfg: Config, cb: Circuit)
    returns (v: Verdict)
    requires cb.Valid() && cb.threshold == cfg.threshold
    requires OnFloor(record, cfg)
    modifies cb
    ensures v == if old(cb.open) then VALIDATED_ALL_NONE else RescueJudgment(o, id).verdict
    ensures cb.calls == old(cb.calls) + if old(cb.open) then [] else RescueJudgment(o, id).calls
    ensures cb.Valid()
  {
    if cb.open {
      return VALIDATED_ALL_NONE;
    }
    var relevance := o.relevance(id);
    cb.Account(relevance.Some?);
    if relevance == None {
      return VALIDATED_ALL_NONE;
    }
    if relevance == Some(false) {
      return Verdict(Some(false), None, None, None, Discarded);
    }
    // the branch is only taken for floor types, so the source's fall-through to the ISSUP loop
    // below this test is never reached
    return Verdict(Some(true), None, None, None, Validated);
  }

  method BranchCMerged(o: Oracle, id: string, record: Record, cfg: Config, cb: Circuit)
    returns (v: Verdict)
    requires cb.Valid() && cb.threshold == cfg.threshold
    modifies cb
    ensures v == if old(cb.open) then VALIDATED_ALL_NONE else MergedJudgment(o, id, record, cfg).verdict
    ensures cb.calls == old(cb.calls) + if old(cb.open) then [] else MergedJudgment(o, id, record, cfg).calls
    ensures cb.Valid()
  {
    if cb.open {
      return VALIDATED_ALL_NONE;
    }
    var merged := o.combined(id);
    cb.Account(merged.Some?);
    if merged == None {
      return VALIDATED_ALL_NONE;
    }
    var Triple(relevance, isrel, issup) := merged.value;
    if relevance == None {
      return VALIDATED_ALL_NONE;
    }
    if relevance == Some(false) {
      return Verdict(Some(false), None, None, None, Discarded);
    }
    if OnFloor(record, cfg) {
      return Verdict(Some(true), None, None, None, Validated);
    }
    if isrel == None {
      return Verdict(Some(true), None, None, None, Validated);
    }
    if isrel == Some(false) {
      return Verdict(Some(true), Some(false), None, None, Discarded);
    }
    if issup == None {
      return Verdict(Some(true), Some(true), None, None, Validated);
    }
    if issup == Some(true) {
      return Verdict(Some(true), Some(true), Some(true), Some(0), Validated);
    }
    return Verdict(Some(true), Some(true), Some(false), Some(0), Discarded);
  }

  /** From the relevance check of a clause that passed it: ISREL, then the ISSUP loop. */
  method JudgeSupported(o: Oracle, id: string, cfg: Config, cb: Circuit) returns (v: Verdict)
    requires cb.Valid() && cb.threshold == cfg.threshold && !cb.open
    modifies cb
    ensures v == SupportJudgment(o, id, cfg).verdict
    ensures cb.calls == old(cb.calls) + SupportJudgment(o, id, cfg).calls
    ensures cb.Valid()
  {
    ghost var was := cb.calls;
    var isrel := o.isrel(id);
    cb.Account(isrel.Some?);
    if isrel == None {
      return Verdict(Some(true), None, None, None, Validated);
    }
    if isrel == Some(false) {
      return Verdict(Some(true), Some(false), None, None, Discarded);
    }
    ghost var rest := IssupJudgment(o, id, 1, cfg, Some(true));
    var issup, retryCount, finalStatus := IssupLoop(o, id, cfg, cb, Some(true));
    assert cb.calls == was + ([true] + rest.calls);
    return Verdict(Some(true), Some(true), issup, retryCount, finalStatus);
  }

  method BranchCSequential(o: Oracle, id: string, record: Record, cfg: Config, cb: Circuit)
    returns (v: Verdict)
    requires cb.Valid() && cb.threshold == cfg.threshold
    modifies cb
    ensures v == if old(cb.open) then VALIDATED_ALL_NONE else SequentialJudgment(o, id, record, cfg).verdict
    ensures cb.calls == old(cb.calls) + if old(cb.open) then [] else SequentialJudgment(o, id, record, cfg).calls
    ensures cb.Valid()
  {
    if cb.open {
      return VALIDATED_ALL_NONE;
    }
    ghost var was := cb.calls;
    var relevance := o.relevance(id);
    cb.Account(relevance.Some?);
    if relevance == None {
      return VALIDATED_ALL_NONE;
    }
    if relevance == Some(false) {
      return Verdict(Some(false), None, None, None, Discarded);
    }
    if OnFloor(record, cfg) {
      return Verdict(Some(true), None, None, None, Validated);
    }
    // the source tests `cb["open"]` again here: an answered call leaves a closed breaker closed
    assert !cb.open;
    v := JudgeSupported(o, id, cfg, cb);
    assert cb.calls == was + ([true] + SupportJudgment(o, id, cfg).calls);
  }

  method ProcessClause(o: Oracle, id: string, record: Record, cfg: Config, cb: Circuit)
    returns (v: Verdict)
    requires cb.Valid() && cb.threshold == cfg.threshold
    modifies cb
    ensures v == ClauseJudgment(o, id, record, old(cb.open), cfg).verdict
    ensures cb.calls == old(cb.calls) + ClauseJudgment(o, id, record, old(cb.open), cfg).calls
    ensures cb.Valid()
  {
    if IsBlank(record) {
      return ALL_NONE_DISCARD;
    }
    if !HasEvidence(record) {
      if OnFloor(record, cfg) {
        v := BranchARescue(o, id, record, cfg, cb);
      } else {
        v := ALL_NONE_DISCARD;
      }
    } else if cfg.merge {
      v := BranchCMerged(o, id, record, cfg, cb);
    } else {
      v := BranchCSequential(o, id, record, cfg, cb);
    }
  }

  lemma RunNext(o: Oracle, order: seq<string>, clauses: Clauses, cfg: Config, i: nat)
    requires i < |order| && forall id | id in order :: id in clauses
    ensures var before := Run(o, order[..i], clauses, cfg);
            var j := ClauseJudgment(o, order[i], clauses[order[i]], before.cb.open, cfg);
            Run(o, order[..i + 1], clauses, cfg) ==
            Progress(before.updates[order[i] := j.verdict], Feed(before.cb, j.calls, cfg.threshold),
                     before.calls + j.calls)
  {
    assert order[..i + 1][..i] == order[..i];
  }

  /** The node: the verdict updates, and 1 as `error_count` when the breaker opened. */
  method SelfRagValidationAgent(o: Oracle, ingestError: bool, order: seq<string>, clauses: Clauses, cfg: Config)
    returns (updates: map<string, Verdict>, errorCount: nat)
    requires Enumerates(order, clauses)
    ensures ingestError ==> updates == map[] && errorCount == 0
    ensures !ingestError ==> updates == Run(o, order, clauses, cfg).updates
    ensures !ingestError ==> errorCount == if Run(o, order, clauses, cfg).cb.tripped then 1 else 0
  {
    updates, errorCount := map[], 0;
    if ingestError || order == [] {
      return;
    }
    var cb := new Circuit(cfg.threshold);
    var i := 0;
    while i < |order|
      invariant 0 <= i <= |order|
      invariant cb.Valid() && cb.threshold == cfg.threshold && fresh(cb)
      invariant updates == Run(o, order[..i], clauses, cfg).updates
      invariant cb.calls == Run(o, order[..i], clauses, cfg).calls
      invariant cb.State() == Run(o, order[..i], clauses, cfg).cb
    {
      var id := order[i];
      ghost var before := cb.calls;
      ghost var j := ClauseJudgment(o, id, clauses[id], cb.open, cfg);
      var verdict := ProcessClause(o, id, clauses[id], cfg, cb);
      updates := updates[id := verdict];
      FeedConcat(CLOSED, before, j.calls, cfg.threshold);
      RunNext(o, order, clauses, cfg, i);
      i := i + 1;
    }
    assert order[..i] == order;
    if cb.tripped {
      errorCount := 1;
    }
  }
}
