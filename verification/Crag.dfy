/** Node 3, CRAG retrieval: an embedding call a clause behind a circuit breaker, then the better of
    the shared and the user's own clause KB, or the web. */
module Crag {
  import opened ContractState
  import opened Options
  import opened CircuitBreaker

  /** What a KB search gives: its snippets and the best (clamped) cosine. */
  datatype Retrieval = Retrieval(snippets: seq<string>, topScore: real)

  /** The outside world, clause by clause: does the embedding succeed, what do the two KBs hold
      for it (`None`: that KB is not available), what does the web return. */
  datatype Oracle = Oracle(
    embeds: string -> bool,
    base: string -> Option<Retrieval>,
    user: string -> Option<Retrieval>,
    web: string -> seq<string>)

  datatype Config = Config(threshold: int, confidence: real, maxSnippets: nat)

  /** The three evidence fields; all `None` for a clause without text. */
  datatype Evidence = Evidence(confidence: Option<real>, path: Option<RetrievalPath>, snippets: Option<seq<string>>)

  const UNSCORABLE := Evidence(None, None, None)

  function Best(base: Option<Retrieval>, user: Option<Retrieval>): real {
    match (base, user)
    case (None, None) => 0.0
    case (Some(b), None) => b.topScore
    case (None, Some(u)) => u.topScore
    case (Some(b), Some(u)) => if b.topScore >= u.topScore then b.topScore else u.topScore
  }

  function Capped(snippets: seq<string>, cfg: Config): seq<string> {
    if |snippets| > cfg.maxSnippets then snippets[..cfg.maxSnippets] else snippets
  }

  function SnippetsOf(r: Option<Retrieval>): seq<string> {
    match r
    case None => []
    case Some(x) => x.snippets
  }

  /** Both KBs' snippets, the stronger source first; the user's own KB wins a tie. */
  function LocalSnippets(base: Option<Retrieval>, user: Option<Retrieval>): seq<string> {
    if user.Some? && (base == None || user.value.topScore >= base.value.topScore)
    then user.value.snippets + SnippetsOf(base)
    else SnippetsOf(base) + SnippetsOf(user)
  }

  /** The evidence for a clause with text, given whether a query vector was obtained. */
  function Gathered(o: Oracle, id: string, vector: bool, cfg: Config): Evidence {
    if !vector then
      Evidence(None, Some(WebFallback), Some(Capped(o.web(id), cfg)))
    else
      var best := Best(o.base(id), o.user(id));
      if (o.base(id).Some? || o.user(id).Some?) && best >= cfg.confidence
      then Evidence(Some(best), Some(LocalKb), Some(Capped(LocalSnippets(o.base(id), o.user(id)), cfg)))
      else Evidence(Some(best), Some(WebFallback), Some(Capped(o.web(id), cfg)))
  }

  /** A clause's evidence; once the breaker is open no vector is asked for. */
  function ClauseEvidence(o: Oracle, id: string, record: Record, open: bool, cfg: Config): Evidence {
    if IsBlank(record) then UNSCORABLE else Gathered(o, id, !open && o.embeds(id), cfg)
  }

  datatype Progress = Progress(updates: map<string, Evidence>, cb: Breaker, calls: seq<bool>)

  function Run(o: Oracle, order: seq<string>, clauses: Clauses, cfg: Config): Progress
    requires forall id | id in order :: id in clauses
  {
    if order == [] then
      Progress(map[], CLOSED, [])
    else
      var id := order[|order| - 1];
      var before := Run(o, order[..|order| - 1], clauses, cfg);
      var updates := before.updates[id := ClauseEvidence(o, id, clauses[id], before.cb.open, cfg)];
      if IsBlank(clauses[id]) || before.cb.open then
        before.(updates := updates)
      else
        Progress(updates,
                 Accounted(before.cb, o.embeds(id), cfg.threshold),
                 before.calls + [o.embeds(id)])
  }

  lemma RunNext(o: Oracle, order: seq<string>, clauses: Clauses, cfg: Config, i: nat)
    requires i < |order| && forall id | id in order :: id in clauses
    ensures var before, after := Run(o, order[..i], clauses, cfg), Run(o, order[..i + 1], clauses, cfg);
            var id := order[i];
            && after.updates == before.updates[id := ClauseEvidence(o, id, clauses[id], before.cb.open, cfg)]
            && after.cb == if IsBlank(clauses[id]) || before.cb.open then before.cb
                           else Accounted(before.cb, o.embeds(id), cfg.threshold)
  {
    assert order[..i + 1][..i] == order[..i];
  }

  /** The live progress of one clause. */
  datatype Emit = Emit(index: int, total: int, clauseType: Option<string>, path: Option<RetrievalPath>,
                       confidence: Option<real>)

  function EmitFor(index: int, total: int, record: Record, e: Evidence): Emit {
    Emit(index, total, ClauseTypeOf(record), e.path, e.confidence)
  }

  /** The messages so far, one a clause in order, agree with the evidence stored for the clauses. */
  ghost predicate Agrees(emitted: seq<Emit>, order: seq<string>, clauses: Clauses, updates: map<string, Evidence>) {
    |emitted| <= |order| && forall i | 0 <= i < |emitted| ::
      order[i] in clauses && order[i] in updates
      && emitted[i] == EmitFor(i + 1, |order|, clauses[order[i]], updates[order[i]])
  }

  lemma AgreesStep(emitted: seq<Emit>, order: seq<string>, clauses: Clauses, updates: map<string, Evidence>,
                   e: Evidence)
    requires Enumerates(order, clauses) && |emitted| < |order| && Agrees(emitted, order, clauses, updates)
    ensures var id := order[|emitted|];
            Agrees(emitted + [EmitFor(|emitted| + 1, |order|, clauses[id], e)], order, clauses, updates[id := e])
  {
  }

  /** The embedding call, unless the circuit is open, and what it does to the two locals. */
  method TryEmbedding(o: Oracle, id: string, failures: nat, open: bool, cfg: Config)
    returns (vector: bool, consecutiveFailures: nat, circuitOpen: bool)
    ensures vector == (!open && o.embeds(id))
    ensures var b := Breaker(failures, open, open);
            Breaker(consecutiveFailures, circuitOpen, circuitOpen) ==
              if open then b else Accounted(b, o.embeds(id), cfg.threshold)
  {
    vector, consecutiveFailures, circuitOpen := false, failures, open;
    if !circuitOpen {
      vector := o.embeds(id);
      if !vector {
        consecutiveFailures := consecutiveFailures + 1;
        if consecutiveFailures >= cfg.threshold {
          circuitOpen := true;
        }
      } else {
        consecutiveFailures := 0;
      }
    }
  }

  /** The path of one clause, and the evidence for it. */
  method GatherEvidence(o: Oracle, id: string, vector: bool, cfg: Config) returns (evidence: Evidence)
    ensures evidence == Gathered(o, id, vector, cfg)
  {
    var confidence, path, snippets;
    if !vector {
      confidence, path := None, WebFallback;
    } else {
      var base, user := o.base(id), o.user(id);
      if base == None && user == None {
        confidence, path := Some(0.0), WebFallback;
      } else {
        confidence := Some(Best(base, user));
        path := if confidence.value >= cfg.confidence then LocalKb else WebFallback;
      }
    }
    if path == LocalKb {
      snippets := LocalSnippets(o.base(id), o.user(id));
    } else {
      snippets := o.web(id);
    }
    return Evidence(confidence, Some(path), Some(Capped(snippets, cfg)));
  }

  /** The node: the evidence of every clause, and with a stream writer one progress message a clause, in
      order, that agrees with the evidence stored for it. */
  method CragRetrievalAgent(o: Oracle, ingestError: bool, order: seq<string>, clauses: Clauses, cfg: Config,
                            writer: bool)
    returns (updates: map<string, Evidence>, emitted: seq<Emit>)
    requires Enumerates(order, clauses)
    ensures updates == if ingestError then map[] else Run(o, order, clauses, cfg).updates
    ensures |emitted| == if ingestError || !writer then 0 else |order|
    ensures Agrees(emitted, order, clauses, updates)
  {
    updates, emitted := map[], [];
    if ingestError || order == [] {
      return;
    }
    var consecutiveFailures: nat, circuitOpen := 0, false;
    for i := 0 to |order|
      invariant updates == Run(o, order[..i], clauses, cfg).updates
      invariant Run(o, order[..i], clauses, cfg).cb == Breaker(consecutiveFailures, circuitOpen, circuitOpen)
      invariant |emitted| == if writer then i else 0
      invariant Agrees(emitted, order, clauses, updates)
    {
      RunNext(o, order, clauses, cfg, i);
      var id := order[i];
      if IsBlank(clauses[id]) {
        if writer {
          AgreesStep(emitted, order, clauses, updates, UNSCORABLE);
          emitted := emitted + [Emit(i + 1, |order|, ClauseTypeOf(clauses[id]), None, None)];
        }
        updates := updates[id := UNSCORABLE];
        continue;
      }
      var vector;
      vector, consecutiveFailures, circuitOpen := TryEmbedding(o, id, consecutiveFailures, circuitOpen, cfg);
      var evidence := GatherEvidence(o, id, vector, cfg);
      if writer {
        AgreesStep(emitted, order, clauses, updates, evidence);
        emitted := emitted + [Emit(i + 1, |order|, ClauseTypeOf(clauses[id]), evidence.path, evidence.confidence)];
      }
      updates := updates[id := evidence];
    }
    assert order[..|order|] == order;
  }

  // ----- properties -----------------------------------------------------------------------------

  lemma {:induction false} BreakerFollowsCalls(o: Oracle, order: seq<string>, clauses: Clauses, cfg: Config)
    requires forall id | id in order :: id in clauses
    ensures var r := Run(o, order, clauses, cfg);
            r.cb == After(r.calls, cfg.threshold) && Quiet(r.calls, cfg.threshold) && |r.calls| <= |order|
    decreases |order|
  {
    if order != [] {
      var n := |order| - 1;
      BreakerFollowsCalls(o, order[..n], clauses, cfg);
      var before := Run(o, order[..n], clauses, cfg);
      if !IsBlank(clauses[order[n]]) && !before.cb.open {
        QuietStep(before.calls, o.embeds(order[n]), cfg.threshold);
        FeedStep(CLOSED, before.calls, o.embeds(order[n]), cfg.threshold);
      }
    }
  }

  /** The embedding breaker is determined by the embedding calls; no call follows its opening, and
      it is open exactly when the last calls are the needed consecutive failures. */
  lemma RunTrace(o: Oracle, order: seq<string>, clauses: Clauses, cfg: Config)
    requires forall id | id in order :: id in clauses
    ensures var r := Run(o, order, clauses, cfg);
            && r.cb == After(r.calls, cfg.threshold)
            && Quiet(r.calls, cfg.threshold)
            && |r.calls| <= |order|
            && (r.cb.open <==> r.calls != [] && FailureRun(r.calls, |r.calls| - 1, Needed(cfg.threshold)))
  {
    BreakerFollowsCalls(o, order, clauses, cfg);
    QuietTraceEndsAtOpening(Run(o, order, clauses, cfg).calls, cfg.threshold);
  }

  /** At least one of the two KBs is available for the clause. */
  predicate HasKb(o: Oracle, id: string) {
    o.base(id).Some? || o.user(id).Some?
  }

  /** What every clause's evidence satisfies, whatever the oracle answers: blank clauses get none; there is a
      confidence unless no vector was obtained; and the local path is taken exactly when the confidence is
      at the threshold and there is a KB. */
  ghost predicate WellFormed(e: Evidence, o: Oracle, id: string, record: Record, cfg: Config) {
    && (e == UNSCORABLE <==> IsBlank(record))
    && (e != UNSCORABLE ==>
          && e.path.Some? && e.snippets.Some?
          && FirstOf(e.snippets.value, if e.path == Some(LocalKb) then BothKbs(o, id) else o.web(id), cfg)
          && (e.path == Some(LocalKb) <==>
                HasKb(o, id) && e.confidence.Some? && e.confidence.value >= cfg.confidence)
          && (e.confidence.Some? ==> IsBest(e.confidence.value, o.base(id), o.user(id))))
  }

  /** The first of the snippets, cut exactly at the limit. */
  ghost predicate FirstOf(snippets: seq<string>, all: seq<string>, cfg: Config) {
    snippets <= all && |snippets| == if |all| <= cfg.maxSnippets then |all| else cfg.maxSnippets
  }

  /** What both KBs have, the better one first; on a tie, or alone, the user's own. */
  function BothKbs(o: Oracle, id: string): seq<string> {
    match (o.base(id), o.user(id))
    case (None, None) => []
    case (Some(b), None) => b.snippets
    case (None, Some(u)) => u.snippets
    case (Some(b), Some(u)) => if u.topScore < b.topScore then b.snippets + u.snippets else u.snippets + b.snippets
  }

  /** The greater of the scores there are, and 0 if there are none. */
  ghost predicate IsBest(score: real, base: Option<Retrieval>, user: Option<Retrieval>) {
    && (base.Some? ==> base.value.topScore <= score) && (user.Some? ==> user.value.topScore <= score)
    && (|| (base.Some? && score == base.value.topScore) || (user.Some? && score == user.value.topScore)
        || (base.None? && user.None? && score == 0.0))
  }

  lemma ClauseWellFormed(o: Oracle, id: string, record: Record, open: bool, cfg: Config)
    ensures WellFormed(ClauseEvidence(o, id, record, open, cfg), o, id, record, cfg)
  {
  }

  lemma {:induction false} RunEvidence(o: Oracle, order: seq<string>, clauses: Clauses, cfg: Config)
    requires forall id | id in order :: id in clauses
    ensures var updates := Run(o, order, clauses, cfg).updates;
            && (forall id :: id in updates <==> id in order)
            && (forall id | id in updates :: WellFormed(updates[id], o, id, clauses[id], cfg))
    decreases |order|
  {
    if order != [] {
      var n := |order| - 1;
      RunEvidence(o, order[..n], clauses, cfg);
      ClauseWellFormed(o, order[n], clauses[order[n]], Run(o, order[..n], clauses, cfg).cb.open, cfg);
      assert order == order[..n] + [order[n]];
    }
  }

  /** A clause with text has a confidence only if it could be embedded, and always then while the breaker
      is closed. */
  lemma {:induction false} RunConfidences(o: Oracle, order: seq<string>, clauses: Clauses, cfg: Config, id: string)
    requires (forall id | id in order :: id in clauses) && id in Run(o, order, clauses, cfg).updates
    ensures var r := Run(o, order, clauses, cfg);
            && id in clauses
            && (r.updates[id].confidence.Some? ==> o.embeds(id) && !IsBlank(clauses[id]))
            && (o.embeds(id) && !IsBlank(clauses[id]) && !r.cb.open ==> r.updates[id].confidence.Some?)
    decreases |order|
  {
    var n := |order| - 1;
    if order[n] != id {
      RunConfidences(o, order[..n], clauses, cfg, id);
    }
  }

  /** The second oracle only has more user KB: the embedding, the base KB and the web agree. */
  ghost predicate AddsUserKb(a: Oracle, b: Oracle) {
    forall id ::
      && b.embeds(id) == a.embeds(id) && b.base(id) == a.base(id) && b.web(id) == a.web(id)
      && (a.user(id).Some? ==>
            b.user(id).Some? && b.user(id).value.topScore >= a.user(id).value.topScore)
      && (b.user(id).Some? ==> b.user(id).value.topScore >= 0.0)
  }

  ghost predicate AtLeast(a: Evidence, b: Evidence) {
    && (a.path == Some(LocalKb) ==> b.path == Some(LocalKb))
    && (a.confidence.Some? <==> b.confidence.Some?)
    && (a.confidence.Some? ==> b.confidence.value >= a.confidence.value)
  }

  lemma ClauseAtLeast(a: Oracle, b: Oracle, id: string, record: Record, open: bool, cfg: Config)
    requires AddsUserKb(a, b)
    ensures AtLeast(ClauseEvidence(a, id, record, open, cfg), ClauseEvidence(b, id, record, open, cfg))
  {
    assert b.embeds(id) == a.embeds(id) && b.base(id) == a.base(id);
    BestGrows(a.base(id), a.user(id), b.user(id));
  }

  lemma BestGrows(base: Option<Retrieval>, user: Option<Retrieval>, more: Option<Retrieval>)
    requires user.Some? ==> more.Some? && more.value.topScore >= user.value.topScore
    requires more.Some? ==> more.value.topScore >= 0.0
    ensures Best(base, more) >= Best(base, user)
  {
  }

  /** A growing user KB never costs a local hit: over the whole run every clause's confidence is at
      least what it was, every clause served locally still is, and the breaker is the same. */
  lemma {:induction false} UserKbOnlyAddsLocalHits(a: Oracle, b: Oracle, order: seq<string>, clauses: Clauses,
                        cfg: Config)
    requires (forall id | id in order :: id in clauses) && AddsUserKb(a, b)
    ensures var ra, rb := Run(a, order, clauses, cfg), Run(b, order, clauses, cfg);
            && ra.cb == rb.cb && ra.calls == rb.calls && ra.updates.Keys == rb.updates.Keys
            && forall id | id in ra.updates :: AtLeast(ra.updates[id], rb.updates[id])
    decreases |order|
  {
    if order != [] {
      var n := |order| - 1;
      UserKbOnlyAddsLocalHits(a, b, order[..n], clauses, cfg);
      ClauseAtLeast(a, b, order[n], clauses[order[n]], Run(a, order[..n], clauses, cfg).cb.open, cfg);
      assert b.embeds(order[n]) == a.embeds(order[n]);
    }
  }
}
