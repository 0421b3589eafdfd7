# ContractSentinel: a verified model

ContractSentinel analyses contracts with a graph of agents, runs the analyses as durable background jobs,
and serves them over an HTTP API.  This project models the parts of it that have state, interleaving or
arithmetic of their own, and proves what they promise.  `dafny verify dfyconfig.toml` checks everything.

## What is modelled

**The life of a job.**  `Pipeline` is the streaming loop that reports each node of the graph once, on fresh
and on resumed runs.  `JobRecord` is a job's record with its write-through to the store and the worker's run of
one job.  `Graph` is the graph of nodes and its paths.  `Recovery` puts row, checkpoint thread and a succession of
processes that may end at any step into one transition system; `RecoveryCheckpoints`, `RecoveryPrefix` and
`RecoveryHistories` say what holds of its histories, and exactly when.  `Eviction` is the two-prune retention
protocol of the registry against concurrent write-throughs, and `Events` the publish and subscribe buffer between
the worker thread and the event loop.

**The per-clause nodes.**  `CircuitBreaker` is the breaker the nodes share, characterised by the trace of
calls.  `SelfRag` (with `SelfRagProperties`), `RiskScore`, `Redline` and `Crag` are the four nodes, and
`FindingsFlow` composes nodes 4 to 6 through the reducer of `ContractState`.

**The evaluation harness.**  `Matcher` is the greedy one-to-one matching, `Scorer` the detection and severity
tallies, `Statistics` percentiles, rates and bootstrap intervals, `Quotas` (with `Sorting`) the stratified
sample of the miss triage.

**Windows in time.**  `Lockout` is the per-account lockout with the login route, `RateLimit` the sliding-window
limiter.

**Data kept twice.**  `UserKb` is the learned knowledge base with its index and sidecar files; `RiskSummary` and
`Dashboard` are the risk columns on job rows, the live report reads they stand for, and the dashboard figures.

`Options` and `Ranges` hold what several modules use.

Code that works step by step is a method or a class with the same loops and branches, proved against a function
of its inputs or of the old state; the properties are lemmas about that function.  Threads are transition
systems whose steps are atomic where the code holds a lock.

## Assumptions

- Language models, embeddings, web search, the random generator and the clock are oracles: a call returns any
  answer or none, a draw any rows, and time does not go back.
- `stream(None)` first yields the last checkpointed state again and then continues.  The input of a fresh run is
  merged into the saved state of its thread, if there is one and the checkpointer is on; the first yield is the
  result, and `current_node`, which is not part of the input, still names the old last node in it.  The graph runs a
  node only when the loop asks for the next yield.  Checkpoints, that of the input first, are saved in order and
  perhaps late, but not after the process ended.  A saved state holds where its node led; nodes that run again may
  decide differently.
- `submitted_at` differs between jobs.  `add` and the HTTP handlers run on one loop thread, and a job is submitted
  once per process.
- The loop runs scheduled callbacks in the order they were scheduled, and there is one publisher per job.
- A file replace is atomic, and so is a statement or transaction on the store.
- Scores, times and rates are real numbers, the rounding of floating point left aside.

## What turned out otherwise

- **`completed_nodes` is not always a prefix of the path.**  When a checkpointed job is recovered with the
  checkpointer off it is reset, but its old checkpoint stays.  With the checkpointer on again, a resume from it may
  record a node ahead of its turn (`RecoveryHistories.StaleCheckpointSkipsNode`), and a fresh run first records the
  last node of the life before (`RecoveryHistories.FreshRunNamesOldNode`).  The exact conditions are in
  `RecoveryPrefix`: `AlwaysPrefixIffGuarded` for a job that always takes the same path, `AlwaysGoodIffSafeOpens` for
  nodes that decide anew.  `RecoveryHistories.PromptAndCarefulIsSafe` is a sufficient practice.
- **Fields left over.**  The clauses in such a thread also keep the fields of the life before, and a severity or a
  rewrite among them may outlive the finding; `FindingsFlow.FindingsInvariant` says exactly when it does.
- **Checkpoints and rows.**  By the same switch a queued row can have a checkpoint
  (`RecoveryCheckpoints.AlwaysCleanIffCareful`), a fresh run can be fed into its old thread
  (`RecoveryCheckpoints.NeverFedTwiceIff`), and a checkpoint can be more than one node ahead of the record
  (`RecoveryCheckpoints.AtMostOneAheadIffShallowResets`), each with its exact condition.
- **Unparseable `risk_by_type`.**  The comment at `backend/app/runner/risk_summary.py:93-94` promises a fall-back to
  the live report.  The store has by then turned the column into an absent value
  (`backend/app/runner/store.py:22-30`), which reads as an empty table.  The model follows the code;
  `RiskSummary.DamagedRowAgreesIff` says when that does no harm.
- **Knowledge base loads that overlap an append** are safe exactly as long as no append was ever cut between its two
  file replaces (`UserKb.AlwaysAlignedIffNoGap`); and once one was, the knowledge base stays unreadable to
  every load that does not overlap an append (`UserKb.GapIsForever`).
- **The merged judgment path** does not agree with the sequential one over all runs
  (`SelfRagProperties.PathsPartOnceOpen`).  It does exactly when every clause judged while only the sequential breaker
  is open has no relevance answer (`SelfRagProperties.RunsAgreeIff`).
- **Dead branches in Self-RAG.**  The breaker tests at lines 377 and 431 of
  `backend/app/graph/nodes/self_rag_validation_agent.py` never succeed, nor is line 225 reached, since its caller has
  already asked for the same set.  The methods assert the first two; `SelfRag.BranchARescue` requires the caller's test.
- **The lockout bound** holds exactly for configurations with a lock at least as long as the window
  (`Lockout.BoundedIffLongLock`).

## Model

| member | source | states |
|---|---|---|
| `Pipeline.RunPipeline` | backend/app/runner/core.py:147-182 | The streaming loop with its `seen` set and `last_node`: progress, clause payloads and final state are those of the fold over all yields |
| `Pipeline.ReportsFirstOccurrences` | backend/app/runner/core.py:168-182 | For every stream the nodes reported are exactly the first occurrences of nodes not completed before; `node != last_node` is implied by `node not in seen` |
| `Pipeline.FirstSeenDistinct` | backend/app/runner/core.py:147-170 | No node is reported twice, and none that was already completed |
| `Pipeline.ReportedAtFirst` | backend/app/runner/core.py:166-180 | Each report is made at the first yield that names its node, with the stage of that node and its time where the state has one |
| `Pipeline.FinalIsLast` | backend/app/runner/core.py:166-166 | The final state is the last one yielded, whatever payloads follow; none if there is none |
| `Pipeline.ClausesArePayloads` | backend/app/runner/core.py:158-162 | Every clause payload reaches the callback, in order |
| `Graph.PathIndex` | backend/app/runner/progress.py:11-27 | On every path of the graph the i-th node has stage index i + 1 |
| `Graph.WalkShape` | backend/app/graph/builder.py:49-139 | No path of the graph repeats a node, and every one has one stage (ingest error) or all seven |
| `Graph.WalkExtends` | backend/app/graph/builder.py:49-139 | Every beginning of a path can be completed, so being a beginning of some path is a property of the edges alone |
| `Pipeline.RunCompletesIff` | backend/app/runner/core.py:122-182 | A run, fresh or resumed, completes the record to exactly the path if and only if the node that its first yield names, if any, is one the record has or the next after it |
| `Pipeline.InTurnIff` | backend/app/runner/core.py:122-125 | For a resume that starts by naming its k-th node again that means a checkpoint at most one node ahead of the record |
| `JobRecord.JobStore.Upsert` | backend/app/runner/store.py:81-110 | A new row is stored whole; on conflict the five columns that are set once keep their stored values and every other one takes the new; rows of other jobs are untouched |
| `JobRecord.Record.FromRow` | backend/app/runner/registry.py:267-291 | A rehydrated record writes its row back unchanged, up to canonical risk columns |
| `JobRecord.WrittenRowsAreCanonical` | backend/app/runner/registry.py:98-118 | Rows written by a record, encoded and decoded, have canonical risk columns, so rehydration is exact on them |
| `JobRecord.Record.Persist` | backend/app/runner/registry.py:120-123 | Write-through when there is a store handle; otherwise the store is untouched |
| `JobRecord.Record.MarkRunning` | backend/app/runner/registry.py:132-136 | Status and start time, written through; nothing else changes |
| `JobRecord.Record.RecordProgress` | backend/app/runner/registry.py:138-142 | One node appended and made current, written through |
| `JobRecord.Record.MarkTerminal` | backend/app/runner/registry.py:180-197 | Terminal status, outcome and risk columns, written through |
| `JobRecord.Record.ResetForRerun` | backend/app/runner/registry.py:248-260 | Back to queued with no progress, written through; report, delivery and risk columns stay |
| `JobRecord.RecordStream` | backend/app/runner/worker.py:89-100 | Each reported node is recorded, in order, in the record and in the store |
| `JobRecord.RunOne` | backend/app/runner/worker.py:76-180 | One run of the worker, fresh or resumed, returning, raising, or raising after the job was marked completed: the whole final row, in the record and in the store, and the events published |
| `JobRecord.StreamOfRun` | backend/app/runner/worker.py:109-126 | A run sees its whole stream, or as much of it as there was before the exception |
| `JobRecord.RunEnds` | backend/app/runner/worker.py:136-180 | A run ends completed with its own result if it returned, and otherwise failed with `runner_exception`, its message and nothing of a result; the set-once columns are unchanged |
| `JobRecord.ReturnedStoresSummary` | backend/app/runner/worker.py:141-157 | The summary a returned run computed is what the store gives back |
| `JobRecord.LastEventIsTerminal` | backend/app/runner/worker.py:156-180 | Whatever happens the last event of a run is terminal, `completed` exactly when it returned, after one event per reported node in order; only an exception after the announcement makes a second terminal one |
| `JobRecord.FreshRowHasPathIff` | backend/app/runner/worker.py:82-100 | A fresh run that returns leaves exactly the path in `completed_nodes` if and only if its first yield names no node or the first one; on a thread with a saved state it names the old last node |
| `JobRecord.ResumedRowHasPathIff` | backend/app/runner/worker.py:85-100 | A resumed run that returns leaves exactly the path if and only if the node that its first yield names is in turn, which with nodes done is a checkpoint at most one node ahead of the record |
| `Recovery.RecoverAll` | backend/app/api/main.py:45-54 | Recovery submits exactly the nonterminal jobs, in order, each flagged to resume if and only if it is running, there is a checkpointer and its thread has a checkpoint; each other one is back to queued with no node, time or error and otherwise as it was; no other row changes |
| `Recovery.RecoverRefines` | backend/app/api/main.py:45-54 | What the loop does to a row, and the flag it submits, are those of the recovery step of the transition system on its slice |
| `Recovery.StepsOfTheRow` | backend/app/runner/worker.py:76-180 | Which steps change the row and how: the status of each, at most one node more from a handled yield, and nothing from any other step |
| `Recovery.StepsOfTheProcess` | backend/app/api/main.py:39-54 | A boot lists a nonterminal row, the end of a process keeps row and thread only, and the thread changes only when a checkpoint of the run is saved |
| `Recovery.InvStep` | backend/app/runner/worker.py:76-180 | Every step of boot, crash, add, recover, submit, start, stream, node, checkpoint, completion and failure keeps the lifecycle invariant, whatever the checkpointer switch does; the input of a fresh run is merged into the saved state of its thread, and every checkpoint may be late |
| `Recovery.RunInvFrom` | backend/app/api/main.py:39-54 | The lifecycle invariant holds after every sequence of steps |
| `RecoveryCheckpoints.EveryHistory` | backend/app/runner/core.py:147-182 | Over every history no node is recorded twice, a queued row has no progress, and a run about to resume has a checkpoint and a checkpointer |
| `RecoveryCheckpoints.TerminalIsFinal` | backend/app/runner/store.py:118-126 | A terminal job that no worker holds is never listed, submitted, run or changed again |
| `RecoveryCheckpoints.AlwaysCleanIffCareful` | backend/app/api/main.py:47-53 | Over every history: no queued row ever has a checkpoint if and only if no listed job with a checkpoint is recovered while the checkpointer is off |
| `RecoveryCheckpoints.SteadyIsCareful` | backend/app/api/main.py:72 | A checkpointer that is on at every boot, or off at every boot, is enough |
| `RecoveryCheckpoints.NeverFedTwiceIff` | backend/app/runner/worker.py:82-88 | With the checkpointer on from now on, no fresh run is ever fed into a thread with a saved state if and only if none has been and none lies ahead, which the state shows |
| `RecoveryCheckpoints.AtMostOneAheadIffShallowResets` | backend/app/api/main.py:45-54 | Over every history: the checkpoint is at most one node ahead of the record if and only if no job with two or more nodes behind its checkpoint is reset |
| `RecoveryPrefix.AlwaysPrefixIffGuarded` | backend/app/runner/core.py:147-182 | A job that always takes the same path, over every history of crashes, boots and resumes: `completed_nodes` is always a prefix of the path, and all of it when completed, if and only if the first yield of every run, fresh or resumed, names a node at most one stage ahead of the record, if any |
| `RecoveryPrefix.OpenSafeIff` | backend/app/runner/core.py:122-182 | When nodes decide anew: every continuation of a run that has just been opened, fresh or resumed, keeps the record a beginning of a path if and only if the state it starts from is safe for the record |
| `RecoveryPrefix.SafeWithNodesIff` | backend/app/runner/core.py:122-125 | Which lag is harmless: a state with nodes behind it is safe exactly when it is one node ahead of the record it agrees with, or is behind it and the stream will only repeat it, with no routing decision to take again |
| `RecoveryPrefix.SafeWithoutNodesIff` | backend/app/runner/core.py:137-145 | A state with only its input is safe exactly when the node it still names, if any, leaves the record a beginning of a path and no routing decision of that record is to be taken again |
| `RecoveryPrefix.FreshOpenSafeIff` | backend/app/runner/core.py:137-145 | A fresh run is safe to open exactly when its thread has no saved state, or one that names no node or the first, or the checkpointer is off |
| `RecoveryPrefix.AlwaysGoodIffSafeOpens` | backend/app/runner/core.py:147-182 | Over every history, with nodes free to decide anew: the record is a beginning of a path, and a whole path when completed, at all times and however each run may go on, if and only if every run, fresh or resumed, is opened in a state safe for the record |
| `RecoveryHistories.PromptAndCarefulIsSafe` | backend/app/api/main.py:39-54 | Checkpoints saved before the next node runs, and a checkpointer that is on whenever a checkpointed job is recovered, make every start of a run safe |
| `RecoveryHistories.StaleCheckpointSkipsNode` | backend/app/api/main.py:45-54 | A failing history: on, off, on again resumes from a checkpoint of before the reset, and the record skips a node and is the beginning of no path |
| `RecoveryHistories.FreshRunNamesOldNode` | backend/app/runner/worker.py:82-88 | A failing history without any resumed run: a job reset with the checkpointer off is run afresh with it on, and the first node recorded is the last one of the life before |
| `Eviction.VictimCount` | backend/app/runner/store.py:158-175 | Pruning drops exactly the excess over `keep_max` |
| `Eviction.KeptIsNewer` | backend/app/runner/store.py:165-169 | Every row kept was submitted later than every row dropped |
| `Eviction.PruneAgainAgrees` | backend/app/runner/registry.py:338-341 | Pruning again, with any dropped rows back, keeps the same rows |
| `Eviction.JobRegistry.PopVictims` | backend/app/runner/registry.py:328-333 | The victims leave the live table in place; those that were in it are returned |
| `Eviction.JobRegistry.EvictByInsertion` | backend/app/runner/registry.py:315-320 | Without a store the last `max` jobs inserted stay live |
| `Eviction.JobRegistry.EvictPruned` | backend/app/runner/registry.py:322-346 | Prune, pop, null-out, prune, delete threads: the newest rows stay and exactly the dropped jobs lose their handle and their checkpoint thread |
| `Eviction.JobRegistry.Add` | backend/app/runner/registry.py:309-346 | The whole of `add` in both modes, with no write in between: rows, live table, handles and checkpoint threads |
| `Eviction.InvStep` | backend/app/runner/registry.py:309-341 | Every phase of `add`, and every write-through between phases, keeps the retention invariant |
| `Eviction.EveryRunInv` | backend/app/runner/registry.py:299-306 | From a new registry over any stored rows the invariant holds in every interleaving |
| `Eviction.AddKeepsNewest` | backend/app/runner/registry.py:322-341 | For every interleaving of write-throughs with the phases of `add`, the store ends as exactly the newest `max` of the old rows and the new one, each as last written; only their records can write; every dropped job is evicted |
| `Eviction.SecondPruneIsPartOfFirst` | backend/app/runner/registry.py:338-342 | The second prune removes only rows the first one had removed |
| `Eviction.EvictedForGood` | backend/app/runner/registry.py:334-336 | An evicted job never has a row, a live record or a store handle again |
| `Eviction.StepsOfTheStore` | backend/app/runner/registry.py:309-341 | An insert and a write-through store the row they bring, a write-through only through a handle, and only a prune removes rows |
| `Eviction.PruneKeepsLimit` | backend/app/runner/store.py:158-175 | The first prune leaves no more rows than the limit |
| `Eviction.StepsOfTheHandles` | backend/app/runner/registry.py:309-365 | Entering and rehydrating make a record live with a handle, the null-out takes the handle away |
| `Eviction.AddCanFinish` | backend/app/runner/registry.py:309-341 | From every state an `add` under way can be finished by its own steps |
| `Events.JobEventBuffer.Publish` | backend/app/runner/events.py:33-42 | Backlog, closed flag and one scheduled callback per subscriber, in order |
| `Events.JobEventBuffer.Subscribe` | backend/app/runner/events.py:44-58 | Backlog snapshot and registration together; no queue when the job is finished |
| `Events.JobEventBuffer.Unsubscribe` | backend/app/runner/events.py:60-66 | The first occurrence of the queue is removed; an unknown queue is ignored |
| `Events.EventGenerator` | backend/app/api/routes.py:272-291 | The backlog, then turn by turn what a client with its queue takes, up to a disconnect or through the first terminal event, and no subscription left behind |
| `Events.GeneratorYields` | backend/app/api/routes.py:275-288 | What is yielded is the backlog and then the arrivals from the first one on, none left out or swapped, and nothing after a terminal event |
| `Events.OneTurn` | backend/app/api/routes.py:277-288 | One turn: connected and with an event there, exactly the first one is yielded and taken out, and the client returns exactly on `completed` or `failed`; disconnected it returns, otherwise it waits |
| `Events.EveryArrivalIsYielded` | backend/app/api/routes.py:275-288 | A client that stays connected, with as many further turns as there are arrivals, has yielded the backlog and every arrival up to and including the first terminal one |
| `Events.TurnRefines` | backend/app/api/routes.py:279-288 | A turn of the generator is a number of callbacks of the loop and one step of the client in the transition system, with the arrivals being those callbacks that are its own |
| `Events.PublishRefines` | backend/app/runner/events.py:35-42 | The locked step and the per-queue scheduling steps amount to one call of `publish` |
| `Events.InvStep` | backend/app/runner/events.py:33-66 | Each atomic step of publisher, loop and clients keeps the delivery invariant |
| `Events.SeenIsPrefix` | backend/app/runner/events.py:4-12 | In every interleaving what a client has been given is a prefix of what was published |
| `Events.DrainedHasSeenAll` | backend/app/runner/events.py:41-42 | Once callbacks and queues are drained a subscribed client has been given everything |
| `Events.GetYields` | backend/app/api/routes.py:279-288 | A client step takes the first event of the queue, yields it, and ends the client exactly on a terminal one |
| `Events.EveryClientCanSeeAll` | backend/app/runner/events.py:4-12 | From every reachable state a client that has not returned can be brought to see the whole log by callbacks of the loop and its own turns alone |
| `Events.LateJoinerHasSeenAll` | backend/app/runner/events.py:51-55 | A client that joined a finished job and has been given its backlog has the whole log, whatever happened since, provided the publisher stops at its terminal event |
| `Events.TerminalComesLast` | backend/app/api/routes.py:286-288 | A client that has been given a terminal event has been given the whole log |
| `CircuitBreaker.Circuit.Account` | backend/app/graph/nodes/self_rag_validation_agent.py:455-476 | One call outcome: counter, open and tripped as the code sets them, and the call added to the trace |
| `CircuitBreaker.CounterIsTrailingFailures` | backend/app/graph/nodes/self_rag_validation_agent.py:462-476 | The counter is the number of failures the call trace ends with |
| `CircuitBreaker.OpenIffFailureRun` | backend/app/graph/nodes/self_rag_validation_agent.py:464-469 | The breaker is open if and only if the trace contains THRESHOLD consecutive failures |
| `CircuitBreaker.OpensAtFirstFailureRun` | backend/app/graph/nodes/self_rag_validation_agent.py:464-469 | It opens exactly at the first call that completes such a run |
| `CircuitBreaker.QuietTraceEndsAtOpening` | backend/app/graph/nodes/self_rag_validation_agent.py:333-340 | With no call after opening, the trace of an opened breaker ends with that run |
| `ContractState.MergeNestedClauseDicts` | backend/app/graph/state.py:22-32 | The reducer, missing sides included, is the nested right-biased merge |
| `ContractState.LastWriteWins` | backend/app/graph/state.py:22-32 | Field by field the right side wins, and what only one side has is kept |
| `ContractState.BlankIffStripped` | backend/app/graph/nodes/self_rag_validation_agent.py:149-160 | A clause is blank if and only if it has no text or stripping leaves nothing |
| `ContractState.MergeAssociative` | backend/app/graph/state.py:22-32 | The reducer is associative |
| `ContractState.MergeIdentity` | backend/app/graph/state.py:22-32 | The empty dict is its identity on both sides |
| `ContractState.MergeCommutesIffAgree` | backend/app/graph/state.py:22-32 | Two updates commute if and only if they agree on every clause field both set |
| `SelfRag.IssupLoop` | backend/app/graph/nodes/self_rag_validation_agent.py:423-452 | The ISSUP loop in place: verdict, retry count and calls; the breaker test at its head never succeeds |
| `SelfRag.BranchARescue` | backend/app/graph/nodes/self_rag_validation_agent.py:176-232 | Empty evidence, floor type: one relevance call decides |
| `SelfRag.BranchCMerged` | backend/app/graph/nodes/self_rag_validation_agent.py:246-321 | One combined call, then the decision table, missing keys included |
| `SelfRag.BranchCSequential` | backend/app/graph/nodes/self_rag_validation_agent.py:324-420 | Relevance, floor, ISREL, ISSUP loop; the breaker test before ISREL never succeeds |
| `SelfRag.ProcessClause` | backend/app/graph/nodes/self_rag_validation_agent.py:149-173 | The verdict of one clause and the calls it makes, for every record |
| `SelfRag.SelfRagValidationAgent` | backend/app/graph/nodes/self_rag_validation_agent.py:95-146 | Whole runs: the update map, and `error_count` exactly when the breaker tripped |
| `SelfRagProperties.RunTrace` | backend/app/graph/nodes/self_rag_validation_agent.py:99-101 | The breaker follows the call trace, no call follows its opening, and a run makes at most (2 + MAX_ATTEMPTS) calls per clause |
| `SelfRagProperties.BreakerOpensAtThreshold` | backend/app/graph/nodes/self_rag_validation_agent.py:462-469 | The breaker trips if and only if the last calls of the whole run are THRESHOLD consecutive failures |
| `SelfRagProperties.DiscardedIffRefused` | backend/app/graph/nodes/self_rag_validation_agent.py:149-452 | A clause is discarded if and only if it is blank, has neither evidence nor a floor type, or the breaker is closed and the model answered no; a failed call never discards |
| `SelfRagProperties.RunDiscards` | backend/app/graph/nodes/self_rag_validation_agent.py:99-101 | Whole runs: no clause is discarded without such a reason, and while the breaker stays closed every clause with one is |
| `SelfRagProperties.VerdictRecordsAnswers` | backend/app/graph/nodes/self_rag_validation_agent.py:176-452 | A judged clause records what the model said of relevance and evidence as far as it was asked, is discarded exactly when a recorded answer is no, and has a retry count exactly with an answer on support |
| `SelfRagProperties.IssupStopsAt` | backend/app/graph/nodes/self_rag_validation_agent.py:429-447 | The loop ends at the first attempt that is not a no: a yes after k attempts is k - 1 retries, a failed call validates without an answer |
| `SelfRagProperties.IssupRunsOut` | backend/app/graph/nodes/self_rag_validation_agent.py:448-452 | When every attempt is a no the clause is discarded with MAX_ATTEMPTS - 1 retries |
| `SelfRagProperties.CallsOfClause` | backend/app/graph/nodes/self_rag_validation_agent.py:246-452 | The calls of one clause: one merged or on relevance alone, otherwise one a question asked and one an attempt; failed exactly when unanswered |
| `SelfRagProperties.UnjudgedRecordsNothing` | backend/app/graph/nodes/self_rag_validation_agent.py:149-196 | A clause that is not judged records nothing and makes no call |
| `SelfRagProperties.FloorProtects` | backend/app/graph/nodes/self_rag_validation_agent.py:163-173 | A clause of a floor type with text is a finding unless the model says that it is not relevant, whatever the evidence |
| `SelfRagProperties.JudgedIff` | backend/app/graph/nodes/self_rag_validation_agent.py:149-173 | Judged are exactly the clauses with text and either at least one snippet or a floor type; the others make no call and are never findings |
| `SelfRagProperties.AheadKept` | backend/app/graph/nodes/self_rag_validation_agent.py:455-476 | "B is open, or neither is open and A has failed no more than B" is kept when B fails where A did or earlier |
| `SelfRagProperties.ClauseMonotone` | backend/app/graph/nodes/self_rag_validation_agent.py:149-232 | A clause VALIDATED by answers A is VALIDATED when some of them fail |
| `SelfRagProperties.FailuresOnlyValidate` | backend/app/graph/nodes/self_rag_validation_agent.py:149-476 | Whole runs, both paths: every clause VALIDATED under A is VALIDATED when any answers are replaced by failures |
| `SelfRagProperties.MergedClause` | backend/app/graph/nodes/self_rag_validation_agent.py:246-321 | From a closed breaker and one attempt the combined call gives the same verdict fields as the three calls, for every triple of answers |
| `SelfRagProperties.MergedRefinesSequential` | backend/app/graph/nodes/self_rag_validation_agent.py:324-452 | Whole runs: the merged path validates no clause that the sequential path discards, and its breaker is never the first to open |
| `SelfRagProperties.RunsAgreeIff` | backend/app/graph/nodes/self_rag_validation_agent.py:246-421 | Whole runs: the two paths give the same update map if and only if every clause judged while only the sequential breaker is open has no relevance answer |
| `SelfRagProperties.FailureFreeNeverOpens` | backend/app/graph/nodes/self_rag_validation_agent.py:455-476 | A run without failed calls never opens the breaker |
| `SelfRagProperties.MergedOneCallEach` | backend/app/graph/nodes/self_rag_validation_agent.py:246-257 | The merged path makes one call for each clause that needs judging |
| `SelfRagProperties.FailureFreeRunsAgree` | backend/app/graph/nodes/self_rag_validation_agent.py:324-331 | Failure-free runs of the two paths have equal update maps |
| `SelfRagProperties.PathsPartOnceOpen` | backend/app/graph/nodes/self_rag_validation_agent.py:263-264 | A run for which the condition of `RunsAgreeIff` fails: a missing key opens the breaker on the sequential path only, and the next clause is judged on the merged path only |
| `RiskScore.ScoreClause` | backend/app/graph/nodes/risk_score_agent.py:103-176 | One clause: skipped, defaulted or scored, and its effect on the breaker |
| `RiskScore.RiskScoreAgent` | backend/app/graph/nodes/risk_score_agent.py:60-218 | Whole runs: update map and `error_count` |
| `RiskScore.RunTrace` | backend/app/graph/nodes/risk_score_agent.py:112-149 | Blank and bulk-defaulted clauses are circuit-neutral; no call follows the opening |
| `RiskScore.BreakerOpensAtThreshold` | backend/app/graph/nodes/risk_score_agent.py:239-263 | The breaker trips exactly when the run ends its calls with THRESHOLD consecutive failures |
| `RiskScore.RunUpdates` | backend/app/graph/nodes/risk_score_agent.py:103-176 | Exactly the VALIDATED clauses get an update, always with a severity, and only the node's own fields |
| `RiskScore.SeverityHasSource` | backend/app/graph/nodes/risk_score_agent.py:127-176 | Every severity is the answer for its own clause, the rationale cut at the limit, or the marked default; when all calls are answered only blank clauses get the default |
| `Redline.RouteMatchesNode` | backend/app/graph/nodes/redline_agent.py:57-81 | `skip_redline` is taken if and only if the node would update nothing |
| `Redline.DraftClause` | backend/app/graph/nodes/redline_agent.py:138-208 | One clause: not eligible, blank, bulk-skipped, failed or rewritten |
| `Redline.RedlineAgent` | backend/app/graph/nodes/redline_agent.py:84-246 | Whole runs: update map, counts and `error_count` |
| `Redline.RunTrace` | backend/app/graph/nodes/redline_agent.py:145-179 | Blank and bulk-skipped clauses are circuit-neutral; no call follows the opening |
| `Redline.BreakerOpensAtThreshold` | backend/app/graph/nodes/redline_agent.py:263-287 | The breaker trips exactly when the run ends its calls with THRESHOLD consecutive failures |
| `Redline.RunUpdates` | backend/app/graph/nodes/redline_agent.py:138-208 | A `suggested_rewrite` is set for exactly the eligible clauses, and nothing else is |
| `Redline.RunCounts` | backend/app/graph/nodes/redline_agent.py:122-208 | eligible = rewritten + failed + empty_text + bulk_skipped, and the update map has one entry per eligible clause |
| `Redline.RewritesComeFromDrafts` | backend/app/graph/nodes/redline_agent.py:168-202 | Every rewrite is the draft for its own clause, cut only at the limit, and `rewritten` counts the clauses that have one |
| `Redline.StepUsesDraft` | backend/app/graph/nodes/redline_agent.py:138-208 | An eligible clause with text reached with the breaker closed makes one call: an answer becomes the rewrite, cut exactly at the limit and counted as rewritten, a failure leaves null and is counted as failed; no other clause makes a call |
| `Redline.RunUsesDrafts` | backend/app/graph/nodes/redline_agent.py:138-208 | Whole runs: a clause with text and a draft has that draft unless the breaker had opened, every other eligible one null; `rewritten` and `failed` count the answered and the failed calls |
| `Redline.AnsweredRun` | backend/app/graph/nodes/redline_agent.py:168-208 | When every call is answered the breaker stays closed, nothing fails or is skipped, and every eligible clause with text has its own draft |
| `FindingsFlow.RunNodes` | backend/app/graph/builder.py:82-136 | Nodes 4 to 6 with the reducer and the conditional edge, as code: end state, branch and error count |
| `FindingsFlow.SkippedNodeIsSilent` | backend/app/graph/nodes/redline_agent.py:249-260 | On the skip branch the skipped node would have made no call and tripped nothing |
| `FindingsFlow.JudgedClause` | backend/app/graph/nodes/self_rag_validation_agent.py:139-146 | Node 4 changes its five fields only |
| `FindingsFlow.ScoredClause` | backend/app/graph/nodes/risk_score_agent.py:168-176 | Node 5 changes its own fields only, and those of VALIDATED clauses only |
| `FindingsFlow.DraftedClause` | backend/app/graph/nodes/redline_agent.py:138-202 | Node 6 changes `suggested_rewrite` only, of eligible clauses only |
| `FindingsFlow.FindingsInvariant` | backend/app/graph/state.py:22-32 | End to end, for every clause and whatever fields it came with: VALIDATED as judged and then with a severity, fields of earlier nodes unchanged; and `risk_level` is set iff VALIDATED and `suggested_rewrite` present iff that level is in the threshold, if and only if a severity it came with belongs to a VALIDATED clause and a rewrite it came with to an eligible one |
| `FindingsFlow.EveryFindingIsDrafted` | backend/app/graph/nodes/redline_agent.py:57-81 | With every level in the threshold, each VALIDATED clause has a rewrite and no other gets one, and `skip_redline` iff no clause is VALIDATED |
| `Crag.CragRetrievalAgent` | backend/app/graph/nodes/crag_retrieval_agent.py:103-324 | Whole runs: the evidence of every clause, with the breaker kept in two locals; and with a stream writer one message a clause, numbered, that agrees with the stored path and confidence |
| `Crag.RunTrace` | backend/app/graph/nodes/crag_retrieval_agent.py:197-216 | The embedding breaker follows the embedding calls, opens exactly at the needed consecutive failures, and no embedding is tried after |
| `Crag.RunEvidence` | backend/app/graph/nodes/crag_retrieval_agent.py:218-272 | Every clause gets well-formed evidence: local path iff a KB is available and the confidence is at the threshold, the confidence the greatest of the scores there are, the snippets the first of that path's own with the better KB ahead, blank text unscorable |
| `Crag.RunConfidences` | backend/app/graph/nodes/crag_retrieval_agent.py:197-219 | A clause with text has a confidence only if it could be embedded, and always then while the breaker is closed |
| `Crag.UserKbOnlyAddsLocalHits` | backend/app/graph/nodes/crag_retrieval_agent.py:225-255 | Adding the private KB never lowers a confidence and never turns a local hit into a web fallback |
| `Matcher.Overlap` | backend/eval/harness/matcher.py:23-33 | Containment lies in [0, 1] and is 1 exactly when a non-empty snippet is wholly contained |
| `Matcher.CandidatePairs` | backend/eval/harness/matcher.py:51-57 | The double loop collects the candidate pairs of all rows |
| `Matcher.TakeGreedily` | backend/eval/harness/matcher.py:61-69 | The greedy loop; its two used-sets are always the findings and gold clauses of the pairs taken so far |
| `Matcher.SplitLeftover` | backend/eval/harness/matcher.py:71-80 | The split of leftover findings into surplus and false-flag candidates |
| `Matcher.Match` | backend/eval/harness/matcher.py:49-83 | Matches, surplus, false-flag candidates and missed gold, as defined from the one stable matching |
| `Matcher.AllPairsExact` | backend/eval/harness/matcher.py:51-57 | A pair is collected if and only if it is a candidate |
| `Matcher.RankedSorts` | backend/eval/harness/matcher.py:59 | The ranking is ordered: overlap, then section match, then indices, highest first |
| `Matcher.RankedPermutes` | backend/eval/harness/matcher.py:59 | The ranking is a permutation of the candidate pairs |
| `Matcher.MatchingIsStable` | backend/eval/harness/matcher.py:49-69 | One-to-one, and every candidate left out shares a finding or a gold clause with a matched pair ranked higher |
| `Matcher.StableIsUnique` | backend/eval/harness/matcher.py:58-59 | There is only one stable set, so the result does not depend on the order in which pairs are generated |
| `Matcher.LeftOutIsBeaten` | backend/eval/harness/matcher.py:51-69 | Every pair at the threshold that is left out shares its finding or gold clause with a matched one of greater overlap; or, on equal overlap, with a section match where it has none; or then with smaller indices |
| `Matcher.BestPairIsMatched` | backend/eval/harness/matcher.py:58-69 | A pair with more overlap than every other of its finding or its gold clause is matched |
| `Matcher.CandidateIsReal` | backend/eval/harness/matcher.py:23-57 | A candidate pair holds the share of the snippet tokens found, at least the threshold, and whether both name the same section |
| `Matcher.EveryoneIsPlaced` | backend/eval/harness/matcher.py:71-83 | Each unmatched finding is surplus exactly when it is on a matched risky clause, each gold clause in no pair is missed, all in document order |
| `Matcher.AtLeastHalfOfMaximum` | backend/eval/harness/matcher.py:49-69 | No one-to-one set of candidates is more than twice as large |
| `Scorer.DocDetection` | backend/eval/harness/scorer.py:61-79 | The five tallies of one document: the numbers of risky and clean gold clauses that are matched and unmatched, and of unlabeled findings |
| `Scorer.Score` | backend/eval/harness/scorer.py:157-183 | The loops of `score` over documents and gold clauses: errors, unlabeled findings, the global tallies and the per-type table; the severity tallies of lines 186-200 go onto the same board |
| `Scorer.BoardHoldsTallies` | backend/eval/harness/scorer.py:157-203 | Whatever is read off the tallies of `score`, globally or per type, is the sum of the per-document tallies |
| `Scorer.BoardCounts` | backend/eval/harness/scorer.py:157-203 | Every counter of the board, global or of one clause type, is the number of gold clauses that are risky or not and matched or not, or of matched graded pairs with equal or neighbouring severities |
| `Scorer.BoardKeys` | backend/eval/harness/scorer.py:170 | The per-type table has a row for exactly the types that occur |
| `Scorer.GoldConserved` | backend/eval/harness/scorer.py:71-78 | tp + fn + fp_clean + tn is the number of gold clauses, and tp + fp_clean the number matched |
| `Scorer.TallyConservation` | backend/eval/harness/scorer.py:61-79 | Per document: gold clauses and findings are each counted exactly once, tp + fp_clean + unlabeled + surplus being the findings |
| `Scorer.CorpusConservation` | backend/eval/harness/scorer.py:157-183 | Over the corpus every finding is matched, unlabeled or surplus |
| `Scorer.CandidateTouchesMatching` | backend/eval/harness/matcher.py:61-69 | Every candidate pair touches the matching |
| `Scorer.UnlabeledOverlapsNothingRisky` | backend/eval/harness/matcher.py:71-80 | By maximality an unlabeled finding overlaps no should_flag gold clause at the threshold |
| `Scorer.ByTypeSumsToTotal` | backend/eval/harness/scorer.py:244-254 | Per-type tallies, severity included, add up to the global ones |
| `Statistics.PercentileMonotone` | backend/eval/harness/scorer.py:48-58 | The interpolated percentile is monotone in q |
| `Statistics.PercentileBetween` | backend/eval/harness/scorer.py:48-58 | It lies between any bounds of the values |
| `Statistics.PercentileAt` | backend/eval/harness/scorer.py:48-58 | The q-th percentile lies q times the number of steps up the sorted list, in proportion between two values |
| `Statistics.PercentileEnds` | backend/eval/harness/scorer.py:48-58 | The extremes are the least and the greatest value |
| `Statistics.SortedPermutes` | backend/eval/harness/scorer.py:51-51 | Sorting keeps the values |
| `Statistics.F1Between` | backend/eval/harness/scorer.py:86-88 | F1 lies between precision and recall when both are defined, and is undefined exactly when one of them is |
| `Statistics.F1IsHarmonic` | backend/eval/harness/scorer.py:86-88 | F1 times the sum of precision and recall is twice their product |
| `Statistics.RatesAreShares` | backend/eval/harness/scorer.py:82-95 | Precision is the share of matched risky clauses in all flags, recall and misses shares of the risky clauses, false flags a share of the clean ones |
| `Statistics.RateDefinedIff` | backend/eval/harness/scorer.py:82-95 | A rate is undefined exactly when its denominator is zero |
| `Statistics.RecallAndMissAddUp` | backend/eval/harness/scorer.py:82-95 | Recall and miss rate add up to one |
| `Statistics.RateInUnit` | backend/eval/harness/scorer.py:82-95 | Every defined rate lies in [0, 1] |
| `Statistics.Aggregate` | backend/eval/harness/scorer.py:127-128 | The resampled tallies are the sums over the draw |
| `Statistics.SampleSumIsSum` | backend/eval/harness/scorer.py:127-128 | Each of the five tallies of a sample is its own sum over the drawn documents |
| `Statistics.DistributionIsDefined` | backend/eval/harness/scorer.py:125-132 | The bootstrapped values are the rates of the draws, in order, where they are defined |
| `Statistics.IntervalCovers` | backend/eval/harness/scorer.py:134-141 | The ends of an interval are percentiles at equal distance from both sides, `ciLevel` apart; none exactly when the metric is undefined on the corpus or on every draw |
| `Statistics.BootstrapDetectionCi` | backend/eval/harness/scorer.py:101-142 | Each metric gets the percentile interval of its resampled values, or none when the corpus is empty, the metric undefined on it, or no draw defines it |
| `Statistics.IntervalsAreProper` | backend/eval/harness/scorer.py:134-141 | For every resampling, 0 <= lo <= hi <= 1 |
| `Statistics.ConstantDistribution` | backend/eval/harness/scorer.py:112-114 | When all defined draws agree the interval is [x, x] |
| `Lockout.UserStore.RecordLoginFailure` | backend/app/runner/user_store.py:172-211 | Counter, anchor and lock of the one account; an unknown email changes nothing |
| `Lockout.UserStore.ResetLoginFailures` | backend/app/runner/user_store.py:213-221 | Counter, anchor and lock cleared |
| `Lockout.UserStore.Locked` | backend/app/runner/user_store.py:223-234 | Locked exactly before `lockout_until` |
| `Lockout.UserStore.Login` | backend/app/api/auth.py:316-345 | Lock test first, then the password, then record or reset: response and new table for every case |
| `Lockout.CounterIsBlock` | backend/app/runner/user_store.py:186-204 | The counter counts a success-free block of failures within WINDOW of one anchor; a lock means MAX of them |
| `Lockout.BurstBound` | backend/app/runner/user_store.py:172-211 | Consecutive failures less than a WINDOW apart number at most 2*MAX - 2, or 1 when MAX <= 1 |
| `Lockout.WindowBound` | backend/app/runner/user_store.py:172-234 | With DURATION >= WINDOW, any half-open interval of length WINDOW without a success has at most 2*MAX - 2 recorded failures |
| `Lockout.BoundAttained` | backend/app/runner/user_store.py:194-204 | The bound is sharp for every MAX >= 2 |
| `Lockout.BoundedIffLongLock` | backend/app/runner/user_store.py:194-204 | For every configuration with a positive WINDOW: the bound holds of every history if and only if DURATION >= WINDOW |
| `RateLimit.RateLimiter.Check` | backend/app/api/rate_limit.py:31-49 | The answer and the new deque of the one key; a refused attempt is not recorded and no other key is touched |
| `RateLimit.RateLimiter.Reset` | backend/app/api/rate_limit.py:51-57 | Forgets the one key, or every key, and nothing else |
| `RateLimit.HistorySound` | backend/app/api/rate_limit.py:41-49 | After any attempts the deque is the live end of the full admitted history |
| `RateLimit.RefinesFullHistory` | backend/app/api/rate_limit.py:41-49 | An attempt is allowed if and only if fewer than `limit` admitted attempts lie in the window ending at it |
| `RateLimit.WindowBound` | backend/app/api/rate_limit.py:45-48 | Every half-open window, wherever it ends, has at most `limit` admitted attempts |
| `Quotas.GroupByType` | backend/scripts/build_miss_triage.py:219-221 | Every type that occurs is listed once, with all of its rows in table order |
| `Quotas.RoundDown` | backend/scripts/build_miss_triage.py:225-230 | The shares n * size / total, rounded down, and their exact remainders; `min` with the group size never bites |
| `Quotas.Redistribute` | backend/scripts/build_miss_triage.py:231-237 | One pass places the whole shortfall, one row each, on the largest fractions |
| `Quotas.StratifiedSample` | backend/scripts/build_miss_triage.py:214-242 | n rows or fewer come back whole; otherwise exactly n rows of the table, each type with its fair quota, sorted by type and contract |
| `Quotas.PositiveFront` | backend/scripts/build_miss_triage.py:231-237 | Remainders that add up to k totals start, sorted downwards, with at least k positive ones |
| `Quotas.ShortfallCovered` | backend/scripts/build_miss_triage.py:231-237 | The shortfall never exceeds the number of types with a positive fraction |
| `Quotas.QuotasSum` | backend/scripts/build_miss_triage.py:224-237 | The quotas sum to exactly n |
| `Quotas.QuotaIsFair` | backend/scripts/build_miss_triage.py:227-237 | Each quota is less than one row from its exact share and never exceeds its group |
| `Quotas.LargestRemainderFirst` | backend/scripts/build_miss_triage.py:232 | A type rounded up has at least the remainder of any type rounded down |
| `Sorting.SortOrders` | backend/scripts/build_miss_triage.py:232 | Sorting by descending key keeps the names and orders them |
| `Sorting.SortKeepsLength` | backend/scripts/build_miss_triage.py:232 | And it keeps their number |
| `UserKb.KnowledgeBase.AppendClauses` | backend/app/rag/user_kb.py:121-179 | Both files, the provider marker and the cache after an append, wherever it is cut short, and what it returns or raises |
| `UserKb.KnowledgeBase.LoadUserKb` | backend/app/rag/user_kb.py:85-118 | A load amounts to opening and closing one with nothing in between, so what is proved of those steps holds of it; None is returned exactly when nothing is cached afterwards |
| `UserKb.EmbeddedDescribes` | backend/app/rag/user_kb.py:134-140 | Un-embeddable items are skipped in vectors and rows alike |
| `UserKb.EmbeddedIsKept` | backend/app/rag/user_kb.py:134-140 | An append takes exactly the embeddable items, in order, each with its text, its source and its dimension |
| `UserKb.RunDimensions` | backend/app/rag/user_kb.py:144-159 | In every run every vector of an index, stored, cached or being loaded, has the dimension of its index |
| `UserKb.RunSound` | backend/app/rag/user_kb.py:161-173 | For every interleaving of appends, cuts, restarts and loads: the index is never shorter than the sidecar, only grows, and the gap never shrinks |
| `UserKb.AcceptedLoadIsAligned` | backend/app/rag/user_kb.py:109-118 | Whenever a load is accepted row i describes vector i, if no append replaced the index during it or nothing was lost so far |
| `UserKb.FromTheFirstAppend` | backend/app/rag/user_kb.py:85-179 | Both properties hold of every user from an empty knowledge base on |
| `UserKb.GapIsForever` | backend/app/rag/user_kb.py:109-114 | Once an append lost its rows no later load that sees the index as it is is ever accepted |
| `UserKb.LoadSeesAppend` | backend/app/rag/user_kb.py:161-178 | With nothing lost, the load after an append returns the old entries and the new ones |
| `UserKb.AppendLeaves` | backend/app/rag/user_kb.py:161-178 | What an append leaves, cut where it may: nothing, the index alone, both files with the old cache, or both files and no cache |
| `UserKb.AlwaysAlignedIffNoGap` | backend/app/rag/user_kb.py:93-118 | Loads may overlap appends at will if and only if no append has been cut between its two replaces |
| `UserKb.GapMisaligns` | backend/app/rag/user_kb.py:96-118 | From every state with a gap there is an overlapping load that is accepted and misaligned |
| `RiskSummary.SummarizeReport` | backend/app/runner/risk_summary.py:39-60 | The loop over the findings fills the table that `ByTypeIsTally` shows to be a direct count; missing numbers are 0 |
| `RiskSummary.ByTypeIsTally` | backend/app/runner/risk_summary.py:45-51 | The per-type table is a direct count of graded findings, and lists a type exactly when it has one |
| `RiskSummary.TableCountsPlaces` | backend/app/runner/risk_summary.py:45-51 | Each entry is the number of findings of its type whose level reads low, medium and high |
| `RiskSummary.ColumnsAreNamed` | backend/app/runner/risk_summary.py:79-91 | Every figure of a stored summary is in the column of its name |
| `RiskSummary.SummaryRoundTrip` | backend/app/runner/risk_summary.py:79-113 | A summary survives row fields, column encoding, decoding and reading back |
| `RiskSummary.UnparseableTableReadsEmpty` | backend/app/runner/risk_summary.py:92-104 | A stored row falls back to the report when `risk_high` is NULL; an unparseable `risk_by_type` reads as an empty table |
| `RiskSummary.DamagedRowAgreesIff` | backend/app/runner/risk_summary.py:92-104 | A stamped row with a damaged `risk_by_type` agrees with its report if and only if the report has no graded finding |
| `Dashboard.CollectSummaries` | backend/app/api/aggregate.py:170-178 | Completed rows and their summaries: the stored one, or else the live one, or else none |
| `Dashboard.MergeTable` | backend/app/api/aggregate.py:186-190 | Adding one table to the running one is entry-wise addition, whatever the order of the keys |
| `Dashboard.BuildDashboardMetrics` | backend/app/api/aggregate.py:166-207 | Totals, health, per-type table, heatmap and top list are those of the summaries |
| `Dashboard.MetricsCountRows` | backend/app/api/aggregate.py:169-170 | The metrics count every row, and the completed ones among them |
| `Dashboard.UsageTimeline` | backend/app/api/aggregate.py:209-217 | One zero-filled bucket a day, each the number of jobs submitted on that day |
| `Dashboard.DayCountIsPrefixes` | backend/app/api/aggregate.py:161-163 | A day of the timeline counts the jobs whose time of submission begins with it |
| `Dashboard.TimelineCountsEachJobOnce` | backend/app/api/aggregate.py:209-217 | The buckets of different days add up to the number of jobs submitted on those days |
| `Dashboard.StoredMetricsEqualLive` | backend/app/api/aggregate.py:48-51 | For stamped rows and unchanged reports, metrics from stored summaries equal metrics from live reads |
| `Dashboard.MergedIsDirectCount` | backend/app/api/aggregate.py:185-190 | Per-type counts equal a direct count over the concatenated findings of all readable completed reports |
| `Dashboard.HeatmapAgrees` | backend/app/api/aggregate.py:192-202 | Heatmap cells repeat the per-type table, which has one row per type |
| `Dashboard.TopRiskyIsTop` | backend/app/api/aggregate.py:203-207 | At most five types, each with high findings, and none left out has more |
| `Dashboard.TopRiskyIsFull` | backend/app/api/aggregate.py:203-207 | The list has fewer than five types only when it has every one with a high finding, and it is in falling order |
| `Dashboard.TotalsAreSums` | backend/app/api/aggregate.py:180-183 | The totals are the sums of the summaries, severity by severity |
| `Dashboard.HealthIsShareLeft` | backend/app/api/aggregate.py:108-113 | Health is 100 without medium and high findings, 0 when all are high, and otherwise what is left of the weighted share |
| `Dashboard.RoundedIsNearest` | backend/app/api/aggregate.py:112-112 | Rounding goes to the nearest number and from half-way to the even one |
| `Dashboard.BandOf` | backend/app/api/aggregate.py:114-120 | The band of each percentage |
| `Dashboard.HealthNeedsNoClamp` | backend/app/api/aggregate.py:108-113 | With a weight in [0, 1] the health is within 0 to 100 before clamping |
| `Dashboard.WorseIsNotHealthier` | backend/app/api/aggregate.py:108-113 | Regrading a finding upwards never raises the health |

## Left out

- SelfRag.SelfRagValidationAgent: the order of clauses is a parameter instead of a sort by position, because the results hold for every order; prompts and model parameters are not modelled. The same goes for the other three nodes.
- Recovery.InvStep: models one job at a time; jobs share only the events that stop and start a process. Retention is a separate module, so an eviction during a run is not part of it.
- JobRecord.Record.MarkTerminal: the best-effort deletion of the uploaded source is not modelled, being input and output only.
- Events.LateJoinerHasSeenAll: is stated for publishers that stop at a terminal event, because a second terminal event, which the worker publishes only when an exception follows the first, reaches nobody who has already been given the first.
- Eviction.AddKeepsNewest: the deletion of checkpoint threads is part of `Add`, not of the interleaved protocol, because checkpoints are written by runs, which that protocol does not have.
- Quotas.StratifiedSample: shares are exact fractions, where the code uses floating point; `sort` is any function that orders the rows by the key and keeps them.
- Matcher.Overlap: texts are sets of tokens; the tokenising regular expression is not modelled.
- Scorer.Score: the confusion table, calibration, rewrite, latency and discard figures are not modelled, because they are further counters of the same kind; findings and gold clauses are told apart by position where the code uses object identity.
- Statistics.BootstrapDetectionCi: the seeded generator is replaced by any sequence of draws.
- Lockout.UserStore.RecordLoginFailure: stored times are numbers, so unreadable timestamps are not modelled.
- RateLimit.RefinesFullHistory: limit and window are fixed per key, although the code reads them live; the single check is proved for any.
- UserKb.KnowledgeBase.AppendClauses: unreadable files are not modelled, nor the warning about a changed provider; vectors carry the text they came from instead of numbers.
- Dashboard.BuildDashboardMetrics: the job list and display names are not modelled, because they would only add easy members; the calendar arithmetic that lists the days of the timeline is a parameter; `sorted` of the types is any function that lists each key once, and every stored count has all three severities.
- RiskSummary.SummarizeReport: reports are parsed already; numbers that are not integers are not modelled.
- Redline.RunCounts: the `noop` counter is not modelled, because it is a measure of the text only.
- FindingsFlow.RunNodes: the additive reducers for timings and error counts are used as a sum only.
- ContractState.MergeNestedClauseDicts: Python shares the untouched inner dicts between the old and the new state; maps are values here, so that aliasing is not modelled.
- Clause splitting, document parsing, report rendering, delivery, sign-in tokens, cryptography, the database driver and the user interface are not part of this model.
- Logging, metrics and timings are not part of this model.
