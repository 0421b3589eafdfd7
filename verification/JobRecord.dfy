/** One job's record: every change is written through to the store while the record has a store handle. */
module JobRecord {
  import opened Options
  import Events
  import RiskSummary
  import Graph
  import Pipeline

  datatype JobState = Queued | Running | Completed | Failed

  datatype ErrorInfo = ErrorInfo(kind: string, message: string)

  datatype JobRow = JobRow(jobId: string, documentPath: string, recipient: Option<string>, submittedAt: string,
                           originalFilename: Option<string>, userId: Option<string>, status: JobState,
                           startedAt: Option<string>, finishedAt: Option<string>, currentNode: Option<string>,
                           completedNodes: seq<string>, reportPath: Option<string>, delivery: map<string, string>,
                           error: Option<ErrorInfo>, risk: RiskSummary.RiskFields)

  predicate Terminal(status: JobState) {
    status == Completed || status == Failed
  }

  // ----- the store ----------------------------------------------------------------------------------

  /** The columns that an insert sets for good. */
  predicate SameOnceColumns(a: JobRow, b: JobRow) {
    a.jobId == b.jobId && a.documentPath == b.documentPath && a.recipient == b.recipient
    && a.submittedAt == b.submittedAt && a.userId == b.userId
  }

  /** The columns that every write sets. */
  predicate SameMutableColumns(a: JobRow, b: JobRow) {
    && a.originalFilename == b.originalFilename && a.status == b.status && a.startedAt == b.startedAt
    && a.finishedAt == b.finishedAt && a.currentNode == b.currentNode && a.completedNodes == b.completedNodes
    && a.reportPath == b.reportPath && a.delivery == b.delivery && a.error == b.error && a.risk == b.risk
  }

  class JobStore {
    var rows: map<string, JobRow>

    constructor ()
      ensures rows == map[]
    {
      rows := map[];
    }

    /** INSERT, or on conflict UPDATE of everything but the columns that are set once. */
    method Upsert(row: JobRow)
      modifies this
      ensures rows.Keys == old(rows).Keys + {row.jobId}
      ensures forall id | id in old(rows) && id != row.jobId :: rows[id] == old(rows)[id]
      ensures SameMutableColumns(rows[row.jobId], row)
      ensures if row.jobId in old(rows) then SameOnceColumns(rows[row.jobId], old(rows)[row.jobId])
              else rows[row.jobId] == row
    {
      if row.jobId !in rows {
        rows := rows[row.jobId := row];
        return;
      }
      var stored := rows[row.jobId];
      stored := stored.(status := row.status, startedAt := row.startedAt, finishedAt := row.finishedAt);
      stored := stored.(currentNode := row.currentNode, completedNodes := row.completedNodes);
      stored := stored.(reportPath := row.reportPath, delivery := row.delivery, error := row.error);
      stored := stored.(originalFilename := row.originalFilename, risk := row.risk);
      rows := rows[row.jobId := stored];
    }
  }

  /** The risk columns as a record writes them: all of a summary, or none. */
  function Canonical(risk: RiskSummary.RiskFields): RiskSummary.RiskFields {
    var s := RiskSummary.FromRow(risk);
    if s.Some? then RiskSummary.ToRowFields(s.value) else RiskSummary.UNSUMMARIZED
  }

  class Record {
    const jobId: string
    const documentPath: string
    const recipient: Option<string>
    const submittedAt: string
    const originalFilename: Option<string>
    const userId: Option<string>
    var status: JobState
    var startedAt: Option<string>
    var finishedAt: Option<string>
    var currentNode: Option<string>
    var completedNodes: seq<string>
    var reportPath: Option<string>
    var delivery: map<string, string>
    var error: Option<ErrorInfo>
    var risk: Option<RiskSummary.Summary>
    var store: JobStore?

    constructor (jobId: string, documentPath: string, recipient: Option<string>, submittedAt: string,
                 originalFilename: Option<string>, userId: Option<string>)
      ensures ToRow() == JobRow(jobId, documentPath, recipient, submittedAt, originalFilename, userId, Queued,
                                None, None, None, [], None, map[], None, RiskSummary.UNSUMMARIZED)
      ensures store == null
    {
      this.jobId, this.documentPath, this.recipient, this.submittedAt := jobId, documentPath, recipient, submittedAt;
      this.originalFilename, this.userId := originalFilename, userId;
      status, startedAt, finishedAt, currentNode, completedNodes := Queued, None, None, None, [];
      reportPath, delivery, error, risk, store := None, map[], None, None, null;
    }

    /** Rehydration: the record of a stored row writes that row back, its risk columns made canonical. */
    constructor FromRow(row: JobRow, store: JobStore)
      ensures ToRow() == row.(risk := Canonical(row.risk)) && this.store == store
    {
      jobId, documentPath, recipient, submittedAt := row.jobId, row.documentPath, row.recipient, row.submittedAt;
      originalFilename, userId := row.originalFilename, row.userId;
      status, startedAt, finishedAt, currentNode := row.status, row.startedAt, row.finishedAt, row.currentNode;
      completedNodes, reportPath, delivery, error := row.completedNodes, row.reportPath, row.delivery, row.error;
      risk := RiskSummary.FromRow(row.risk);
      this.store := store;
    }

    function ToRow(): JobRow
      reads this
    {
      JobRow(jobId, documentPath, recipient, submittedAt, originalFilename, userId, status, startedAt, finishedAt,
             currentNode, completedNodes, reportPath, delivery, error,
             if risk.Some? then RiskSummary.ToRowFields(risk.value) else RiskSummary.UNSUMMARIZED)
    }

    ghost function Footprint(): set<object>
      reads this
    {
      if store == null then {this} else {this, store}
    }

    /** The columns that are set once agree with the stored row, if there is one. */
    ghost predicate Owns()
      reads Footprint()
    {
      store != null && jobId in store.rows ==> SameOnceColumns(store.rows[jobId], ToRow())
    }

    /** The store, if there is one, holds what the record says. */
    ghost predicate InSync()
      reads Footprint()
    {
      store != null ==> jobId in store.rows && store.rows[jobId] == ToRow()
    }

    /** Write-through; without a handle the store is left alone. */
    method Persist()
      requires Owns()
      modifies Footprint() - {this}
      ensures store != null ==> store.rows == old(store.rows)[jobId := ToRow()]
      ensures Owns()
    {
      if store != null {
        ghost var was := store.rows;
        store.Upsert(ToRow());
        assert SameOnceColumns(store.rows[jobId], ToRow());
        assert store.rows == was[jobId := ToRow()];
      }
    }

    method MarkRunning(at: string)
      requires Owns()
      modifies Footprint()
      ensures store == old(store) && ToRow() == old(ToRow()).(status := Running, startedAt := Some(at))
      ensures store != null ==> store.rows == old(store.rows)[jobId := ToRow()]
      ensures Owns()
    {
      status, startedAt := Running, Some(at);
      Persist();
    }

    method RecordProgress(node: string)
      requires Owns()
      modifies Footprint()
      ensures store == old(store)
      ensures ToRow() == old(ToRow()).(currentNode := Some(node), completedNodes := old(completedNodes) + [node])
      ensures store != null ==> store.rows == old(store.rows)[jobId := ToRow()]
      ensures Owns()
    {
      currentNode := Some(node);
      completedNodes := completedNodes + [node];
      Persist();
    }

    method MarkTerminal(status: JobState, at: string, reportPath: Option<string>, delivery: map<string, string>,
                        error: Option<ErrorInfo>, summary: Option<RiskSummary.Summary>)
      requires Owns() && Terminal(status)
      modifies Footprint()
      ensures store == old(store) && risk == summary
      ensures ToRow() == old(ToRow()).(status := status, finishedAt := Some(at), reportPath := reportPath,
                delivery := delivery, error := error,
                risk := if summary.Some? then RiskSummary.ToRowFields(summary.value) else RiskSummary.UNSUMMARIZED)
      ensures store != null ==> store.rows == old(store.rows)[jobId := ToRow()]
      ensures Owns()
    {
      this.status, finishedAt, this.reportPath, this.delivery := status, Some(at), reportPath, delivery;
      this.error, risk := error, summary;
      Persist();
    }

    /** Back to queued with no progress; report, delivery and risk are left as they are. */
    method ResetForRerun()
      requires Owns()
      modifies Footprint()
      ensures store == old(store)
      ensures ToRow() == old(ToRow()).(status := Queued, startedAt := None, finishedAt := None,
                currentNode := None, completedNodes := [], error := None)
      ensures store != null ==> store.rows == old(store.rows)[jobId := ToRow()]
      ensures Owns()
    {
      status, startedAt, finishedAt, currentNode := Queued, None, None, None;
      completedNodes, error := [], None;
      Persist();
    }
  }

  /** A row that was written by a record is rebuilt exactly. */
  lemma WrittenRowsAreCanonical(summary: Option<RiskSummary.Summary>)
    ensures var risk := if summary.Some? then RiskSummary.ToRowFields(summary.value) else RiskSummary.UNSUMMARIZED;
            Canonical(RiskSummary.Decode(RiskSummary.Encode(risk))) == risk
  {
    if summary.Some? {
      RiskSummary.SummaryRoundTrip(summary.value);
    }
  }

  // ----- one run of a worker ------------------------------------------------------------------------

  /** How a run ends: the pipeline returns; an exception leaves it after some of the stream; or an
      exception follows the terminal mark, before or after the event is in the backlog. */
  datatype Ending =
    | Returned(result: Result)
    | Raised(after: nat, message: string)
    | RaisedLate(result: Result, announced: bool, message: string)

  datatype Result = Result(reportPath: Option<string>, delivery: map<string, string>, ingestError: Option<string>,
                           summary: Option<RiskSummary.Summary>)

  function Streamed(items: seq<Pipeline.Item>, ending: Ending): seq<Pipeline.Item> {
    if ending.Raised? && ending.after < |items| then items[..ending.after] else items
  }

  /** The terminal events of a run. */
  function LastEvents(ending: Ending): seq<Events.Event> {
    match ending
    case Returned(_) => [COMPLETED]
    case Raised(_, _) => [FAILED]
    case RaisedLate(_, announced, _) => if announced then [COMPLETED, FAILED] else [FAILED]
  }

  const COMPLETED := Events.Event("completed", "")
  const FAILED := Events.Event("failed", "")

  function ProgressEvents(progress: seq<Pipeline.NodeProgress>): seq<Events.Event> {
    seq(|progress|, i requires 0 <= i < |progress| => Events.Event("progress", progress[i].node))
  }

  /** The events a run publishes: one per reported node, then the terminal ones. */
  function Published(progress: seq<Pipeline.NodeProgress>, ending: Ending): seq<Events.Event> {
    ProgressEvents(progress) + LastEvents(ending)
  }

  function Progressed(row: JobRow, names: seq<string>): JobRow {
    row.(completedNodes := row.completedNodes + names,
         currentNode := if names == [] then row.currentNode else Some(names[|names| - 1]))
  }

  function AfterFailure(row: JobRow, at: string, message: string): JobRow {
    row.(status := Failed, finishedAt := Some(at), reportPath := None, delivery := map[],
         risk := RiskSummary.UNSUMMARIZED, error := Some(ErrorInfo("runner_exception", message)))
  }

  /** A late exception leaves the row of a failure: nothing of the result survives. */
  function Ended(row: JobRow, at: string, ending: Ending): JobRow {
    match ending
    case Returned(r) =>
      row.(status := Completed, finishedAt := Some(at), reportPath := r.reportPath, delivery := r.delivery,
           error := if r.ingestError.Some? then Some(ErrorInfo("ingest_error", r.ingestError.value)) else None,
           risk := if r.summary.Some? then RiskSummary.ToRowFields(r.summary.value) else RiskSummary.UNSUMMARIZED)
    case Raised(_, message) => AfterFailure(row, at, message)
    case RaisedLate(_, _, message) => AfterFailure(row, at, message)
  }

  /** The stream, with each reported node recorded as it is met. */
  method RecordStream(rec: Record, stream: seq<Pipeline.Item>, already: set<string>)
    returns (progress: seq<Pipeline.NodeProgress>)
    requires rec.Owns() && rec.InSync()
    modifies rec.Footprint()
    ensures rec.store == old(rec.store) && rec.Owns() && rec.InSync()
    ensures progress == Pipeline.Consumed(stream, already).progress
    ensures rec.ToRow() == Progressed(old(rec.ToRow()), Pipeline.ReportedNames(progress))
    ensures rec.store != null ==> rec.store.rows == old(rec.store.rows)[rec.jobId := rec.ToRow()]
  {
    var loop := Pipeline.Loop(already, None, None, [], []);
    assert Progressed(rec.ToRow(), []) == rec.ToRow();
    for i := 0 to |stream|
      invariant rec.store == old(rec.store) && rec.Owns() && rec.InSync()
      invariant loop == Pipeline.Consumed(stream[..i], already)
      invariant rec.ToRow() == Progressed(old(rec.ToRow()), Pipeline.ReportedNames(loop.progress))
      invariant rec.store != null ==> rec.store.rows == old(rec.store.rows)[rec.jobId := rec.ToRow()]
    {
      assert stream[..i + 1][..i] == stream[..i];
      var next := Pipeline.Consume(loop, stream[i]);
      if |next.progress| > |loop.progress| {
        var node := next.progress[|loop.progress|].node;
        ghost var row := rec.ToRow();
        rec.RecordProgress(node);
        Pipeline.ReportedSnoc(loop.progress, next.progress[|loop.progress|]);
        ProgressedSnoc(old(rec.ToRow()), Pipeline.ReportedNames(loop.progress), node);
      }
      loop := next;
    }
    assert stream[..|stream|] == stream;
    progress := loop.progress;
  }

  lemma ProgressedSnoc(row: JobRow, names: seq<string>, node: string)
    ensures Progressed(row, names + [node])
         == Progressed(row, names).(currentNode := Some(node), completedNodes := row.completedNodes + names + [node])
  {
    assert row.completedNodes + (names + [node]) == row.completedNodes + names + [node];
  }

  method Finish(rec: Record, ending: Ending, at: string) returns (events: seq<Events.Event>)
    requires rec.Owns()
    modifies rec.Footprint()
    ensures rec.store == old(rec.store) && rec.ToRow() == Ended(old(rec.ToRow()), at, ending)
    ensures rec.store != null ==> rec.store.rows == old(rec.store.rows)[rec.jobId := rec.ToRow()]
    ensures events == LastEvents(ending)
  {
    events := [];
    if !ending.Raised? {
      var r := ending.result;
      var error := if r.ingestError.Some? then Some(ErrorInfo("ingest_error", r.ingestError.value)) else None;
      rec.MarkTerminal(Completed, at, r.reportPath, r.delivery, error, r.summary);
      if ending.Returned? || ending.announced {
        events := events + [COMPLETED];
      }
      if ending.Returned? {
        return;
      }
    }
    rec.MarkTerminal(Failed, at, None, map[], Some(ErrorInfo("runner_exception", ending.message)), None);
    events := events + [FAILED];
  }

  /** `started_at` after mark_running: a resumed run keeps the one it has. */
  function StartedAt(row: JobRow, resume: bool, now: string): string {
    if resume && row.startedAt.Some? && row.startedAt.value != "" then row.startedAt.value else now
  }

  function RunRow(row: JobRow, resume: bool, stream: seq<Pipeline.Item>, ending: Ending, now: string,
                  later: string): JobRow {
    var already := if resume then Pipeline.Elements(row.completedNodes) else {};
    var running := row.(status := Running, startedAt := Some(StartedAt(row, resume, now)));
    Ended(Progressed(running, Pipeline.ReportedNames(Pipeline.Consumed(stream, already).progress)), later, ending)
  }

  /** The worker's run of one job: the record, and its row in the store, end up terminal, with every node
      of the stream that was not completed before appended once. */
  method RunOne(rec: Record, resume: bool, items: seq<Pipeline.Item>, ending: Ending, now: string, later: string)
    returns (published: seq<Events.Event>)
    requires rec.Owns()
    modifies rec.Footprint()
    ensures rec.ToRow() == RunRow(old(rec.ToRow()), resume, Streamed(items, ending), ending, now, later)
    ensures var already := if resume then Pipeline.Elements(old(rec.completedNodes)) else {};
            published == Published(Pipeline.Consumed(Streamed(items, ending), already).progress, ending)
    ensures rec.store == old(rec.store)
    ensures rec.store != null ==> rec.store.rows == old(rec.store.rows)[rec.jobId := rec.ToRow()]
  {
    var already: set<string> := {};
    rec.MarkRunning(StartedAt(rec.ToRow(), resume, now));
    if resume {
      already := Pipeline.Elements(rec.completedNodes);
    }
    var progress := RecordStream(rec, Streamed(items, ending), already);
    var events := Finish(rec, ending, later);
    published := ProgressEvents(progress) + events;
  }

  /** A run sees its whole stream, or as much of it as there was before the exception. */
  lemma StreamOfRun(items: seq<Pipeline.Item>, ending: Ending)
    ensures var seen := Streamed(items, ending);
            && seen <= items
            && |seen| == if ending.Raised? && ending.after < |items| then ending.after else |items|
  {
  }

  /** How the row of a run ends: completed with the result if it returned, and otherwise failed with the
      exception and nothing of a result; the reported nodes appended, and what was set once unchanged. */
  lemma RunEnds(row: JobRow, resume: bool, stream: seq<Pipeline.Item>, ending: Ending, now: string, later: string)
    ensures var after := RunRow(row, resume, stream, ending, now, later);
            && (after.status == Completed <==> ending.Returned?) && (after.status == Failed <==> !ending.Returned?)
            && (ending.Returned? ==>
                  && after.reportPath == ending.result.reportPath && after.delivery == ending.result.delivery
                  && (after.error == None <==> ending.result.ingestError == None)
                  && (after.error.Some? ==>
                        after.error.value == ErrorInfo("ingest_error", ending.result.ingestError.value)))
            && (!ending.Returned? ==>
                  && after.error == Some(ErrorInfo("runner_exception", ending.message))
                  && after.reportPath == None && after.delivery == map[] && after.risk == RiskSummary.UNSUMMARIZED)
            && after.finishedAt == Some(later) && after.startedAt.Some?
            && (!resume || row.startedAt == None || row.startedAt == Some("") ==> after.startedAt == Some(now))
            && (resume && row.startedAt.Some? && row.startedAt.value != "" ==> after.startedAt == row.startedAt)
            && SameOnceColumns(after, row) && after.originalFilename == row.originalFilename
  {
  }

  /** A returned run stores exactly the summary it computed. */
  lemma ReturnedStoresSummary(row: JobRow, resume: bool, stream: seq<Pipeline.Item>, result: Result, now: string,
                              later: string)
    ensures var after := RunRow(row, resume, stream, Returned(result), now, later);
            RiskSummary.FromRow(RiskSummary.Decode(RiskSummary.Encode(after.risk))) == result.summary
  {
    if result.summary.Some? {
      RiskSummary.SummaryRoundTrip(result.summary.value);
    }
  }

  /** Whatever happens, the last event of a run is terminal, and "completed" exactly when it returned; before
      it there is one event for each reported node, in order and not terminal, and only an exception after
      the announcement makes a second terminal event. */
  lemma LastEventIsTerminal(progress: seq<Pipeline.NodeProgress>, ending: Ending)
    ensures var events, n := Published(progress, ending), |progress|;
            && |events| == n + (if ending.RaisedLate? && ending.announced then 2 else 1)
            && (forall i | 0 <= i < n :: events[i].data == progress[i].node && !Events.Terminal(events[i]))
            && (forall i | n <= i < |events| :: Events.Terminal(events[i]))
            && (events[|events| - 1].event == "completed" <==> ending.Returned?)
            && (events[|events| - 1].event == "failed" <==> !ending.Returned?)
  {
  }

  /** A fresh run that returns leaves exactly the path in the row if and only if its stream first names no
      node, or the first of every path; it names another where the thread held a state of an earlier life. */
  lemma FreshRowHasPathIff(row: JobRow, path: seq<Graph.Node>, named: Option<Graph.Node>, items: seq<Pipeline.Item>,
                          ending: Ending, now: string, later: string)
    requires Graph.IsPath(path) && ending.Returned? && row.completedNodes == []
    requires Pipeline.NodesOf(items) == Graph.Names(Pipeline.Yielded(path, named, 0))
    ensures RunRow(row, false, items, ending, now, later).completedNodes == Graph.Names(path)
       <==> named == None || named == Some(Graph.Ingest)
  {
    assert Graph.Names(path)[..0] == [] && Pipeline.Elements([]) == {};
    Pipeline.RunCompletesIff(path, named, 0, 0, items);
  }

  /** A resumed run that returns leaves exactly the path in the row if and only if the node that its stream
      first names, if any, is a recorded one or the next after them; with k nodes done, k is at most one
      more than the record has. */
  lemma ResumedRowHasPathIff(row: JobRow, path: seq<Graph.Node>, named: Option<Graph.Node>, k: nat, r: nat,
                            items: seq<Pipeline.Item>, ending: Ending, now: string, later: string)
    requires Graph.IsPath(path) && k <= |path| && r <= |path| && ending.Returned?
    requires row.completedNodes == Graph.Names(path)[..r] && (k > 0 ==> named == Some(path[k - 1]))
    requires Pipeline.NodesOf(items) == Graph.Names(Pipeline.Yielded(path, named, k))
    ensures RunRow(row, true, items, ending, now, later).completedNodes == Graph.Names(path)
       <==> Pipeline.InTurn(path, named, r)
    ensures k > 0 ==> (RunRow(row, true, items, ending, now, later).completedNodes == Graph.Names(path) <==> k <= r + 1)
    ensures RunRow(row, true, items, ending, now, later).status == Completed
  {
    Pipeline.RunCompletesIff(path, named, k, r, items);
    if k > 0 {
      Pipeline.InTurnIff(path, k, r);
    }
  }
}
