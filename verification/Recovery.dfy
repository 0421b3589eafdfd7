/** The durable life of one job: its row, its checkpoint thread, and the processes that come and go.  A
    process may end at any step; what it held in memory is then lost.  The stream runs a node only when
    the loop asks for its next yield, a node decides where it leads when it runs, and every checkpoint, that
    of the input included, may be saved any number of nodes late.  The input of a fresh run is merged into
    the saved state of its thread: until its first node has run, the state still names the old last node. */
module Recovery {
  import opened Graph
  import opened JobRecord
  import opened Options
  import opened Ranges
  import Pipeline

  /** The slice of the row that recovery reads and changes. */
  datatype Row = Row(status: JobState, completed: seq<Node>)

  /** A state of the thread: the nodes run since its input, the node it leads to, and the node that
      `current_node` named when the input was put in. */
  datatype Point = Point(carried: Option<Node>, nodes: seq<Node>, next: Option<Node>)

  const START := Point(None, [], Some(Ingest))

  /** A run from mark_running on.  `at` is the state its stream has reached; `pending` that a yield waits
      to be handled; `first` that this is the stream's first yield, the state it started from; `saved`
      that the thread's saved state is one of this run's. */
  datatype Run = Run(resume: bool, streaming: bool, done: bool, first: bool, saved: bool, seen: set<Node>,
                     last: Option<Node>, at: Point, pending: bool)

  /** `thread`: the saved state of the checkpoint thread.  `snapshot`: the row as startup listed it, until
      it is dealt with.  `submit`: the next submission; `queue`: an item in the worker's queue; both hold
      the resume flag.  `doubled`: a fresh run was fed into a thread that already had a saved state. */
  datatype State = State(row: Option<Row>, thread: Option<Point>, up: bool, saver: bool, snapshot: Option<Row>,
                         submit: Option<bool>, queue: Option<bool>, run: Option<Run>, doubled: bool)

  datatype Step =
    | Boot(saver: bool, recover: bool)
    | Crash
    | Add
    | Recover
    | Submit
    | Start
    | Open
    | Handle
    | Execute(next: Option<Node>)
    | Save
    | Complete
    | Fail
    | End

  predicate Idle(s: State) {
    s.snapshot.None? && s.submit.None? && s.queue.None? && s.run.None?
  }

  predicate Resumable(s: State) {
    s.snapshot.Some? && s.snapshot.value.status == Running && s.saver && s.thread.Some?
  }

  function Elements(nodes: seq<Node>): set<Node> {
    set n | n in nodes
  }

  /** `current_node` of the state a stream has reached. */
  function NodeAt(p: Point): Option<Node> {
    if p.nodes == [] then p.carried else Some(p.nodes[|p.nodes| - 1])
  }

  /** The state a thread had after its first j nodes. */
  function PointAt(p: Point, j: nat): Point
    requires j <= |p.nodes|
  {
    Point(p.carried, p.nodes[..j], if j < |p.nodes| then Some(p.nodes[j]) else p.next)
  }

  function SetStatus(s: State, status: JobState): State {
    if s.row.Some? then s.(row := Some(s.row.value.(status := status))) else s
  }

  /** The state a stream starts from, and yields first: the saved one, or its input put into the thread. */
  function Entry(s: State, resume: bool): Point {
    if resume && s.thread.Some? then s.thread.value
    else START.(carried := if s.saver && s.thread.Some? then NodeAt(s.thread.value) else None)
  }

  function Opened(s: State, run: Run): State {
    if run.resume && (!s.saver || s.thread.None?) then s
    else
      s.(doubled := s.doubled || (!run.resume && s.saver && s.thread.Some?),
         run := Some(run.(streaming := true, at := Entry(s, run.resume), pending := true, first := true,
                          saved := run.resume)))
  }

  /** A record with a node added, unless it has it already. */
  function Noted(completed: seq<Node>, node: Option<Node>): seq<Node> {
    if node.Some? && node.value !in completed then completed + [node.value] else completed
  }

  /** The loop's test, its set of seen nodes and its last node. */
  function Handled(s: State, run: Run): State
    requires s.row.Some?
  {
    var node, handled := NodeAt(run.at), run.(last := NodeAt(run.at), pending := false, first := false);
    if node.Some? && node != run.last && node.value !in run.seen then
      s.(row := Some(s.row.value.(completed := s.row.value.completed + [node.value])),
         run := Some(handled.(seen := run.seen + {node.value})))
    else s.(run := Some(handled))
  }

  predicate CanExecute(s: State, next: Option<Node>) {
    && s.up && s.run.Some? && s.run.value.streaming && !s.run.value.pending
    && s.run.value.at.next.Some? && Routes(s.run.value.at.next.value, next)
  }

  function Executed(p: Point, next: Option<Node>): Point
    requires p.next.Some?
  {
    Point(p.carried, p.nodes + [p.next.value], next)
  }

  /** The checkpoints of a run are saved in order, that of its input first. */
  predicate CanSave(s: State) {
    && s.up && s.saver && s.run.Some? && s.run.value.streaming
    && (s.run.value.saved ==> s.thread.Some? && |s.thread.value.nodes| < |s.run.value.at.nodes|)
  }

  function Saved(s: State, run: Run): State
    requires run.saved ==> s.thread.Some? && |s.thread.value.nodes| < |run.at.nodes|
  {
    s.(thread := Some(PointAt(run.at, if run.saved then |s.thread.value.nodes| + 1 else 0)),
       run := Some(run.(saved := true)))
  }

  function Next(s: State, step: Step): State {
    match step
    case Boot(saver, recover) =>
      if !s.up then
        s.(up := true, saver := saver,
           snapshot := if recover && s.row.Some? && !Terminal(s.row.value.status) then s.row else None)
      else s
    case Crash => s.(up := false, snapshot := None, submit := None, queue := None, run := None)
    case Add =>
      if s.up && s.row.None? then s.(row := Some(Row(Queued, [])), submit := Some(false)) else s
    case Recover =>
      if s.up && s.snapshot.Some? then
        s.(row := if Resumable(s) then s.row else Some(Row(Queued, [])), snapshot := None,
           submit := Some(Resumable(s)))
      else s
    case Submit =>
      if s.up && s.submit.Some? then s.(submit := None, queue := s.submit) else s
    case Start =>
      if s.up && s.queue.Some? && s.run.None? && s.row.Some? then
        SetStatus(s, Running).(queue := None,
          run := Some(Run(s.queue.value, false, false, false, false,
                          if s.queue.value then Elements(s.row.value.completed) else {}, None, START, false)))
      else s
    case Open =>
      if s.up && s.run.Some? && !s.run.value.streaming then Opened(s, s.run.value) else s
    case Handle =>
      if s.up && s.run.Some? && s.run.value.pending && s.row.Some? then Handled(s, s.run.value) else s
    case Execute(next) =>
      if CanExecute(s, next) then
        s.(run := Some(s.run.value.(at := Executed(s.run.value.at, next), pending := true)))
      else s
    case Save =>
      if CanSave(s) then Saved(s, s.run.value) else s
    case Complete =>
      if s.up && s.run.Some? && s.run.value.streaming && !s.run.value.pending && s.run.value.at.next.None? then
        SetStatus(s, Completed).(run := Some(s.run.value.(done := true)))
      else s
    case Fail =>
      if s.up && s.run.Some? then SetStatus(s, Failed).(run := None) else s
    case End =>
      if s.up && s.run.Some? && s.run.value.done then s.(run := None) else s
  }

  function RunSteps(s: State, steps: seq<Step>): State {
    if steps == [] then s else Next(RunSteps(s, steps[..|steps| - 1]), steps[|steps| - 1])
  }

  const UNBORN := State(None, None, false, false, None, None, None, None, false)

  // ----- the startup loop over all rows ---------------------------------------------------------------

  /** What rehydrating a row's record and resetting it writes. */
  function ResetRow(row: JobRow): JobRow {
    row.(status := Queued, startedAt := None, finishedAt := None, currentNode := None, completedNodes := [],
         error := None, risk := Canonical(row.risk))
  }

  predicate Resumes(row: JobRow, saver: bool, threads: set<string>) {
    row.status == Running && saver && row.jobId in threads
  }

  function Recovered(row: JobRow, saver: bool, threads: set<string>): JobRow {
    if JobRecord.Terminal(row.status) || Resumes(row, saver, threads) then row else ResetRow(row)
  }

  ghost function SomeRecovered(before: map<string, JobRow>, done: set<string>, saver: bool, threads: set<string>)
    : map<string, JobRow>
  {
    map id | id in before :: if id in done then Recovered(before[id], saver, threads) else before[id]
  }

  lemma OneRecovered(before: map<string, JobRow>, done: set<string>, saver: bool, threads: set<string>, id: string)
    requires id in before && id !in done
    ensures var rows := SomeRecovered(before, done, saver, threads);
            && rows[id] == before[id]
            && rows[id := Recovered(before[id], saver, threads)]
                 == SomeRecovered(before, done + {id}, saver, threads)
            && (Recovered(before[id], saver, threads) == before[id] ==>
                  rows == SomeRecovered(before, done + {id}, saver, threads))
  {
  }

  /** `nonterminal()`: every queued or running row, once. */
  ghost predicate Lists(listed: seq<JobRow>, rows: map<string, JobRow>) {
    && (forall i | 0 <= i < |listed| ::
          listed[i].jobId in rows && rows[listed[i].jobId] == listed[i] && !JobRecord.Terminal(listed[i].status))
    && (forall i, j | 0 <= i < j < |listed| :: listed[i].jobId != listed[j].jobId)
    && (forall id | id in rows && !JobRecord.Terminal(rows[id].status) ::
          exists i :: 0 <= i < |listed| && listed[i].jobId == id)
  }

  /** The row of a job that starts over: queued without progress, and otherwise as it was, its risk columns
      written the way a record writes them. */
  ghost predicate StartsOver(row: JobRow, was: JobRow) {
    && row.status == Queued && row.completedNodes == []
    && row.startedAt == None && row.finishedAt == None && row.currentNode == None && row.error == None
    && SameOnceColumns(row, was) && row.originalFilename == was.originalFilename
    && row.reportPath == was.reportPath && row.delivery == was.delivery && row.risk == Canonical(was.risk)
  }

  /** Recovery submits exactly the listed jobs, in order, each once; it resumes a running one whose thread
      has a checkpoint, lets every other start over, and touches no other row. */
  method RecoverAll(store: JobStore, listed: seq<JobRow>, saver: bool, threads: set<string>)
    returns (submitted: seq<(string, bool)>)
    requires Lists(listed, store.rows)
    modifies store
    ensures |submitted| == |listed|
    ensures forall i | 0 <= i < |listed| :: submitted[i].0 == listed[i].jobId
    ensures forall i | 0 <= i < |listed| ::
              submitted[i].1 <==> listed[i].status == Running && saver && listed[i].jobId in threads
    ensures store.rows.Keys == old(store.rows).Keys
    ensures forall id | id in store.rows ::
              var was := old(store.rows)[id];
              if was.status == Completed || was.status == Failed || (was.status == Running && saver && id in threads)
              then store.rows[id] == was
              else StartsOver(store.rows[id], was)
  {
    submitted := [];
    ghost var before, done: set<string> := store.rows, {};
    assert store.rows == SomeRecovered(before, done, saver, threads);
    for i := 0 to |listed|
      invariant |submitted| == i
      invariant forall j | 0 <= j < i :: submitted[j] == (listed[j].jobId, Resumes(listed[j], saver, threads))
      invariant forall j | 0 <= j < |listed| :: listed[j].jobId in done <==> j < i
      invariant store.rows == SomeRecovered(before, done, saver, threads)
    {
      var row := listed[i];
      var resumable := row.status == Running && saver && row.jobId in threads;
      OneRecovered(before, done, saver, threads, row.jobId);
      if !resumable {
        ResetJob(store, row);
      }
      submitted := submitted + [(row.jobId, resumable)];
      done := done + {row.jobId};
    }
    forall id | id in before ensures store.rows[id] == Recovered(before[id], saver, threads) {
      assert before[id].jobId == id || JobRecord.Terminal(before[id].status);
    }
  }

  /** `registry.get` and `reset_for_rerun` of a job that is only in the store. */
  method ResetJob(store: JobStore, row: JobRow)
    requires row.jobId in store.rows && store.rows[row.jobId] == row
    modifies store
    ensures store.rows == old(store.rows)[row.jobId := ResetRow(row)]
  {
    var rec := new Record.FromRow(row, store);
    rec.ResetForRerun();
  }

  /** The nodes of a row's `completed_nodes`. */
  ghost predicate SliceOf(slice: Row, row: JobRow) {
    slice.status == row.status && Names(slice.completed) == row.completedNodes
  }

  /** What the loop does to a row, and the flag it submits, are the Recover step's of its slice. */
  lemma RecoverRefines(row: JobRow, s: State, threads: set<string>)
    requires s.up && s.row.Some? && s.snapshot == s.row && SliceOf(s.row.value, row) && !JobRecord.Terminal(row.status)
    requires s.thread.Some? <==> row.jobId in threads
    ensures var t := Next(s, Recover);
            && t.row.Some? && SliceOf(t.row.value, Recovered(row, s.saver, threads))
            && t.submit == Some(Resumes(row, s.saver, threads))
            && t.snapshot.None? && t.thread == s.thread && t.run == s.run && t.queue == s.queue
  {
    assert Names([]) == [];
  }

  // ----- the invariant, whatever the switch does ------------------------------------------------------

  /** A state that a thread can be in. */
  ghost predicate Sensible(p: Point) {
    && Walk(p.nodes)
    && (if p.nodes == [] then p.next == Some(Ingest) else Routes(p.nodes[|p.nodes| - 1], p.next))
  }

  ghost predicate RowInv(s: State) {
    && (s.row.None? ==> s.thread.None? && Idle(s))
    && (s.row.Some? ==> Distinct(s.row.value.completed)
                        && (s.row.value.status == Queued ==> s.row.value.completed == []))
    && (s.thread.Some? ==> Sensible(s.thread.value))
  }

  /** At most one of listing, submission, queue item and run is under way. */
  ghost predicate OneAtATime(s: State) {
    && (!s.up ==> Idle(s))
    && (s.snapshot.Some? ==> s.submit.None? && s.queue.None? && s.run.None?)
    && (s.submit.Some? ==> s.queue.None? && s.run.None?)
    && (s.queue.Some? ==> s.run.None?)
  }

  /** What is promised for an item on its way to the worker. */
  ghost predicate Ready(s: State, resume: bool) {
    && s.row.Some?
    && (resume ==> s.row.value.status == Running && s.thread.Some? && s.saver)
    && (!resume ==> s.row.value.status == Queued)
  }

  /** The saved state is one the stream has been in. */
  ghost predicate SavedFrom(s: State, at: Point) {
    s.thread.Some? && |s.thread.value.nodes| <= |at.nodes| && s.thread.value == PointAt(at, |s.thread.value.nodes|)
  }

  ghost predicate RunReady(s: State, run: Run) {
    && s.row.Some?
    && run.seen == Elements(s.row.value.completed)
    && s.row.value.status == (if run.done then Completed else Running)
    && (run.done ==> run.streaming && !run.pending && run.at.next.None?)
    && (run.first ==> run.streaming && run.pending && run.last.None?)
    && (run.pending && !run.first ==> run.at.nodes != [])
    && (run.resume ==> s.saver && s.thread.Some?)
    && (!run.streaming ==> run.last.None? && !run.pending && !run.saved && (!run.resume ==> run.seen == {}))
    && (run.streaming ==> Sensible(run.at) && (run.saved ==> s.saver && SavedFrom(s, run.at)))
    && (run.last.Some? ==> run.last.value in run.seen)
  }

  ghost predicate Inv(s: State) {
    && RowInv(s) && OneAtATime(s)
    && (s.snapshot.Some? ==> s.snapshot == s.row && !Terminal(s.row.value.status))
    && (s.submit.Some? ==> Ready(s, s.submit.value))
    && (s.queue.Some? ==> Ready(s, s.queue.value))
    && (s.run.Some? ==> RunReady(s, s.run.value))
  }

  lemma NoElements(nodes: seq<Node>)
    ensures Elements(nodes) == {} <==> nodes == []
  {
    assert nodes != [] ==> nodes[0] in Elements(nodes);
  }

  lemma ElementsSnoc(nodes: seq<Node>, n: Node)
    ensures Elements(nodes + [n]) == Elements(nodes) + {n}
    ensures n in Elements(nodes) <==> n in nodes
    ensures Distinct(nodes) && n !in nodes ==> Distinct(nodes + [n])
  {
  }

  lemma ExecutedSensible(p: Point, next: Option<Node>)
    requires Sensible(p) && p.next.Some? && Routes(p.next.value, next)
    ensures Sensible(Executed(p, next))
    ensures forall j | 0 <= j <= |p.nodes| :: PointAt(Executed(p, next), j) == PointAt(p, j)
  {
    forall j | 0 <= j <= |p.nodes| ensures PointAt(Executed(p, next), j) == PointAt(p, j) {
      assert Executed(p, next).nodes[..j] == p.nodes[..j];
    }
  }

  lemma PointSensible(p: Point, j: nat)
    requires Sensible(p) && j <= |p.nodes|
    ensures Sensible(PointAt(p, j))
  {
    var w := p.nodes[..j];
    assert forall i | 0 < i < |w| :: Routes(w[i - 1], Some(w[i])) by {
      assert forall i | 0 < i < |w| :: Routes(p.nodes[i - 1], Some(p.nodes[i]));
    }
    assert 0 < j < |p.nodes| ==> Routes(p.nodes[j - 1], Some(p.nodes[j]));
  }

  /** Handling a yield notes the node it names in the record. */
  lemma HandleOutcome(s: State)
    requires Inv(s) && s.up && s.run.Some? && s.run.value.pending
    ensures var run, row, node := s.run.value, s.row.value, NodeAt(s.run.value.at);
            var after := Noted(row.completed, node);
            Next(s, Handle) == s.(row := Some(row.(completed := after)),
              run := Some(run.(last := node, pending := false, first := false, seen := Elements(after))))
  {
    if NodeAt(s.run.value.at).Some? {
      ElementsSnoc(s.row.value.completed, NodeAt(s.run.value.at).value);
    }
  }

  lemma HandleInv(s: State)
    requires Inv(s)
    ensures Inv(Next(s, Handle))
  {
    if s.up && s.run.Some? && s.run.value.pending {
      HandleOutcome(s);
      if NodeAt(s.run.value.at).Some? {
        ElementsSnoc(s.row.value.completed, NodeAt(s.run.value.at).value);
      }
    }
  }

  lemma OpenInv(s: State)
    requires Inv(s)
    ensures Inv(Next(s, Open))
  {
    assert START.nodes[..0] == [];
    if s.thread.Some? {
      assert s.thread.value.nodes[..|s.thread.value.nodes|] == s.thread.value.nodes;
    }
  }

  lemma ExecuteInv(s: State, next: Option<Node>)
    requires Inv(s)
    ensures Inv(Next(s, Execute(next)))
  {
    if CanExecute(s, next) {
      ExecutedSensible(s.run.value.at, next);
    }
  }

  lemma SaveInv(s: State)
    requires Inv(s)
    ensures Inv(Next(s, Save))
  {
    if CanSave(s) {
      var at, j := s.run.value.at, if s.run.value.saved then |s.thread.value.nodes| + 1 else 0;
      PointSensible(at, j);
      assert at.nodes[..j][..j] == at.nodes[..j];
    }
  }

  lemma InvStep(s: State, step: Step)
    requires Inv(s)
    ensures Inv(Next(s, step))
  {
    match step
    case Handle => HandleInv(s);
    case Open => OpenInv(s);
    case Execute(next) => ExecuteInv(s, next);
    case Save => SaveInv(s);
    case Start => NoElements([]);
    case _ =>
  }

  /** What the steps do to the row: it is born queued and without progress, a started run is running, a run at
      its end completes it, any run may fail it, recovery puts a run that cannot be resumed back in the queue;
      only a handled yield adds to the record, and by one node at most; nothing else changes it. */
  lemma StepsOfTheRow(s: State, step: Step)
    requires Inv(s) && s.up
    ensures var t := Next(s, step);
            && (step.Add? && s.row.None? ==> t.row == Some(Row(Queued, [])) && t.submit == Some(false))
            && (step.Start? && s.queue.Some? ==>
                  t.row == Some(Row(Running, s.row.value.completed)) && t.run.Some?
                  && t.run.value.resume == s.queue.value)
            && (step.Complete? && s.run.Some? && s.run.value.streaming && !s.run.value.pending
                && s.run.value.at.next.None? ==>
                  t.row == Some(Row(Completed, s.row.value.completed)) && t.run.Some? && t.run.value.done)
            && (step.Fail? && s.run.Some? ==> t.row == Some(Row(Failed, s.row.value.completed)) && t.run.None?)
            && (step.Recover? && s.snapshot.Some? ==>
                  t.row == (if t.submit == Some(true) then s.row else Some(Row(Queued, []))))
            && (step.Handle? && s.row.Some? ==>
                  t.row.Some? && t.row.value.status == s.row.value.status
                  && s.row.value.completed <= t.row.value.completed
                  && |t.row.value.completed| <= |s.row.value.completed| + 1)
            && (t.row != s.row ==> step.Add? || step.Start? || step.Handle? || step.Complete? || step.Fail?
                                   || step.Recover?)
  {
  }

  /** What they do to the rest: a boot lists the row if it is not terminal and recovery is to run, the end of
      a process loses everything but row and thread, and the thread only ever changes when a checkpoint is saved. */
  lemma StepsOfTheProcess(s: State, step: Step)
    requires Inv(s)
    ensures var t := Next(s, step);
            && (step.Boot? && !s.up ==>
                  t.up && t.saver == step.saver && t.row == s.row
                  && t.snapshot ==
                       (if step.recover && s.row.Some? && !Terminal(s.row.value.status) then s.row else None))
            && (step.Crash? ==> !t.up && t.row == s.row && Idle(t))
            && (step.Submit? && s.up && s.submit.Some? ==> t.queue == s.submit && t.submit.None?)
            && (step.End? && s.up && s.run.Some? && s.run.value.done ==> t.run.None? && t.row == s.row)
            && (t.thread != s.thread ==> step.Save? && s.saver && t.thread.Some?)
            && (step.Save? && CanSave(s) ==>
                  t.thread.Some? && |t.thread.value.nodes| <= |s.run.value.at.nodes|
                  && t.thread.value.nodes == s.run.value.at.nodes[..|t.thread.value.nodes|])
  {
  }

  lemma {:induction false} RunInvFrom(s: State, steps: seq<Step>)
    requires Inv(s)
    ensures Inv(RunSteps(s, steps))
  {
    if steps != [] {
      RunInvFrom(s, steps[..|steps| - 1]);
      InvStep(RunSteps(s, steps[..|steps| - 1]), steps[|steps| - 1]);
    }
  }
}
