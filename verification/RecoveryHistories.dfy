/** Histories: those in which prompt checkpoints and a careful switch keep every start safe; and two in which
    a checkpoint left over from before a reset spoils the record, of a resumed run and of a fresh one. */
module RecoveryHistories {
  import opened Graph
  import opened JobRecord
  import opened Options
  import opened Ranges
  import opened Recovery
  import opened RecoveryCheckpoints
  import opened RecoveryPrefix

  // ----- prompt checkpoints -------------------------------------------------------------------------

  /** With the checkpointer on, a node runs only when the state before it has been saved. */
  ghost predicate Prompt(steps: seq<Step>) {
    steps != [] ==>
      var s, step := RunSteps(UNBORN, steps[..|steps| - 1]), steps[|steps| - 1];
      && Prompt(steps[..|steps| - 1])
      && (step.Execute? && CanExecute(s, step.next) && s.saver ==> UpToDate(s))
  }

  /** The state that the stream has reached is saved. */
  predicate UpToDate(s: State) {
    && s.run.Some? && s.run.value.saved && s.thread.Some?
    && |s.thread.value.nodes| == |s.run.value.at.nodes|
  }

  /** The saved state is safe for the record, which is at most one node ahead of it. */
  ghost predicate ThreadSafe(s: State) {
    s.row.Some? && s.thread.Some? ==>
      && s.thread.value.carried == None
      && SafeFrom(s.row.value.completed, s.thread.value)
      && |s.row.value.completed| <= |s.thread.value.nodes| + 1
  }

  /** The stream is at most one node ahead of the saved state; where nothing is saved yet, at its start. */
  ghost predicate StreamPrompt(s: State, run: Run) {
    && run.at.carried == None
    && (if !s.saver || !run.saved then s.thread.None? && (s.saver ==> run.at.nodes == [])
        else s.thread.Some? && |run.at.nodes| <= |s.thread.value.nodes| + 1)
  }

  ghost predicate PromptInv(s: State) {
    && CleanInv(s) && GoodInv(s) && ThreadSafe(s)
    && (s.run.Some? && s.run.value.streaming ==> StreamPrompt(s, s.run.value))
  }

  lemma PromptHandle(s: State)
    requires PromptInv(s)
    ensures PromptInv(Next(s, Handle))
  {
    CleanStep(s, Handle);
    GoodStep(s, Handle);
    if s.up && s.run.Some? && s.run.value.pending {
      HandleOutcome(s);
      if s.thread.Some? && s.run.value.saved && s.run.value.at.nodes != [] {
        HandledThreadSafe(s.row.value.completed, s.thread.value, s.run.value.at);
      }
    }
  }

  lemma HandledThreadSafe(completed: seq<Node>, thread: Point, at: Point)
    requires Walk(completed) && Sensible(at) && at.nodes != [] && at.carried == None
    requires |thread.nodes| <= |at.nodes| <= |thread.nodes| + 1 && thread == PointAt(at, |thread.nodes|)
    requires SafeFrom(completed, at) && SafeFrom(completed, thread) && |completed| <= |thread.nodes| + 1
    ensures SafeFrom(Noted(completed, NodeAt(at)), thread)
    ensures |Noted(completed, NodeAt(at))| <= |thread.nodes| + 1
  {
  }

  lemma PromptSave(s: State)
    requires PromptInv(s)
    ensures PromptInv(Next(s, Save))
  {
    CleanStep(s, Save);
    GoodStep(s, Save);
    if CanSave(s) {
    }
  }

  lemma PromptOpen(s: State)
    requires PromptInv(s)
    ensures OpenGuard(s) && PromptInv(Next(s, Open))
  {
    if s.up && AboutToStartFresh(s) {
      FreshOpenSafeIff(s);
    }
    CleanStep(s, Open);
    GoodStep(s, Open);
  }

  lemma PromptStep(s: State, step: Step)
    requires PromptInv(s) && (step.Recover? ==> SafeToRecover(s))
    requires step.Execute? && CanExecute(s, step.next) && s.saver ==> UpToDate(s)
    ensures (step.Open? ==> OpenGuard(s)) && PromptInv(Next(s, step))
  {
    match step
    case Handle => PromptHandle(s);
    case Save => PromptSave(s);
    case Open => PromptOpen(s);
    case _ =>
      CleanStep(s, step);
      GoodStep(s, step);
  }

  /** With prompt checkpoints, and the checkpointer on whenever a checkpointed job is recovered, every
      start is safe, and so the record is always good. */
  lemma {:induction false} PromptAndCarefulIsSafe(steps: seq<Step>)
    requires Prompt(steps) && Careful(steps)
    ensures SafeOpens(steps) && PromptInv(RunSteps(UNBORN, steps))
  {
    if steps != [] {
      PromptAndCarefulIsSafe(steps[..|steps| - 1]);
      PromptStep(RunSteps(UNBORN, steps[..|steps| - 1]), steps[|steps| - 1]);
    }
  }

  // ----- stale checkpoints -------------------------------------------------------------------------

  lemma RunThree(s: State, a: Step, b: Step, c: Step)
    ensures RunSteps(s, [a, b, c]) == Next(Next(Next(s, a), b), c)
  {
    RunTwo(s, a, b, [c]);
    RunSingle(Next(Next(s, a), b), c);
    assert [a, b, c] == [a, b] + [c];
  }

  /** A fresh run between yields, with the record it has made and nothing saved of it yet. */
  function Midway(completed: seq<Node>, thread: Option<Point>, saver: bool, at: Point): State {
    State(Some(Row(Running, completed)), thread, true, saver, None, None, None,
          Some(Run(false, true, false, false, false, Elements(completed), NodeAt(at), at, false)), false)
  }

  /** A job that no process holds. */
  function Left(completed: seq<Node>, thread: Point, saver: bool): State {
    State(Some(Row(Running, completed)), Some(thread), false, saver, None, None, None, None, false)
  }

  /** One node run and recorded. */
  lemma RunsNode(completed: seq<Node>, thread: Option<Point>, saver: bool, at: Point, next: Option<Node>)
    requires at.next.Some? && Routes(at.next.value, next) && completed == at.nodes && at.next.value !in completed
    requires at.carried == None
    ensures var ran := Executed(at, next);
            RunSteps(Midway(completed, thread, saver, at), [Execute(next), Handle])
              == Midway(ran.nodes, thread, saver, ran)
  {
    var s := Midway(completed, thread, saver, at);
    RunPair(s, Execute(next), Handle);
    ElementsSnoc(completed, at.next.value);
    assert at.next.value !in Elements(completed);
    assert NodeAt(at) != at.next;
  }

  const ONE: Point := Point(None, [Ingest], Some(Splitter))
  const TWO: Point := Point(None, [Ingest, Splitter], Some(Crag))
  const THREE: Point := Point(None, [Ingest, Splitter, Crag], Some(SelfRag))

  /** Boot, put the job in the queue and handle the first yield of its run. */
  function Begin(saver: bool, entry: Step): seq<Step> {
    [Boot(saver, true), entry, Submit] + [Start, Open, Handle]
  }

  function RunNode(next: Node): seq<Step> {
    [Execute(Some(next)), Handle]
  }

  function SaveThree(): seq<Step> {
    [Execute(Some(SelfRag)), Save, Save] + [Save, Save, Crash]
  }

  function FirstLife(): seq<Step> {
    Begin(true, Add) + RunNode(Splitter) + RunNode(Crag) + SaveThree()
  }

  function SecondLife(): seq<Step> {
    Begin(false, Recover) + RunNode(Splitter) + [Crash]
  }

  function ThirdLife(): seq<Step> {
    Begin(true, Recover)
  }

  lemma Begins(s: State, saver: bool, entry: Step, t: State)
    requires Next(Next(Next(s, Boot(saver, true)), entry), Submit) == t
    ensures RunSteps(s, Begin(saver, entry)) == Next(Next(Next(t, Start), Open), Handle)
  {
    RunConcat(s, [Boot(saver, true), entry, Submit], [Start, Open, Handle]);
    RunThree(s, Boot(saver, true), entry, Submit);
    RunThree(t, Start, Open, Handle);
  }

  /** A job in the worker's queue. */
  function InQueue(row: Row, thread: Option<Point>, saver: bool, resume: bool): State {
    State(Some(row), thread, true, saver, None, None, Some(resume), None, false)
  }

  lemma FreshBegins(thread: Option<Point>, saver: bool)
    requires saver ==> thread == None
    ensures Next(Next(Next(InQueue(Row(Queued, []), thread, saver, false), Start), Open), Handle)
         == Midway([], thread, saver, START)
  {
    NoElements([]);
    var t := Next(InQueue(Row(Queued, []), thread, saver, false), Start);
    assert t.run == Some(Run(false, false, false, false, false, {}, None, START, false));
    assert Entry(t, false) == START;
  }

  lemma FirstLifeStarts()
    ensures RunSteps(UNBORN, Begin(true, Add)) == Midway([], None, true, START)
  {
    Begins(UNBORN, true, Add, InQueue(Row(Queued, []), None, true, false));
    FreshBegins(None, true);
  }

  /** The first life with three nodes run and its first j + 1 checkpoints saved. */
  function Behindhand(j: nat): State
    requires j <= 3
  {
    State(Some(Row(Running, TWO.nodes)), Some(PointAt(THREE, j)), true, true, None, None, None,
          Some(Run(false, true, false, false, true, Elements(TWO.nodes), NodeAt(TWO), THREE, true)), false)
  }

  lemma FirstSave()
    ensures Next(Next(Midway(TWO.nodes, None, true, TWO), Execute(Some(SelfRag))), Save) == Behindhand(0)
  {
    assert Executed(TWO, Some(SelfRag)) == THREE;
  }

  lemma NextSave(j: nat)
    requires j < 3
    ensures Next(Behindhand(j), Save) == Behindhand(j + 1)
  {
    assert |PointAt(THREE, j).nodes| == j;
  }

  lemma SavesThree()
    ensures RunSteps(Midway(TWO.nodes, None, true, TWO), SaveThree()) == Left(TWO.nodes, THREE, true)
  {
    var s := Midway(TWO.nodes, None, true, TWO);
    FirstSave();
    NextSave(0);
    NextSave(1);
    NextSave(2);
    RunConcat(s, [Execute(Some(SelfRag)), Save, Save], [Save, Save, Crash]);
    RunThree(s, Execute(Some(SelfRag)), Save, Save);
    RunThree(Behindhand(1), Save, Save, Crash);
    assert PointAt(THREE, 3) == THREE;
  }

  lemma RunsSplitter(thread: Option<Point>, saver: bool)
    ensures RunSteps(Midway([], thread, saver, START), RunNode(Splitter)) == Midway([Ingest], thread, saver, ONE)
  {
    RunsNode([], thread, saver, START, Some(Splitter));
    assert Executed(START, Some(Splitter)) == ONE;
  }

  lemma RunsCrag(thread: Option<Point>, saver: bool)
    ensures RunSteps(Midway([Ingest], thread, saver, ONE), RunNode(Crag)) == Midway(TWO.nodes, thread, saver, TWO)
  {
    RunsNode([Ingest], thread, saver, ONE, Some(Crag));
    assert Executed(ONE, Some(Crag)) == TWO;
  }

  lemma FirstLifeLeaves()
    ensures RunSteps(UNBORN, FirstLife()) == Left(TWO.nodes, THREE, true)
  {
    FirstLifeStarts();
    RunsSplitter(None, true);
    RunsCrag(None, true);
    SavesThree();
    RunFour(UNBORN, Begin(true, Add), RunNode(Splitter), RunNode(Crag), SaveThree());
  }

  lemma RunFour(s: State, a: seq<Step>, b: seq<Step>, c: seq<Step>, d: seq<Step>)
    ensures RunSteps(s, a + b + c + d) == RunSteps(RunSteps(RunSteps(RunSteps(s, a), b), c), d)
  {
    RunConcat(s, a, b);
    RunConcat(s, a + b, c);
    RunConcat(s, a + b + c, d);
  }

  lemma SecondLifeStarts()
    ensures RunSteps(Left(TWO.nodes, THREE, true), Begin(false, Recover)) == Midway([], Some(THREE), false, START)
  {
    Begins(Left(TWO.nodes, THREE, true), false, Recover, InQueue(Row(Queued, []), Some(THREE), false, false));
    FreshBegins(Some(THREE), false);
  }

  lemma SecondLifeLeaves()
    ensures RunSteps(Left(TWO.nodes, THREE, true), SecondLife()) == Left([Ingest], THREE, false)
  {
    var s := Left(TWO.nodes, THREE, true);
    SecondLifeStarts();
    RunsSplitter(Some(THREE), false);
    RunConcat(s, Begin(false, Recover), RunNode(Splitter));
    RunConcat(s, Begin(false, Recover) + RunNode(Splitter), [Crash]);
    RunSingle(Midway([Ingest], Some(THREE), false, ONE), Crash);
  }

  /** A resumed run records the node of the checkpoint it was opened from, when it is new. */
  lemma ResumedRecords(completed: seq<Node>, at: Point)
    requires at.nodes != [] && at.nodes[|at.nodes| - 1] !in completed
    ensures Next(Next(Next(InQueue(Row(Running, completed), Some(at), true, true), Start), Open), Handle).row
         == Some(Row(Running, completed + [at.nodes[|at.nodes| - 1]]))
  {
    var t := Next(InQueue(Row(Running, completed), Some(at), true, true), Start);
    assert t.run == Some(Run(true, false, false, false, false, Elements(completed), None, START, false));
    assert at.nodes[|at.nodes| - 1] !in Elements(completed);
    assert NodeAt(at) == Some(at.nodes[|at.nodes| - 1]);
  }

  lemma ThirdLifeSkips()
    ensures RunSteps(Left([Ingest], THREE, false), ThirdLife()).row == Some(Row(Running, [Ingest, Crag]))
  {
    var s := Left([Ingest], THREE, false);
    assert Next(s, Boot(true, true)).snapshot == s.row;
    Begins(s, true, Recover, InQueue(Row(Running, [Ingest]), Some(THREE), true, true));
    ResumedRecords([Ingest], THREE);
    assert [Ingest] + [Crag] == [Ingest, Crag];
  }

  /** A job with three nodes behind its checkpoint is recovered with the checkpointer off, runs afresh as
      far as one node, and is resumed with the checkpointer on again: the record skips a node and is no
      longer the beginning of any path. */
  lemma StaleCheckpointSkipsNode()
    ensures var s := RunSteps(UNBORN, FirstLife() + SecondLife() + ThirdLife());
            && s.row == Some(Row(Running, [Ingest, Crag]))
            && forall path | IsPath(path) :: !(s.row.value.completed <= path)
  {
    FirstLifeLeaves();
    SecondLifeLeaves();
    ThirdLifeSkips();
    RunConcat(UNBORN, FirstLife(), SecondLife());
    RunConcat(UNBORN, FirstLife() + SecondLife(), ThirdLife());
    forall path | IsPath(path) ensures !([Ingest, Crag] <= path) {
      assert |path| > 1 ==> Routes(path[0], Some(path[1]));
    }
  }

  /** Recovered with the checkpointer off, and the process ends before the job is run. */
  function ResetLife(): seq<Step> {
    [Boot(false, true), Recover, Crash]
  }

  lemma ResetLifeLeaves()
    ensures RunSteps(Left(TWO.nodes, THREE, true), ResetLife())
         == State(Some(Row(Queued, [])), Some(THREE), false, false, None, None, None, None, false)
  {
    RunThree(Left(TWO.nodes, THREE, true), Boot(false, true), Recover, Crash);
  }

  /** A fresh run on a thread with a saved state records the node that this state names. */
  lemma FreshRecordsOldNode(at: Point)
    requires NodeAt(at).Some?
    ensures var t := Next(Next(Next(InQueue(Row(Queued, []), Some(at), true, false), Start), Open), Handle);
            t.row == Some(Row(Running, [NodeAt(at).value])) && t.run.Some? && !t.run.value.resume && t.doubled
  {
    var t := Next(InQueue(Row(Queued, []), Some(at), true, false), Start);
    assert t.run == Some(Run(false, false, false, false, false, {}, None, START, false));
    assert [] + [NodeAt(at).value] == [NodeAt(at).value];
  }

  /** A job with three nodes behind its checkpoint is recovered with the checkpointer off, and then again with
      the checkpointer on before it was run: the fresh run goes into the old thread, and the first node that
      the record gets is the last one of the life before.  No run of this history is a resumed one. */
  lemma FreshRunNamesOldNode()
    ensures var s := RunSteps(UNBORN, FirstLife() + ResetLife() + ThirdLife());
            && s.row == Some(Row(Running, [Crag])) && s.run.Some? && !s.run.value.resume
            && forall path | IsPath(path) :: !(s.row.value.completed <= path)
  {
    FirstLifeLeaves();
    ResetLifeLeaves();
    var s := State(Some(Row(Queued, [])), Some(THREE), false, false, None, None, None, None, false);
    assert Next(s, Boot(true, true)).snapshot == s.row;
    Begins(s, true, Recover, InQueue(Row(Queued, []), Some(THREE), true, false));
    FreshRecordsOldNode(THREE);
    RunConcat(UNBORN, FirstLife(), ResetLife());
    RunConcat(UNBORN, FirstLife() + ResetLife(), ThirdLife());
    forall path | IsPath(path) ensures !([Crag] <= path) {
      assert path[0] == Ingest;
    }
  }
}
