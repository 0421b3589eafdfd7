/** Rows and checkpoints over every history of a job: what always agrees, and exactly when the switch that
    turns the checkpointer on and off spoils the rest. */
module RecoveryCheckpoints {
  import opened Graph
  import opened JobRecord
  import opened Options
  import opened Ranges
  import opened Recovery

  lemma {:induction false} RunConcat(s: State, a: seq<Step>, b: seq<Step>)
    ensures RunSteps(s, a + b) == RunSteps(RunSteps(s, a), b)
  {
    if b == [] {
      assert a + b == a;
    } else {
      assert (a + b)[..|a + b| - 1] == a + b[..|b| - 1];
      RunConcat(s, a, b[..|b| - 1]);
    }
  }

  lemma RunSingle(s: State, step: Step)
    ensures RunSteps(s, [step]) == Next(s, step)
  {
    assert [step][..0] == [];
  }

  /** One step, then the rest. */
  lemma RunFirst(s: State, step: Step, rest: seq<Step>)
    ensures RunSteps(s, [step] + rest) == RunSteps(Next(s, step), rest)
  {
    RunSingle(s, step);
    RunConcat(s, [step], rest);
  }

  lemma RunPair(s: State, a: Step, b: Step)
    ensures RunSteps(s, [a, b]) == Next(Next(s, a), b)
  {
    assert [a, b][..1] == [a];
    RunSingle(s, a);
  }

  lemma RunTwo(s: State, a: Step, b: Step, rest: seq<Step>)
    ensures RunSteps(s, [a, b] + rest) == RunSteps(Next(Next(s, a), b), rest)
  {
    RunPair(s, a, b);
    RunConcat(s, [a, b], rest);
  }

  // ----- what holds of every history --------------------------------------------------------------

  /** Whatever crashes, boots and recoveries there are: no node is recorded twice, a queued row has no
      progress, and a run that is about to resume has a checkpoint and the checkpointer to read it. */
  lemma EveryHistory(steps: seq<Step>)
    ensures var s := RunSteps(UNBORN, steps);
            && (s.row.Some? ==> Distinct(s.row.value.completed))
            && (s.row.Some? && s.row.value.status == Queued ==> s.row.value.completed == [])
            && (s.run.Some? && s.run.value.resume ==> s.thread.Some? && s.saver)
  {
    RunInvFrom(UNBORN, steps);
  }

  ghost predicate Settled(s: State) {
    s.row.Some? && Terminal(s.row.value.status) && Idle(s)
  }

  /** A terminal job that no worker holds is never listed, submitted, run or changed again. */
  lemma {:induction false} TerminalIsFinal(s: State, steps: seq<Step>)
    requires Settled(s)
    ensures Settled(RunSteps(s, steps)) && RunSteps(s, steps).row == s.row
  {
    if steps != [] {
      TerminalIsFinal(s, steps[..|steps| - 1]);
    }
  }

  // ----- a queued row has no checkpoint -------------------------------------------------------------

  predicate SafeToRecover(s: State) {
    s.up && s.snapshot.Some? && s.thread.Some? ==> s.saver
  }

  /** A listed job that has a checkpoint is dealt with only while the checkpointer is on. */
  ghost predicate Careful(steps: seq<Step>) {
    steps != [] ==>
      && Careful(steps[..|steps| - 1])
      && (steps[|steps| - 1].Recover? ==> SafeToRecover(RunSteps(UNBORN, steps[..|steps| - 1])))
  }

  ghost predicate Clean(s: State) {
    s.row.Some? && s.row.value.status == Queued ==> s.thread.None?
  }

  /** A run that is about to start afresh. */
  predicate AboutToStartFresh(s: State) {
    s.run.Some? && !s.run.value.streaming && !s.run.value.resume
  }

  ghost predicate CleanInv(s: State) {
    Inv(s) && Clean(s) && !s.doubled && (AboutToStartFresh(s) ==> s.thread.None?)
  }

  lemma CleanStep(s: State, step: Step)
    requires CleanInv(s) && (step.Recover? ==> SafeToRecover(s))
    ensures CleanInv(Next(s, step))
  {
    InvStep(s, step);
  }

  lemma {:induction false} CarefulIsClean(steps: seq<Step>)
    requires Careful(steps)
    ensures CleanInv(RunSteps(UNBORN, steps))
  {
    if steps != [] {
      CarefulIsClean(steps[..|steps| - 1]);
      CleanStep(RunSteps(UNBORN, steps[..|steps| - 1]), steps[|steps| - 1]);
    }
  }

  ghost predicate AlwaysClean(steps: seq<Step>) {
    Clean(RunSteps(UNBORN, steps)) && (steps != [] ==> AlwaysClean(steps[..|steps| - 1]))
  }

  /** A stored queued row never has a checkpoint if and only if no listed job with a checkpoint is dealt
      with while the checkpointer is off. */
  lemma {:induction false} AlwaysCleanIffCareful(steps: seq<Step>)
    ensures AlwaysClean(steps) <==> Careful(steps)
  {
    if steps != [] {
      var less := steps[..|steps| - 1];
      AlwaysCleanIffCareful(less);
      if Careful(less) {
        CarefulIsClean(less);
        if Careful(steps) {
          CarefulIsClean(steps);
        }
      }
    }
  }

  /** The checkpointer is on, or off, at every boot. */
  ghost predicate Steady(steps: seq<Step>, saver: bool) {
    forall i | 0 <= i < |steps| && steps[i].Boot? :: steps[i].saver == saver
  }

  ghost predicate SaverIs(s: State, saver: bool) {
    (s.up ==> s.saver == saver) && (!saver ==> s.thread.None?)
  }

  lemma SaverStep(s: State, step: Step, saver: bool)
    requires SaverIs(s, saver) && (step.Boot? ==> step.saver == saver)
    requires s.run.Some? ==> s.up
    ensures SaverIs(Next(s, step), saver)
  {
  }

  lemma {:induction false} SteadyIsCareful(steps: seq<Step>, saver: bool)
    requires Steady(steps, saver)
    ensures Careful(steps) && SaverIs(RunSteps(UNBORN, steps), saver)
  {
    if steps != [] {
      var s := RunSteps(UNBORN, steps[..|steps| - 1]);
      SteadyIsCareful(steps[..|steps| - 1], saver);
      RunInvFrom(UNBORN, steps[..|steps| - 1]);
      SaverStep(s, steps[|steps| - 1], saver);
    }
  }

  // ----- no thread is fed twice ---------------------------------------------------------------------

  /** A fresh run lies ahead of a thread that has a saved state: the row is queued, or will be once the
      listed job is reset, or the run is about to open with the checkpointer on. */
  predicate FreshRunAhead(s: State) {
    s.thread.Some? &&
      ((s.row.Some? && s.row.value.status == Queued)
       || (s.up && s.snapshot.Some? && !s.saver)
       || (s.up && AboutToStartFresh(s) && s.saver))
  }

  ghost predicate OnFromNowOn(steps: seq<Step>) {
    forall i | 0 <= i < |steps| && steps[i].Boot? :: steps[i].saver
  }

  ghost predicate NeverFedTwice(s: State) {
    forall steps | OnFromNowOn(steps) :: !RunSteps(s, steps).doubled
  }

  lemma NotAheadStep(s: State, step: Step)
    requires Inv(s) && !s.doubled && !FreshRunAhead(s) && (step.Boot? ==> step.saver)
    ensures !Next(s, step).doubled && !FreshRunAhead(Next(s, step))
  {
  }

  lemma {:induction false} NotAhead(s: State, steps: seq<Step>)
    requires Inv(s) && !s.doubled && !FreshRunAhead(s) && OnFromNowOn(steps)
    ensures !RunSteps(s, steps).doubled && !FreshRunAhead(RunSteps(s, steps))
  {
    if steps != [] {
      NotAhead(s, steps[..|steps| - 1]);
      RunInvFrom(s, steps[..|steps| - 1]);
      NotAheadStep(RunSteps(s, steps[..|steps| - 1]), steps[|steps| - 1]);
    }
  }

  /** End the process, boot with the checkpointer on, and let recovery run the job. */
  function Reboot(): seq<Step> {
    [Crash, Boot(true, true), Recover, Submit, Start, Open]
  }

  lemma RebootFeeds(s: State)
    requires s.row.Some? && s.row.value.status == Queued && s.thread.Some?
    ensures RunSteps(s, Reboot()).doubled
  {
    RunFirst(s, Crash, [Boot(true, true), Recover, Submit, Start, Open]);
    assert Reboot() == [Crash] + [Boot(true, true), Recover, Submit, Start, Open];
    BootFeeds(Next(s, Crash));
  }

  lemma BootFeeds(s: State)
    requires s.row.Some? && s.row.value.status == Queued && s.thread.Some? && !s.up && Idle(s)
    ensures RunSteps(s, [Boot(true, true), Recover, Submit, Start, Open]).doubled
  {
    var boot := Next(s, Boot(true, true));
    RunFirst(s, Boot(true, true), [Recover, Submit, Start, Open]);
    assert [Boot(true, true), Recover, Submit, Start, Open] == [Boot(true, true)] + [Recover, Submit, Start, Open];
    RunFirst(boot, Recover, [Submit, Start, Open]);
    assert [Recover, Submit, Start, Open] == [Recover] + [Submit, Start, Open];
    SubmitFeeds(Next(boot, Recover));
  }

  lemma SubmitFeeds(s: State)
    requires s.up && s.saver && s.row.Some? && s.thread.Some? && s.submit == Some(false)
    requires s.queue.None? && s.run.None?
    ensures RunSteps(s, [Submit, Start, Open]).doubled
  {
    RunFirst(s, Submit, [Start, Open]);
    assert [Submit, Start, Open] == [Submit] + [Start, Open];
    RunFirst(Next(s, Submit), Start, [Open]);
    assert [Start, Open] == [Start] + [Open];
    RunSingle(Next(Next(s, Submit), Start), Open);
  }

  lemma AheadFeeds(s: State)
    requires Inv(s) && FreshRunAhead(s)
    ensures !NeverFedTwice(s)
  {
    if s.up && AboutToStartFresh(s) && s.saver {
      RunSingle(s, Open);
      assert OnFromNowOn([Open]) && RunSteps(s, [Open]).doubled;
    } else {
      var steps := [Recover] + Reboot();
      RunFirst(s, Recover, Reboot());
      RebootFeeds(Next(s, Recover));
      assert OnFromNowOn(steps) && RunSteps(s, steps).doubled;
    }
  }

  /** With the checkpointer on from now on, no fresh run is ever fed into a thread that has a saved state
      if and only if none has been and none lies ahead. */
  lemma NeverFedTwiceIff(s: State)
    requires Inv(s)
    ensures NeverFedTwice(s) <==> !s.doubled && !FreshRunAhead(s)
  {
    if s.doubled {
      assert OnFromNowOn([]) && RunSteps(s, []).doubled;
    } else if FreshRunAhead(s) {
      AheadFeeds(s);
    } else {
      forall steps | OnFromNowOn(steps) ensures !RunSteps(s, steps).doubled {
        NotAhead(s, steps);
      }
    }
  }

  // ----- the checkpoint is at most one node ahead of the record --------------------------------------

  ghost predicate AtMostOneAhead(s: State) {
    s.row.Some? && s.thread.Some? ==> |s.thread.value.nodes| <= |s.row.value.completed| + 1
  }

  function Stages(completed: seq<Node>): set<int> {
    if completed == [] then {} else Stages(completed[..|completed| - 1]) + {Stage(completed[|completed| - 1])}
  }

  lemma {:induction false} StagesSize(completed: seq<Node>)
    ensures |Stages(completed)| <= |completed|
    ensures forall n | n in completed :: Stage(n) in Stages(completed)
  {
    if completed != [] {
      var less := completed[..|completed| - 1];
      StagesSize(less);
      assert completed == less + [completed[|completed| - 1]];
    }
  }

  /** The record has a node for each of the first m stages. */
  ghost predicate Covers(completed: seq<Node>, m: int) {
    Range(1, if m < 0 then 1 else m + 1) <= Stages(completed)
  }

  lemma CoversSize(completed: seq<Node>, m: nat)
    requires Covers(completed, m)
    ensures m <= |completed|
  {
    StagesSize(completed);
    SubsetSize(Range(1, m + 1), Stages(completed));
  }

  lemma CoversMore(completed: seq<Node>, m: int, n: Node)
    requires Covers(completed, m)
    ensures Covers(completed + [n], m)
    ensures m >= 0 && Stage(n) == m + 1 ==> Covers(completed + [n], m + 1)
    ensures m >= 0 && Stage(n) == m + 1 && n in completed ==> Covers(completed, m + 1)
  {
    assert (completed + [n])[..|completed|] == completed;
    StagesSize(completed);
  }

  /** How many nodes of the saved state, and of the stream, the record has to cover: all but the last. */
  function SavedCount(s: State): int {
    if s.thread.Some? then |s.thread.value.nodes| - 1 else 0
  }

  function StreamCount(s: State): int {
    if s.run.Some? && s.run.value.streaming then
      |s.run.value.at.nodes| - if s.run.value.pending then 1 else 0
    else 0
  }

  ghost predicate Covered(s: State) {
    s.row.Some? ==> Covers(s.row.value.completed, SavedCount(s)) && Covers(s.row.value.completed, StreamCount(s))
  }

  /** A job whose checkpoint has two nodes behind it is not reset. */
  predicate ShallowReset(s: State) {
    s.up && s.snapshot.Some? && !Resumable(s) && s.thread.Some? ==> |s.thread.value.nodes| <= 1
  }

  ghost predicate ShallowResets(steps: seq<Step>) {
    steps != [] ==>
      && ShallowResets(steps[..|steps| - 1])
      && (steps[|steps| - 1].Recover? ==> ShallowReset(RunSteps(UNBORN, steps[..|steps| - 1])))
  }

  /** What counts here after a handled yield: its node is in the record, and nothing else has changed. */
  lemma HandleRecords(s: State)
    requires Inv(s) && s.up && s.run.Some? && s.run.value.pending && s.run.value.at.nodes != []
    ensures var t, n := Next(s, Handle), s.run.value.at.nodes[|s.run.value.at.nodes| - 1];
            && t.row.Some? && SavedCount(t) == SavedCount(s) && StreamCount(t) == |s.run.value.at.nodes|
            && (t.row.value.completed == s.row.value.completed + [n]
                || (t.row.value.completed == s.row.value.completed && n in s.row.value.completed))
  {
    HandleOutcome(s);
  }

  /** The yield of a stream that has run no node yet adds to the record at most. */
  lemma HandleCarried(s: State)
    requires Inv(s) && s.up && s.run.Some? && s.run.value.pending && s.run.value.at.nodes == []
    ensures var t := Next(s, Handle);
            && t.row.Some? && SavedCount(t) == SavedCount(s) && StreamCount(t) == 0
            && t.row.value.completed == Noted(s.row.value.completed, s.run.value.at.carried)
  {
    HandleOutcome(s);
  }

  lemma CoversNoted(completed: seq<Node>, m: int, node: Option<Node>)
    requires Covers(completed, m)
    ensures Covers(Noted(completed, node), m)
  {
    if node.Some? {
      CoversMore(completed, m, node.value);
    }
  }

  lemma CoversHandled(completed: seq<Node>, after: seq<Node>, saved: int, nodes: seq<Node>)
    requires Walk(nodes) && nodes != [] && Covers(completed, saved) && Covers(completed, |nodes| - 1)
    requires var n := nodes[|nodes| - 1]; after == completed + [n] || (after == completed && n in completed)
    ensures Covers(after, saved) && Covers(after, |nodes|)
  {
    WalkStage(nodes, |nodes| - 1);
    CoversMore(completed, |nodes| - 1, nodes[|nodes| - 1]);
    CoversMore(completed, saved, nodes[|nodes| - 1]);
  }

  lemma HandleCovered(s: State)
    requires Inv(s) && Covered(s)
    ensures Covered(Next(s, Handle))
  {
    if s.up && s.run.Some? && s.run.value.pending && s.run.value.at.nodes != [] {
      HandleRecords(s);
      CoversHandled(s.row.value.completed, Next(s, Handle).row.value.completed, SavedCount(s), s.run.value.at.nodes);
    } else if s.up && s.run.Some? && s.run.value.pending {
      HandleCarried(s);
      CoversNoted(s.row.value.completed, SavedCount(s), s.run.value.at.carried);
    }
  }

  lemma CoversLess(completed: seq<Node>, m: int, less: int)
    requires Covers(completed, m) && less <= m
    ensures Covers(completed, less)
  {
  }

  lemma SaveCounts(s: State)
    requires Inv(s) && CanSave(s)
    ensures var t := Next(s, Save);
            t.row == s.row && StreamCount(t) == StreamCount(s)
            && (SavedCount(t) == -1 || SavedCount(t) <= StreamCount(s))
  {
  }

  lemma SaveCovered(s: State)
    requires Inv(s) && Covered(s)
    ensures Covered(Next(s, Save))
  {
    if CanSave(s) && s.row.Some? {
      SaveCounts(s);
      CoversLess(s.row.value.completed, StreamCount(s),
                 if SavedCount(Next(s, Save)) == -1 then StreamCount(s) else SavedCount(Next(s, Save)));
    }
  }

  /** Other steps leave the record with no more to cover, or with nothing. */
  lemma OtherCounts(s: State, step: Step)
    requires Inv(s) && !step.Handle? && !step.Save? && (step.Recover? ==> ShallowReset(s))
    ensures var t := Next(s, step);
            t.row.Some? ==>
              || (SavedCount(t) <= 0 && StreamCount(t) <= 0)
              || (s.row.Some? && t.row.value.completed == s.row.value.completed && SavedCount(t) <= SavedCount(s)
                  && (StreamCount(t) <= StreamCount(s) || StreamCount(t) <= SavedCount(s)))
  {
  }

  lemma CoveredStep(s: State, step: Step)
    requires Inv(s) && Covered(s) && (step.Recover? ==> ShallowReset(s))
    ensures Covered(Next(s, step))
  {
    if step.Handle? {
      HandleCovered(s);
    } else if step.Save? {
      SaveCovered(s);
    } else {
      OtherCounts(s, step);
    }
  }

  lemma CoveredIsBounded(s: State)
    requires Covered(s)
    ensures AtMostOneAhead(s)
  {
    if s.row.Some? && s.thread.Some? && s.thread.value.nodes != [] {
      CoversSize(s.row.value.completed, SavedCount(s));
    }
  }

  lemma {:induction false} ShallowIsCovered(steps: seq<Step>)
    requires ShallowResets(steps)
    ensures Covered(RunSteps(UNBORN, steps))
  {
    if steps != [] {
      ShallowIsCovered(steps[..|steps| - 1]);
      RunInvFrom(UNBORN, steps[..|steps| - 1]);
      CoveredStep(RunSteps(UNBORN, steps[..|steps| - 1]), steps[|steps| - 1]);
    }
  }

  ghost predicate AlwaysAtMostOneAhead(steps: seq<Step>) {
    AtMostOneAhead(RunSteps(UNBORN, steps)) && (steps != [] ==> AlwaysAtMostOneAhead(steps[..|steps| - 1]))
  }

  /** Over every history the checkpoint is at most one node ahead of the record if and only if no job
      whose checkpoint has two nodes or more behind it is reset. */
  lemma {:induction false} AtMostOneAheadIffShallowResets(steps: seq<Step>)
    ensures AlwaysAtMostOneAhead(steps) <==> ShallowResets(steps)
  {
    if steps != [] {
      var less := steps[..|steps| - 1];
      AtMostOneAheadIffShallowResets(less);
      if ShallowResets(steps) {
        ShallowIsCovered(steps);
        CoveredIsBounded(RunSteps(UNBORN, steps));
      } else if ShallowResets(less) {
        RunInvFrom(UNBORN, less);
        DeepResetBreaks(RunSteps(UNBORN, less));
      }
    }
  }

  lemma DeepResetBreaks(s: State)
    requires Inv(s) && !ShallowReset(s)
    ensures !AtMostOneAhead(Next(s, Recover))
  {
  }
}
