/** The record against the path of the graph over every history of crashes and resumes: exactly when it
    stays a beginning of the path, with one path for the job and with nodes that decide anew when they
    run again. */
module RecoveryPrefix {
  import opened Graph
  import opened JobRecord
  import opened Options
  import opened Ranges
  import opened Recovery
  import opened RecoveryCheckpoints

  // ----- a job that always takes the same path --------------------------------------------------------

  function After(path: seq<Node>, j: nat): Option<Node> {
    if j < |path| then Some(path[j]) else None
  }

  ghost predicate OnPath(p: Point, path: seq<Node>) {
    p.nodes <= path && p.next == After(path, |p.nodes|) && (p.carried.Some? ==> p.carried.value in path)
  }

  /** Every node that runs leads where the path does. */
  ghost predicate AlongPath(steps: seq<Step>, path: seq<Node>) {
    steps != [] ==>
      var s, step := RunSteps(UNBORN, steps[..|steps| - 1]), steps[|steps| - 1];
      && AlongPath(steps[..|steps| - 1], path)
      && (step.Execute? && CanExecute(s, step.next) ==> step.next == After(path, |s.run.value.at.nodes| + 1))
  }

  ghost predicate StatesOnPath(s: State, path: seq<Node>) {
    && (s.thread.Some? ==> OnPath(s.thread.value, path))
    && (s.run.Some? && s.run.value.streaming ==> OnPath(s.run.value.at, path))
  }

  lemma StatesOnPathStep(s: State, step: Step, path: seq<Node>)
    requires Inv(s) && IsPath(path) && StatesOnPath(s, path)
    requires step.Execute? && CanExecute(s, step.next) ==> step.next == After(path, |s.run.value.at.nodes| + 1)
    ensures StatesOnPath(Next(s, step), path)
  {
  }

  /** The property: the record is a beginning of the path, and all of it when the job is completed. */
  ghost predicate PrefixOf(s: State, path: seq<Node>) {
    s.row.Some? ==>
      s.row.value.completed <= path && (s.row.value.status == Completed ==> s.row.value.completed == path)
  }

  ghost predicate AlwaysPrefixOf(steps: seq<Step>, path: seq<Node>) {
    PrefixOf(RunSteps(UNBORN, steps), path) && (steps != [] ==> AlwaysPrefixOf(steps[..|steps| - 1], path))
  }

  /** The node that a run's first yield names is at most one stage ahead of the record. */
  predicate StartGuard(s: State) {
    s.up && s.row.Some? && s.run.Some? && s.run.value.first && NodeAt(s.run.value.at).Some? ==>
      Stage(NodeAt(s.run.value.at).value) <= |s.row.value.completed| + 1
  }

  ghost predicate GuardedStarts(steps: seq<Step>) {
    steps != [] ==>
      && GuardedStarts(steps[..|steps| - 1])
      && (steps[|steps| - 1].Handle? ==> StartGuard(RunSteps(UNBORN, steps[..|steps| - 1])))
  }

  ghost predicate PrefixInv(s: State, path: seq<Node>) {
    && Inv(s) && StatesOnPath(s, path) && PrefixOf(s, path)
    && (s.run.Some? && s.run.value.streaming && !s.run.value.first ==>
          |s.run.value.at.nodes| <= |s.row.value.completed| + if s.run.value.pending then 1 else 0)
  }

  /** What a yield's node does to a record that is a beginning of the path. */
  lemma NotedOnPath(path: seq<Node>, completed: seq<Node>, n: Node)
    requires Walk(path) && completed <= path && n in path
    ensures n in completed <==> Stage(n) <= |completed|
    ensures Noted(completed, Some(n)) <= path <==> Stage(n) <= |completed| + 1
    ensures Stage(n) <= |Noted(completed, Some(n))| || Stage(n) > |completed| + 1
  {
    var i :| 0 <= i < |path| && path[i] == n;
    WalkStage(path, i);
    WalkShape(path);
    assert i < |completed| ==> completed[i] == n;
    if n in completed {
      var j :| 0 <= j < |completed| && completed[j] == n;
      assert path[j] == n;
    } else {
      assert (completed + [n])[|completed|] == n;
    }
  }

  lemma NamedOnPath(p: Point, path: seq<Node>)
    requires OnPath(p, path) && Walk(path) && NodeAt(p).Some?
    ensures NodeAt(p).value in path
    ensures p.nodes != [] ==> Stage(NodeAt(p).value) == |p.nodes|
  {
    if p.nodes != [] {
      WalkStage(path, |p.nodes| - 1);
      assert path[|p.nodes| - 1] == p.nodes[|p.nodes| - 1];
    }
  }

  lemma HandlePrefix(s: State, path: seq<Node>)
    requires PrefixInv(s, path) && IsPath(path)
    ensures StartGuard(s) ==> PrefixInv(Next(s, Handle), path)
    ensures !StartGuard(s) ==> !PrefixOf(Next(s, Handle), path)
  {
    InvStep(s, Handle);
    StatesOnPathStep(s, Handle, path);
    if s.up && s.run.Some? && s.run.value.pending {
      HandleOutcome(s);
      if NodeAt(s.run.value.at).Some? {
        NamedOnPath(s.run.value.at, path);
        NotedOnPath(path, s.row.value.completed, NodeAt(s.run.value.at).value);
      }
    }
  }

  lemma PrefixStep(s: State, step: Step, path: seq<Node>)
    requires PrefixInv(s, path) && IsPath(path) && !step.Handle?
    requires step.Execute? && CanExecute(s, step.next) ==> step.next == After(path, |s.run.value.at.nodes| + 1)
    ensures PrefixInv(Next(s, step), path)
  {
    InvStep(s, step);
    StatesOnPathStep(s, step, path);
  }

  lemma {:induction false} GuardedIsPrefix(steps: seq<Step>, path: seq<Node>)
    requires IsPath(path) && AlongPath(steps, path) && GuardedStarts(steps)
    ensures PrefixInv(RunSteps(UNBORN, steps), path)
  {
    if steps != [] {
      var s, step := RunSteps(UNBORN, steps[..|steps| - 1]), steps[|steps| - 1];
      GuardedIsPrefix(steps[..|steps| - 1], path);
      if step.Handle? {
        HandlePrefix(s, path);
      } else {
        PrefixStep(s, step, path);
      }
    }
  }

  /** For a job that always takes the same path, under any crashes, boots and resumes: the record is a
      beginning of that path at all times, and all of it once completed, if and only if the first yield of
      every run, fresh or resumed, names a node at most one stage ahead of the record, if any. */
  lemma {:induction false} AlwaysPrefixIffGuarded(steps: seq<Step>, path: seq<Node>)
    requires IsPath(path) && AlongPath(steps, path)
    ensures AlwaysPrefixOf(steps, path) <==> GuardedStarts(steps)
  {
    if steps != [] {
      var less := steps[..|steps| - 1];
      AlwaysPrefixIffGuarded(less, path);
      if GuardedStarts(steps) {
        GuardedIsPrefix(steps, path);
      } else if GuardedStarts(less) {
        GuardedIsPrefix(less, path);
        HandlePrefix(RunSteps(UNBORN, less), path);
      }
    }
  }

  // ----- nodes that decide anew -----------------------------------------------------------------------

  /** One list continues the other. */
  predicate Compatible(a: seq<Node>, b: seq<Node>) {
    a <= b || b <= a
  }

  /** The property: the record is a beginning of a path, a whole one when the job is completed, and agrees
      with what the run under way has executed, to the end when that run is done. */
  ghost predicate Good(s: State) {
    s.row.Some? ==>
      var completed := s.row.value.completed;
      && Walk(completed)
      && (s.row.value.status == Completed ==> IsPath(completed))
      && (s.run.Some? && s.run.value.streaming ==>
            Compatible(completed, s.run.value.at.nodes) && (s.run.value.done ==> completed == s.run.value.at.nodes))
  }

  /** The state is behind the record or level with it; where it is behind, it leads to the record's next
      node, and no node that will run again has a choice that the record has already made. */
  predicate Repeats(p: Point, completed: seq<Node>) {
    && p.nodes <= completed
    && (|p.nodes| < |completed| ==> p.next == Some(completed[|p.nodes|]))
    && (forall j | |p.nodes| <= j < |completed| - 1 :: !Router(completed[j]))
  }

  /** A stream may start from this state: the node it names first leaves the record a beginning of a path,
      which the stream will only repeat. */
  ghost predicate SafeFrom(completed: seq<Node>, p: Point) {
    Walk(Noted(completed, NodeAt(p))) && Repeats(p, Noted(completed, NodeAt(p)))
  }

  ghost predicate StreamSafe(s: State, run: Run) {
    && s.row.Some?
    && (if run.pending then SafeFrom(s.row.value.completed, run.at) else Repeats(run.at, s.row.value.completed))
  }

  ghost predicate GoodInv(s: State) {
    && Inv(s)
    && (s.row.Some? ==> Walk(s.row.value.completed)
                        && (s.row.value.status == Completed ==> IsPath(s.row.value.completed)))
    && (s.run.Some? && s.run.value.streaming ==> StreamSafe(s, s.run.value))
  }

  lemma GoodInvIsGood(s: State)
    requires GoodInv(s)
    ensures Good(s)
  {
    if s.row.Some? && s.run.Some? && s.run.value.streaming {
      PrefixesCompatible(s.row.value.completed, s.run.value.at.nodes,
                         Noted(s.row.value.completed, NodeAt(s.run.value.at)));
    }
  }

  lemma PrefixesCompatible(a: seq<Node>, b: seq<Node>, whole: seq<Node>)
    requires (a <= whole && b <= whole) || b <= a
    ensures Compatible(a, b)
  {
    if a <= whole && b <= whole {
      assert a == whole[..|a|] && b == whole[..|b|];
    }
  }

  lemma HandleGood(s: State)
    requires GoodInv(s)
    ensures GoodInv(Next(s, Handle))
  {
    InvStep(s, Handle);
    if s.up && s.run.Some? && s.run.value.pending {
      HandleOutcome(s);
    }
  }

  /** A node without a choice leads where the record went. */
  lemma NoChoice(n: Node, a: Option<Node>, b: Option<Node>)
    requires !Router(n) && Routes(n, a) && Routes(n, b)
    ensures a == b
  {
  }

  lemma ExecuteSafe(completed: seq<Node>, p: Point, next: Option<Node>)
    requires Walk(completed) && Sensible(p) && Repeats(p, completed)
    requires p.next.Some? && Routes(p.next.value, next)
    ensures SafeFrom(completed, Executed(p, next))
  {
    var k, ran := |p.nodes|, Executed(p, next);
    ExecutedSensible(p, next);
    if k < |completed| {
      assert ran.nodes == completed[..k + 1];
      assert completed[k] in completed;
      if k + 1 < |completed| {
        assert Routes(completed[k], Some(completed[k + 1]));
        NoChoice(completed[k], next, Some(completed[k + 1]));
      }
    } else {
      assert p.nodes == completed;
      WalkShape(ran.nodes);
      LastIsNew(ran.nodes);
    }
  }

  lemma LastIsNew(nodes: seq<Node>)
    requires nodes != [] && Distinct(nodes)
    ensures nodes[|nodes| - 1] !in nodes[..|nodes| - 1]
  {
  }

  lemma ExecuteGood(s: State, next: Option<Node>)
    requires GoodInv(s)
    ensures GoodInv(Next(s, Execute(next)))
  {
    InvStep(s, Execute(next));
    if CanExecute(s, next) {
      ExecuteSafe(s.row.value.completed, s.run.value.at, next);
    }
  }

  /** The guard of every Open, fresh or resumed. */
  ghost predicate OpenGuard(s: State) {
    s.up && s.row.Some? && s.run.Some? && !s.run.value.streaming ==>
      SafeFrom(s.row.value.completed, Entry(s, s.run.value.resume))
  }

  lemma CompleteGood(s: State)
    requires GoodInv(s)
    ensures GoodInv(Next(s, Complete))
  {
    InvStep(s, Complete);
    if s.up && s.run.Some? && s.run.value.streaming && !s.run.value.pending && s.run.value.at.next.None? {
      assert s.run.value.at.nodes == s.row.value.completed;
    }
  }

  lemma GoodStep(s: State, step: Step)
    requires GoodInv(s) && (step.Open? ==> OpenGuard(s))
    ensures GoodInv(Next(s, step))
  {
    match step
    case Handle => HandleGood(s);
    case Execute(next) => ExecuteGood(s, next);
    case Complete => CompleteGood(s);
    case _ => InvStep(s, step);
  }

  // ----- every continuation of a run ------------------------------------------------------------------

  predicate OfRun(step: Step) {
    step.Handle? || step.Execute? || step.Save? || step.Complete? || step.Fail? || step.End?
  }

  ghost predicate OnlyRun(steps: seq<Step>) {
    forall i | 0 <= i < |steps| :: OfRun(steps[i])
  }

  /** Whatever the nodes decide and wherever the run stops, the property holds. */
  ghost predicate GoodWhatever(s: State) {
    forall steps | OnlyRun(steps) :: Good(RunSteps(s, steps))
  }

  lemma {:induction false} GoodRuns(s: State, steps: seq<Step>)
    requires GoodInv(s) && OnlyRun(steps)
    ensures GoodInv(RunSteps(s, steps))
  {
    if steps != [] {
      GoodRuns(s, steps[..|steps| - 1]);
      GoodStep(RunSteps(s, steps[..|steps| - 1]), steps[|steps| - 1]);
    }
  }

  lemma GoodInvWhatever(s: State)
    requires GoodInv(s)
    ensures GoodWhatever(s)
  {
    forall steps | OnlyRun(steps) ensures Good(RunSteps(s, steps)) {
      GoodRuns(s, steps);
      GoodInvIsGood(RunSteps(s, steps));
    }
  }

  /** A run between two yields that is behind a record it agrees with so far. */
  ghost predicate Behind(s: State) {
    && Inv(s) && s.up && s.row.Some? && s.run.Some? && Walk(s.row.value.completed)
    && s.run.value.streaming && !s.run.value.pending && !s.run.value.done
    && s.run.value.at.nodes <= s.row.value.completed && |s.run.value.at.nodes| < |s.row.value.completed|
  }

  function SomeRoute(n: Node): (next: Option<Node>)
    ensures Routes(n, next)
  {
    match n
    case Ingest => None
    case Splitter => Some(Crag)
    case Crag => Some(SelfRag)
    case SelfRag => Some(RiskScore)
    case RiskScore => Some(Redline)
    case Redline => Some(Report)
    case SkipRedline => Some(Report)
    case Report => None
  }

  /** A router's other choice. */
  function OtherRoute(n: Node, route: Node): (next: Option<Node>)
    requires Router(n) && Routes(n, Some(route))
    ensures Routes(n, next) && next != Some(route)
  {
    if n == Ingest then None else if route == Redline then Some(SkipRedline) else Some(Redline)
  }

  /** A run that leads elsewhere than the record went breaks the property in one step. */
  lemma WrongWay(s: State) returns (step: Step)
    requires Behind(s) && s.run.value.at.next != Some(s.row.value.completed[|s.run.value.at.nodes|])
    ensures OfRun(step) && !Good(Next(s, step))
  {
    var at, completed := s.run.value.at, s.row.value.completed;
    if at.next.None? {
      step := Complete;
      assert Next(s, step).run.value.at.nodes == at.nodes != completed;
    } else {
      step := Execute(SomeRoute(at.next.value));
      var nodes := at.nodes + [at.next.value];
      assert Next(s, step).run.value.at.nodes == nodes;
      assert nodes[|at.nodes|] != completed[|at.nodes|];
    }
  }

  /** Running the record's next node again, with this decision, changes nothing but the stream. */
  lemma Again(s: State, next: Option<Node>)
    requires Behind(s) && s.run.value.at.next == Some(s.row.value.completed[|s.run.value.at.nodes|])
    requires Routes(s.run.value.at.next.value, next) && |s.run.value.at.nodes| + 1 < |s.row.value.completed|
    ensures var t := Next(Next(s, Execute(next)), Handle);
            Behind(t) && t.row == s.row && t.run.value.at == Executed(s.run.value.at, next)
  {
    var at, completed := s.run.value.at, s.row.value.completed;
    var t := Next(s, Execute(next));
    InvStep(s, Execute(next));
    InvStep(t, Handle);
    assert t.run.value.at.nodes == completed[..|at.nodes| + 1];
    assert completed[|at.nodes|] in Elements(completed);
  }

  /** A choice that the record has made already can be made differently, and then the property breaks. */
  lemma {:induction false} ChoosesAgain(s: State) returns (steps: seq<Step>)
    requires Behind(s) && s.run.value.at.next == Some(s.row.value.completed[|s.run.value.at.nodes|])
    requires exists j :: |s.run.value.at.nodes| <= j < |s.row.value.completed| - 1 && Router(s.row.value.completed[j])
    ensures OnlyRun(steps) && !Good(RunSteps(s, steps))
    decreases |s.row.value.completed| - |s.run.value.at.nodes|
  {
    var k, completed := |s.run.value.at.nodes|, s.row.value.completed;
    assert Routes(completed[k], Some(completed[k + 1]));
    if Router(completed[k]) {
      var other := OtherRoute(completed[k], completed[k + 1]);
      Again(s, other);
      var t := Next(Next(s, Execute(other)), Handle);
      var last := WrongWay(t);
      RunSingle(t, last);
      RunTwo(s, Execute(other), Handle, [last]);
      steps := [Execute(other), Handle] + [last];
    } else {
      var same := Some(completed[k + 1]);
      Again(s, same);
      var t := Next(Next(s, Execute(same)), Handle);
      var rest := ChoosesAgain(t);
      RunTwo(s, Execute(same), Handle, rest);
      steps := [Execute(same), Handle] + rest;
    }
  }

  /** A run that has just been opened. */
  ghost predicate JustOpened(s: State) {
    && Inv(s) && s.up && s.row.Some? && Walk(s.row.value.completed)
    && s.run.Some? && s.run.value.first && !s.run.value.done
  }

  /** A record that is a proper beginning of the executed nodes cannot have the last of them. */
  lemma NotedLast(nodes: seq<Node>, completed: seq<Node>)
    requires Walk(nodes) && nodes != [] && Noted(completed, Some(nodes[|nodes| - 1])) <= nodes
    ensures Noted(completed, Some(nodes[|nodes| - 1])) == nodes
  {
    var after, last := Noted(completed, Some(nodes[|nodes| - 1])), nodes[|nodes| - 1];
    WalkShape(nodes);
    assert last in after;
    var i :| 0 <= i < |after| && after[i] == last;
    assert nodes[i] == last;
  }

  /** The first yield breaks the property at once, or leaves the stream behind the record. */
  lemma FirstYield(s: State)
    requires JustOpened(s)
    ensures var t, after := Next(s, Handle), Noted(s.row.value.completed, NodeAt(s.run.value.at));
            && t.row == Some(s.row.value.(completed := after))
            && t.run.Some? && t.run.value.at == s.run.value.at
            && (Good(t) ==> Walk(after) && s.run.value.at.nodes <= after)
            && (Walk(after) && s.run.value.at.nodes <= after && |s.run.value.at.nodes| < |after| ==> Behind(t))
  {
    InvStep(s, Handle);
    HandleOutcome(s);
    var t, at := Next(s, Handle), s.run.value.at;
    var after := Noted(s.row.value.completed, NodeAt(at));
    if Good(t) && after <= at.nodes && at.nodes != [] {
      NotedLast(at.nodes, s.row.value.completed);
    }
  }

  /** An unsafe start has a continuation that breaks the property. */
  lemma UnsafeBreaks(s: State) returns (steps: seq<Step>)
    requires JustOpened(s) && !SafeFrom(s.row.value.completed, s.run.value.at)
    ensures OnlyRun(steps) && !Good(RunSteps(s, steps))
  {
    var t, at := Next(s, Handle), s.run.value.at;
    FirstYield(s);
    var after := t.row.value.completed;
    if !Good(t) {
      RunSingle(s, Handle);
      steps := [Handle];
    } else if at.next != Some(after[|at.nodes|]) {
      var last := WrongWay(t);
      RunSingle(t, last);
      RunFirst(s, Handle, [last]);
      steps := [Handle] + [last];
    } else {
      var rest := ChoosesAgain(t);
      RunFirst(s, Handle, rest);
      steps := [Handle] + rest;
    }
  }

  /** Which start is harmless: every continuation of a run that has just been opened, fresh or resumed,
      keeps the property if and only if the state it starts from is safe for the record. */
  lemma OpenSafeIff(s: State)
    requires JustOpened(s)
    ensures GoodWhatever(s) <==> SafeFrom(s.row.value.completed, s.run.value.at)
  {
    if SafeFrom(s.row.value.completed, s.run.value.at) {
      GoodInvWhatever(s);
    } else {
      var steps := UnsafeBreaks(s);
      assert OnlyRun(steps) && !Good(RunSteps(s, steps));
    }
  }

  /** What that comes to for a state with nodes behind it: it agrees with the record and is at most one
      node ahead of it, and where it is behind, the stream will only repeat the record. */
  lemma SafeWithNodesIff(completed: seq<Node>, p: Point)
    requires Walk(completed) && Sensible(p) && p.nodes != []
    ensures SafeFrom(completed, p) <==>
            (|p.nodes| == |completed| + 1 && completed <= p.nodes) || Repeats(p, completed)
  {
    var nodes := p.nodes;
    var last := nodes[|nodes| - 1];
    WalkShape(nodes);
    LastIsNew(nodes);
    if nodes <= completed {
      assert last == completed[|nodes| - 1];
    } else if |nodes| == |completed| + 1 && completed <= nodes {
      assert completed == nodes[..|nodes| - 1];
      assert completed + [last] == nodes;
    }
  }

  /** And for one without: no node is named, or one the record has, or the record's next one; and again
      the stream will only repeat the record. */
  lemma SafeWithoutNodesIff(completed: seq<Node>, p: Point)
    requires Walk(completed) && Sensible(p) && p.nodes == []
    ensures SafeFrom(completed, p) <==>
            Walk(Noted(completed, p.carried))
            && forall j | 0 <= j < |Noted(completed, p.carried)| - 1 :: !Router(Noted(completed, p.carried)[j])
  {
  }

  // ----- over histories -----------------------------------------------------------------------------

  ghost predicate SafeOpens(steps: seq<Step>) {
    steps != [] ==>
      && SafeOpens(steps[..|steps| - 1])
      && (steps[|steps| - 1].Open? ==> OpenGuard(RunSteps(UNBORN, steps[..|steps| - 1])))
  }

  ghost predicate AlwaysGood(steps: seq<Step>) {
    GoodWhatever(RunSteps(UNBORN, steps)) && (steps != [] ==> AlwaysGood(steps[..|steps| - 1]))
  }

  lemma {:induction false} SafeIsGood(steps: seq<Step>)
    requires SafeOpens(steps)
    ensures GoodInv(RunSteps(UNBORN, steps))
  {
    if steps != [] {
      SafeIsGood(steps[..|steps| - 1]);
      GoodStep(RunSteps(UNBORN, steps[..|steps| - 1]), steps[|steps| - 1]);
    }
  }

  /** A fresh run is safe to open exactly when no saved state is there, or it names no node or the first. */
  lemma FreshOpenSafeIff(s: State)
    requires Inv(s) && s.up && AboutToStartFresh(s)
    ensures OpenGuard(s) <==>
            (s.saver && s.thread.Some? ==> NodeAt(s.thread.value) == None || NodeAt(s.thread.value) == Some(Ingest))
  {
    NoElements(s.row.value.completed);
    SafeWithoutNodesIff([], Entry(s, false));
  }

  lemma UnsafeOpen(s: State)
    requires GoodInv(s) && !OpenGuard(s)
    ensures !GoodWhatever(Next(s, Open))
  {
    InvStep(s, Open);
    OpenSafeIff(Next(s, Open));
  }

  /** Over every history of crashes, boots and resumes, with nodes free to decide anew: the property holds
      at all times, however each run might have gone on, if and only if every run, fresh or resumed, was
      opened in a state safe for the record. */
  lemma {:induction false} AlwaysGoodIffSafeOpens(steps: seq<Step>)
    ensures AlwaysGood(steps) <==> SafeOpens(steps)
  {
    if SafeOpens(steps) {
      SafeIsGood(steps);
      GoodInvWhatever(RunSteps(UNBORN, steps));
    }
    if steps != [] {
      var less := steps[..|steps| - 1];
      AlwaysGoodIffSafeOpens(less);
      if SafeOpens(less) && !SafeOpens(steps) {
        SafeIsGood(less);
        UnsafeOpen(RunSteps(UNBORN, less));
      }
    } else {
      GoodInvWhatever(UNBORN);
    }
  }
}
