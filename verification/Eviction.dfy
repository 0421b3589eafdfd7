/** Retention in the job registry: `add` inserts a job, prunes the store, takes the pruned jobs out of
    the live table, takes their store handle away and prunes again, while worker threads keep writing
    rows through every record that still has a handle. */
module Eviction {
  import opened Ranges
  type Id = string

  /** The `submitted_at` of each job: set once, and different for different jobs. */
  type Clock = Id -> int

  ghost predicate Injective(at: Clock) {
    forall a, b | a != b :: at(a) != at(b)
  }

  // ----- which rows are the newest ------------------------------------------------------------------

  function Newer(at: Clock, ids: set<Id>, id: Id): set<Id> {
    set j | j in ids && at(j) > at(id)
  }

  /** `ORDER BY submitted_at DESC LIMIT -1 OFFSET max`: the rows with at least `max` newer ones. */
  function Victims(at: Clock, max: nat, ids: set<Id>): set<Id> {
    set id | id in ids && |Newer(at, ids, id)| >= max
  }

  function Newest(at: Clock, max: nat, ids: set<Id>): set<Id> {
    ids - Victims(at, max, ids)
  }

  lemma Oldest(at: Clock, ids: set<Id>) returns (o: Id)
    requires ids != {}
    ensures o in ids && forall id | id in ids :: at(o) <= at(id)
    decreases ids
  {
    o :| o in ids;
    if ids != {o} {
      var p := Oldest(at, ids - {o});
      if at(p) < at(o) {
        o := p;
      }
    }
  }

  /** Leaving out the oldest row changes the rank of no other one. */
  lemma VictimsWithoutOldest(at: Clock, max: nat, ids: set<Id>, o: Id)
    requires Injective(at) && o in ids && forall id | id in ids :: at(o) <= at(id)
    ensures Victims(at, max, ids) == Victims(at, max, ids - {o}) + if |ids| > max then {o} else {}
  {
    forall id | id in ids - {o} ensures Newer(at, ids, id) == Newer(at, ids - {o}, id) {
    }
    assert Newer(at, ids, o) == ids - {o};
  }

  lemma {:induction false} VictimCount(at: Clock, max: nat, ids: set<Id>)
    requires Injective(at)
    ensures |Victims(at, max, ids)| == if |ids| < max then 0 else |ids| - max
    decreases ids
  {
    if ids == {} {
      assert Victims(at, max, ids) == {};
    } else {
      var o := Oldest(at, ids);
      VictimCount(at, max, ids - {o});
      VictimsWithoutOldest(at, max, ids, o);
      assert o !in Victims(at, max, ids - {o});
    }
  }

  /** Pruning keeps `max` rows, or all of them when there are fewer. */
  lemma NewestCount(at: Clock, max: nat, ids: set<Id>)
    requires Injective(at)
    ensures |Newest(at, max, ids)| == if |ids| < max then |ids| else max
  {
    VictimCount(at, max, ids);
    assert Victims(at, max, ids) <= ids;
  }

  /** Every row kept is newer than every row dropped. */
  lemma KeptIsNewer(at: Clock, max: nat, ids: set<Id>, kept: Id, dropped: Id)
    requires Injective(at) && kept in Newest(at, max, ids) && dropped in Victims(at, max, ids)
    ensures at(kept) > at(dropped)
  {
    if at(kept) < at(dropped) {
      SubsetSize(Newer(at, ids, dropped), Newer(at, ids, kept));
    }
  }

  /** Pruning again, with any of the dropped rows back, drops exactly those. */
  lemma PruneAgainAgrees(at: Clock, max: nat, ids: set<Id>, some: set<Id>)
    requires Injective(at) && Newest(at, max, ids) <= some <= ids
    ensures Newest(at, max, some) == Newest(at, max, ids)
    ensures Victims(at, max, some) <= Victims(at, max, ids)
  {
    var kept := Newest(at, max, ids);
    forall id | id in some ensures id in kept <==> id in Newest(at, max, some) {
      SubsetSize(Newer(at, some, id), Newer(at, ids, id));
      if id !in kept {
        forall k | k in kept ensures at(k) > at(id) {
          KeptIsNewer(at, max, ids, k, id);
        }
        SubsetSize(kept, Newer(at, some, id));
        SubsetSize(Newer(at, ids, id), ids);
        NewestCount(at, max, ids);
      }
    }
  }

  // ----- the code, with no write in between -----------------------------------------------------------

  datatype Row = Row(status: string, progress: int)

  /** The live table in insertion order, without the ids in `gone`. */
  function Keep(live: seq<Id>, gone: set<Id>): seq<Id> {
    if live == [] then []
    else
      var kept, last := Keep(live[..|live| - 1], gone), live[|live| - 1];
      if last in gone then kept else kept + [last]
  }

  lemma {:induction false} KeepTwice(live: seq<Id>, a: set<Id>, b: set<Id>)
    ensures Keep(Keep(live, a), b) == Keep(live, a + b)
    ensures forall id :: id in Keep(live, a) <==> id in live && id !in a
  {
    if live != [] {
      KeepTwice(live[..|live| - 1], a, b);
      var kept, last := Keep(live[..|live| - 1], a), live[|live| - 1];
      assert (kept + [last])[..|kept|] == kept;
      assert live == live[..|live| - 1] + [last];
    }
  }

  lemma {:induction false} KeepAll(live: seq<Id>)
    ensures Keep(live, {}) == live
  {
    if live != [] {
      KeepAll(live[..|live| - 1]);
    }
  }

  lemma DropFirst(ids: seq<Id>, k: nat)
    requires k < |ids|
    ensures ids[k..][1..] == ids[k + 1..]
  {
  }

  class JobRegistry {
    const at: Clock
    const max: nat
    const durable: bool
    /** Whether there is a checkpointer. */
    const saver: bool
    var store: map<Id, Row>
    var live: seq<Id>
    /** The jobs whose record has a store handle. */
    var handles: set<Id>
    /** The jobs with a checkpoint thread. */
    var threads: set<Id>

    constructor (at: Clock, max: nat, durable: bool, saver: bool, store: map<Id, Row>, threads: set<Id>)
      ensures this.at == at && this.max == max && this.durable == durable && this.saver == saver
      ensures this.store == store && live == [] && handles == {} && this.threads == threads
    {
      this.at, this.max, this.durable, this.saver := at, max, durable, saver;
      this.store, live, handles, this.threads := store, [], {}, threads;
    }

    method Prune() returns (victims: set<Id>)
      modifies this`store
      ensures victims == Victims(at, max, old(store).Keys) && store == old(store) - victims
    {
      victims := Victims(at, max, store.Keys);
      store := store - victims;
    }

    /** Takes the victims out of the live table and returns those that were in it. */
    method PopVictims(victims: set<Id>) returns (evicted: set<Id>)
      modifies this`live
      ensures live == Keep(old(live), victims)
      ensures evicted == set v | v in victims && v in old(live)
    {
      evicted := {};
      var todo := victims;
      KeepAll(live);
      assert victims - todo == {};
      while todo != {}
        invariant todo <= victims && live == Keep(old(live), victims - todo)
        invariant evicted == set v | v in victims - todo && v in old(live)
      {
        var v :| v in todo;
        KeepTwice(old(live), victims - todo, {v});
        if v in live {
          evicted := evicted + {v};
        }
        live := Keep(live, {v});
        assert victims - (todo - {v}) == (victims - todo) + {v};
        todo := todo - {v};
      }
      assert victims - todo == victims;
    }

    /** Without a store: eviction by insertion order. */
    method EvictByInsertion()
      modifies this`live
      ensures live == if |old(live)| > max then old(live)[|old(live)| - max..] else old(live)
    {
      ghost var was, k := live, 0;
      while |live| > max
        invariant k <= |was| && live == was[k..] && (k > 0 ==> |live| >= max)
      {
        DropFirst(was, k);
        live := live[1..];
        k := k + 1;
      }
    }

    /** With a store: prune, pop, take the handles away, prune again, delete the threads. */
    method EvictPruned() returns (dropped: set<Id>)
      requires Injective(at) && handles <= store.Keys && forall id | id in handles :: id in live
      modifies this`store, this`live, this`handles, this`threads
      ensures threads == if saver then old(threads) - dropped else old(threads)
      ensures dropped == Victims(at, max, old(store).Keys) && store == old(store) - dropped
      ensures live == Keep(old(live), dropped) && handles == old(handles) - dropped
    {
      var victims := Prune();
      var evicted := PopVictims(victims);
      handles := handles - evicted;
      PruneAgainAgrees(at, max, old(store).Keys, store.Keys);
      var again := Prune();
      dropped := victims + again;
      assert again == {};
      DeleteThreads(dropped);
    }

    method DeleteThreads(dropped: set<Id>)
      modifies this`threads
      ensures threads == if saver then old(threads) - dropped else old(threads)
    {
      var todo := dropped;
      while todo != {}
        invariant todo <= dropped && threads == if saver then old(threads) - (dropped - todo) else old(threads)
      {
        var v :| v in todo;
        if saver {
          threads := threads - {v};
        }
        todo := todo - {v};
      }
    }

    /** With a store, the newest `max` rows stay, only their records keep a handle, and no other job keeps
        a checkpoint thread; without one, the last `max` jobs added stay live. */
    method Add(job: Id, row: Row) returns (dropped: set<Id>)
      requires Injective(at) && job !in store && job !in live
      requires forall id | id in handles :: id in live
      requires durable ==> handles <= store.Keys
      modifies this
      ensures durable ==> dropped == Victims(at, max, old(store).Keys + {job})
      ensures durable ==> store == old(store)[job := row] - dropped && |store.Keys| <= max
      ensures durable ==> live == Keep(old(live) + [job], dropped) && handles == old(handles) + {job} - dropped
      ensures threads == if durable && saver then old(threads) - dropped else old(threads)
      ensures !durable ==> store == old(store) && handles == old(handles) && dropped == {}
      ensures !durable ==> var l := old(live) + [job]; live == if |l| > max then l[|l| - max..] else l
    {
      dropped := {};
      live := live + [job];
      if !durable {
        EvictByInsertion();
        return;
      }
      handles := handles + {job};
      store := store[job := row];
      assert store.Keys == old(store).Keys + {job};
      NewestCount(at, max, store.Keys);
      dropped := EvictPruned();
      assert store.Keys == Newest(at, max, old(store).Keys + {job});
    }
  }

  // ----- the protocol, one atomic step at a time ----------------------------------------------------

  datatype Phase =
    | Idle
    | Entered(job: Id)                            // live, with a handle
    | Inserted                                    // queued row written
    | Pruned(victims: set<Id>)                    // after the first prune
    | Popped(victims: set<Id>, todo: set<Id>)     // out of the live table; `todo` still have a handle

  /** `base` are the ids of the rows when the current or latest `add` began, and its own; `written` the
      last row written for each id. */
  datatype State = State(store: map<Id, Row>, live: set<Id>, handles: set<Id>, phase: Phase,
                         base: set<Id>, added: bool, written: map<Id, Row>)

  datatype Step =
    | Enter(job: Id)
    | Insert(row: Row)
    | Prune
    | Pop
    | NullOut(id: Id)
    | PruneAgain
    | Write(id: Id, row: Row)
    | Rehydrate(id: Id)

  function Written(s: State, id: Id, row: Row): State {
    s.(store := s.store[id := row], written := s.written[id := row])
  }

  function Next(at: Clock, max: nat, s: State, step: Step): State {
    match step
    case Enter(job) =>
      if s.phase.Idle? && job !in s.store && job !in s.live then
        s.(live := s.live + {job}, handles := s.handles + {job}, phase := Entered(job),
           base := s.store.Keys + {job}, added := true)
      else s
    case Insert(row) =>
      if s.phase.Entered? then Written(s, s.phase.job, row).(phase := Inserted) else s
    case Prune =>
      if s.phase.Inserted? then
        var victims := Victims(at, max, s.store.Keys);
        s.(store := s.store - victims, phase := Pruned(victims))
      else s
    case Pop =>
      if s.phase.Pruned? then
        s.(live := s.live - s.phase.victims, phase := Popped(s.phase.victims, s.phase.victims * s.live))
      else s
    case NullOut(id) =>
      if s.phase.Popped? && id in s.phase.todo then
        s.(handles := s.handles - {id}, phase := Popped(s.phase.victims, s.phase.todo - {id}))
      else s
    case PruneAgain =>
      if s.phase.Popped? && s.phase.todo == {} then
        s.(store := s.store - Victims(at, max, s.store.Keys), phase := Idle)
      else s
    case Write(id, row) =>
      if id in s.handles then Written(s, id, row) else s
    case Rehydrate(id) =>
      if s.phase.Idle? && id in s.store && id !in s.live then
        s.(live := s.live + {id}, handles := s.handles + {id})
      else s
  }

  function Run(at: Clock, max: nat, s: State, steps: seq<Step>): State {
    if steps == [] then s else Next(at, max, Run(at, max, s, steps[..|steps| - 1]), steps[|steps| - 1])
  }

  // ----- the invariant ------------------------------------------------------------------------------

  ghost predicate Remembered(s: State) {
    s.store.Keys <= s.written.Keys && forall id | id in s.store :: s.store[id] == s.written[id]
  }

  ghost predicate PhaseInv(at: Clock, max: nat, s: State) {
    match s.phase
    case Idle =>
      && s.handles <= s.live && s.handles <= s.store.Keys
      && (s.added ==> s.store.Keys == Newest(at, max, s.base) && s.live !! Victims(at, max, s.base))
    case Entered(job) =>
      && s.handles <= s.live && s.handles <= s.base
      && s.base - {job} <= s.store.Keys <= s.base && job in s.base
    case Inserted =>
      && s.handles <= s.live && s.handles <= s.base && s.store.Keys == s.base
    case Pruned(victims) =>
      && s.handles <= s.live && s.handles <= s.base && victims == Victims(at, max, s.base)
      && Newest(at, max, s.base) <= s.store.Keys <= s.base
    case Popped(victims, todo) =>
      && s.handles <= s.live + todo && s.handles <= s.base && victims == Victims(at, max, s.base)
      && s.handles * victims <= todo && s.live !! victims
      && Newest(at, max, s.base) <= s.store.Keys <= s.base
  }

  ghost predicate Inv(at: Clock, max: nat, s: State) {
    Injective(at) && Remembered(s) && PhaseInv(at, max, s)
  }

  lemma InvStep(at: Clock, max: nat, s: State, step: Step)
    requires Inv(at, max, s)
    ensures Inv(at, max, Next(at, max, s, step))
  {
    match step
    case PruneAgain =>
      if s.phase.Popped? {
        PruneAgainAgrees(at, max, s.base, s.store.Keys);
      }
    case _ =>
  }

  /** An insert and a write-through put in the row they bring, a write-through only for a record that has a
      handle; and only a prune takes rows out. */
  lemma StepsOfTheStore(at: Clock, max: nat, s: State, step: Step, id: Id)
    ensures var t := Next(at, max, s, step);
            && (step.Insert? && s.phase.Entered? ==> t.store == s.store[s.phase.job := step.row])
            && (step.Write? ==> t.store == if step.id in s.handles then s.store[step.id := step.row] else s.store)
            && (id in s.store && id !in t.store ==> step.Prune? || step.PruneAgain?)
  {
  }

  /** The first prune leaves no more rows than the limit. */
  lemma PruneKeepsLimit(at: Clock, max: nat, s: State)
    requires Injective(at) && s.phase.Inserted?
    ensures |Next(at, max, s, Prune).store.Keys| <= max && Next(at, max, s, Prune).store.Keys <= s.store.Keys
  {
    NewestCount(at, max, s.store.Keys);
    assert Next(at, max, s, Prune).store.Keys == Newest(at, max, s.store.Keys);
  }

  /** Entering, or rehydrating, makes the record live and gives it a handle; and a record is without one after
      its turn in the null-out. */
  lemma StepsOfTheHandles(at: Clock, max: nat, s: State, step: Step)
    ensures var t := Next(at, max, s, step);
            && (step.NullOut? && s.phase.Popped? && step.id in s.phase.todo ==> step.id !in t.handles)
            && (step.Enter? && t != s ==> step.job in t.live && step.job in t.handles)
            && (step.Rehydrate? && s.phase.Idle? && step.id in s.store && step.id !in s.live ==>
                  step.id in t.live && step.id in t.handles)
  {
  }

  lemma {:induction false} RunInv(at: Clock, max: nat, s: State, steps: seq<Step>)
    requires Inv(at, max, s)
    ensures Inv(at, max, Run(at, max, s, steps))
  {
    if steps != [] {
      RunInv(at, max, s, steps[..|steps| - 1]);
      InvStep(at, max, Run(at, max, s, steps[..|steps| - 1]), steps[|steps| - 1]);
    }
  }

  /** A registry over any store, before its first `add`. */
  function Booted(store: map<Id, Row>): State {
    State(store, {}, {}, Idle, {}, false, store)
  }

  lemma EveryRunInv(at: Clock, max: nat, store: map<Id, Row>, steps: seq<Step>)
    requires Injective(at)
    ensures Inv(at, max, Run(at, max, Booted(store), steps))
  {
    RunInv(at, max, Booted(store), steps);
  }

  // ----- what every interleaving keeps --------------------------------------------------------------

  ghost predicate NoEnter(steps: seq<Step>) {
    forall i | 0 <= i < |steps| :: !steps[i].Enter?
  }

  lemma {:induction false} SameBase(at: Clock, max: nat, s: State, steps: seq<Step>)
    requires NoEnter(steps)
    ensures Run(at, max, s, steps).base == s.base && Run(at, max, s, steps).added == s.added
  {
    if steps != [] {
      SameBase(at, max, s, steps[..|steps| - 1]);
    }
  }

  /** Gone for good: no row, no handle, not in the live table, not the job being added. */
  ghost predicate Evicted(s: State, id: Id) {
    id !in s.store && id !in s.handles && id !in s.live && (s.phase.Entered? ==> s.phase.job != id)
  }

  /** However the workers' writes fall between the phases of `add`: when it is over, the store holds
      exactly the newest `max` of the old rows and the new one, each as it was last written, only
      their records can still write, and every other one is evicted. */
  lemma AddKeepsNewest(at: Clock, max: nat, s: State, job: Id, steps: seq<Step>)
    requires Inv(at, max, s) && s.phase.Idle? && job !in s.store && job !in s.live && NoEnter(steps)
    requires Run(at, max, Next(at, max, s, Enter(job)), steps).phase.Idle?
    ensures var t := Run(at, max, Next(at, max, s, Enter(job)), steps);
            && t.store.Keys == Newest(at, max, s.store.Keys + {job})
            && (forall id | id in t.store :: id in t.written && t.store[id] == t.written[id])
            && t.handles <= t.store.Keys
            && |t.store| <= max
            && forall id | id in Victims(at, max, s.store.Keys + {job}) :: Evicted(t, id)
  {
    var entered := Next(at, max, s, Enter(job));
    InvStep(at, max, s, Enter(job));
    RunInv(at, max, entered, steps);
    SameBase(at, max, entered, steps);
    NewestCount(at, max, s.store.Keys + {job});
    var t := Run(at, max, entered, steps);
    assert |t.store| == |t.store.Keys|;
  }

  /** The second prune removes only rows that the first one had removed. */
  lemma SecondPruneIsPartOfFirst(at: Clock, max: nat, s: State)
    requires Inv(at, max, s) && s.phase.Popped?
    ensures Victims(at, max, s.store.Keys) <= s.phase.victims
    ensures s.phase.victims == Victims(at, max, s.base)
  {
    PruneAgainAgrees(at, max, s.base, s.store.Keys);
  }

  lemma {:induction false} EvictedForGood(at: Clock, max: nat, s: State, steps: seq<Step>, id: Id)
    requires Evicted(s, id) && forall i | 0 <= i < |steps| :: steps[i] != Enter(id)
    ensures Evicted(Run(at, max, s, steps), id)
  {
    if steps != [] {
      EvictedForGood(at, max, s, steps[..|steps| - 1], id);
    }
  }

  // ----- and an add can always finish -----------------------------------------------------------------

  /** The next step of the `add` under way. */
  ghost function OwnStep(s: State, row: Row): Step
    requires !s.phase.Idle?
  {
    match s.phase
    case Entered(_) => Insert(row)
    case Inserted => Prune
    case Pruned(_) => Pop
    case Popped(_, todo) => if todo == {} then PruneAgain else var id :| id in todo; NullOut(id)
  }

  /** How many steps it still has to make. */
  function Remaining(s: State): nat {
    match s.phase
    case Idle => 0
    case Entered(_) => 4 + |s.live|
    case Inserted => 3 + |s.live|
    case Pruned(_) => 2 + |s.live|
    case Popped(_, todo) => 1 + |todo|
  }

  lemma OwnStepCloser(at: Clock, max: nat, s: State, row: Row)
    requires !s.phase.Idle?
    ensures Remaining(Next(at, max, s, OwnStep(s, row))) < Remaining(s)
  {
    if s.phase.Pruned? {
      SubsetSize(s.phase.victims * s.live, s.live);
    }
  }

  lemma {:induction false} RunFirst(at: Clock, max: nat, s: State, step: Step, rest: seq<Step>)
    ensures Run(at, max, s, [step] + rest) == Run(at, max, Next(at, max, s, step), rest)
  {
    if rest == [] {
      assert [step] + rest == [step] && [step][..0] == [];
    } else {
      assert ([step] + rest)[..|rest|] == [step] + rest[..|rest| - 1];
      RunFirst(at, max, s, step, rest[..|rest| - 1]);
    }
  }

  /** Whatever was written in between, an `add` that has begun can be finished by its own steps. */
  lemma {:induction false} AddCanFinish(at: Clock, max: nat, s: State, row: Row) returns (steps: seq<Step>)
    ensures NoEnter(steps) && Run(at, max, s, steps).phase.Idle?
    decreases Remaining(s)
  {
    steps := [];
    if !s.phase.Idle? {
      var step := OwnStep(s, row);
      OwnStepCloser(at, max, s, row);
      var rest := AddCanFinish(at, max, Next(at, max, s, step), row);
      RunFirst(at, max, s, step, rest);
      steps := [step] + rest;
    }
  }
}
