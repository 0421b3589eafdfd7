/** The per-job event buffer: one publishing worker thread, an event loop that runs callbacks in the
    order they were scheduled, and any number of clients that join and leave. */
module Events {
  import opened Options
  import opened Ranges

  datatype Event = Event(event: string, data: string)

  predicate Terminal(e: Event) {
    e.event == "completed" || e.event == "failed"
  }

  /** `q.put_nowait(event)`, scheduled on the loop. */
  datatype Callback = Callback(q: int, event: Event)

  /** The publisher between its locked section and the end of its fan-out loop. */
  datatype Fan = Fan(event: Event, rest: seq<int>)

  /** One `event_generator`: what it has yielded, the rest of its backlog snapshot, its queue; `live`
      when it has a queue at all, `done` when it has returned. */
  datatype Client = Client(seen: seq<Event>, todo: seq<Event>, queue: seq<Event>, live: bool, done: bool)

  datatype State = State(log: seq<Event>, closed: bool, subs: seq<int>, fan: Fan, ready: seq<Callback>,
                         clients: map<int, Client>)

  // ----- the atomic steps -----------------------------------------------------------------------------

  datatype Step =
    | Publish(event: Event)
    | CallSoon
    | RunCallback
    | Subscribe(id: int)
    | YieldBacklog(id: int)
    | Finish(id: int)
    | Get(id: int)
    | Leave(id: int)

  function Without(subs: seq<int>, id: int): seq<int> {
    if subs == [] then [] else if subs[0] == id then subs[1..] else [subs[0]] + Without(subs[1..], id)
  }

  predicate Running(s: State, id: int) {
    id in s.clients && !s.clients[id].done
  }

  function With(s: State, id: int, c: Client): State {
    s.(clients := s.clients[id := c])
  }

  /** An event put into the client's queue. */
  function Arrived(c: Client, e: Event): Client {
    c.(queue := c.queue + [e])
  }

  /** The first event of the queue taken out and yielded. */
  function Taken(c: Client): Client
    requires c.queue != []
  {
    c.(seen := c.seen + [c.queue[0]], queue := c.queue[1..])
  }

  function Gone(s: State, id: int): State
    requires id in s.clients
  {
    With(s, id, s.clients[id].(done := true)).(subs := Without(s.subs, id))
  }

  function Next(s: State, step: Step): State {
    match step
    case Publish(e) =>
      if s.fan.rest == [] then
        s.(log := s.log + [e], closed := s.closed || Terminal(e), fan := Fan(e, s.subs))
      else s
    case CallSoon =>
      if s.fan.rest != [] then
        s.(ready := s.ready + [Callback(s.fan.rest[0], s.fan.event)], fan := Fan(s.fan.event, s.fan.rest[1..]))
      else s
    case RunCallback =>
      if s.ready != [] && s.ready[0].q in s.clients then
        With(s, s.ready[0].q, Arrived(s.clients[s.ready[0].q], s.ready[0].event)).(ready := s.ready[1..])
      else s
    case Subscribe(id) =>
      if id !in s.clients then
        With(s, id, Client([], s.log, [], !s.closed, false)).(subs := if s.closed then s.subs else s.subs + [id])
      else s
    case YieldBacklog(id) =>
      if Running(s, id) && s.clients[id].todo != [] then
        var c := s.clients[id];
        With(s, id, c.(seen := c.seen + [c.todo[0]], todo := c.todo[1..]))
      else s
    case Finish(id) =>
      if Running(s, id) && s.clients[id].todo == [] && !s.clients[id].live then Gone(s, id) else s
    case Get(id) =>
      if Running(s, id) && s.clients[id].todo == [] && s.clients[id].queue != [] then
        var next := With(s, id, Taken(s.clients[id]));
        if Terminal(s.clients[id].queue[0]) then Gone(next, id) else next
      else s
    case Leave(id) =>
      if Running(s, id) then Gone(s, id) else s
  }

  function Run(s: State, steps: seq<Step>): State {
    if steps == [] then s else Next(Run(s, steps[..|steps| - 1]), steps[|steps| - 1])
  }

  const EMPTY := State([], false, [], Fan(Event("", ""), []), [], map[])

  // ----- the code -----------------------------------------------------------------------------------

  function FanOut(queues: seq<int>, event: Event): seq<Callback> {
    if queues == [] then [] else FanOut(queues[..|queues| - 1], event) + [Callback(queues[|queues| - 1], event)]
  }

  class JobEventBuffer {
    var backlog: seq<Event>
    var subscribers: seq<int>
    var closed: bool
    var ready: seq<Callback>
    var nextQueue: int

    constructor ()
      ensures backlog == [] && subscribers == [] && !closed && ready == [] && nextQueue == 0
    {
      backlog, subscribers, closed, ready, nextQueue := [], [], false, [], 0;
    }

    method Publish(event: Event)
      modifies this`backlog, this`closed, this`ready
      ensures backlog == old(backlog) + [event]
      ensures closed == (old(closed) || Terminal(event))
      ensures ready == old(ready) + FanOut(subscribers, event)
    {
      backlog := backlog + [event];
      if Terminal(event) {
        closed := true;
      }
      var queues := subscribers;
      for i := 0 to |queues|
        invariant ready == old(ready) + FanOut(queues[..i], event)
        invariant backlog == old(backlog) + [event] && closed == (old(closed) || Terminal(event))
      {
        ready := ready + [Callback(queues[i], event)];
        assert queues[..i + 1][..i] == queues[..i];
      }
      assert queues[..|queues|] == queues;
    }

    /** The backlog as it is, and a queue that will get everything published from now on; no queue when
        the job is already finished. */
    method Subscribe() returns (snapshot: seq<Event>, queue: Option<int>, finished: bool)
      modifies this`subscribers, this`nextQueue
      ensures snapshot == backlog && finished == closed
      ensures closed ==> queue == None && subscribers == old(subscribers)
      ensures !closed ==> queue == Some(old(nextQueue)) && nextQueue == old(nextQueue) + 1
      ensures !closed ==> subscribers == old(subscribers) + [queue.value]
    {
      snapshot, queue, finished := backlog, None, closed;
      if finished {
        return;
      }
      queue := Some(nextQueue);
      subscribers := subscribers + [nextQueue];
      nextQueue := nextQueue + 1;
    }

    method Unsubscribe(queue: int)
      modifies this`subscribers
      ensures subscribers == Without(old(subscribers), queue)
    {
      var i := 0;
      assert subscribers[..0] + Without(subscribers[0..], queue) == Without(subscribers, queue);
      while i < |subscribers| && subscribers[i] != queue
        invariant 0 <= i <= |subscribers| && subscribers == old(subscribers)
        invariant Without(subscribers, queue) == subscribers[..i] + Without(subscribers[i..], queue)
      {
        WithoutSkips(subscribers, i, queue);
        i := i + 1;
      }
      if i < |subscribers| {
        assert subscribers[i..][0] == queue && subscribers[i..][1..] == subscribers[i + 1..];
        assert Without(subscribers[i..], queue) == subscribers[i + 1..];
        subscribers := subscribers[..i] + subscribers[i + 1..];
      } else {
        assert subscribers[..i] + [] == subscribers;
      }
    }
  }

  lemma WithoutSkips(subs: seq<int>, i: nat, id: int)
    requires i < |subs| && subs[i] != id
    ensures subs[..i] + Without(subs[i..], id) == subs[..i + 1] + Without(subs[i + 1..], id)
  {
    var rest := Without(subs[i + 1..], id);
    assert subs[i..][1..] == subs[i + 1..];
    assert Without(subs[i..], id) == [subs[i]] + rest;
    assert subs[..i] + ([subs[i]] + rest) == subs[..i + 1] + rest;
  }

  /** One turn of the generator's loop: whether the client is still there, and what has been put into
      its queue by the end of the one-second wait. */
  datatype Turn = Turn(connected: bool, arrived: seq<Event>)

  function AllArrived(c: Client, events: seq<Event>): Client {
    c.(queue := c.queue + events)
  }

  /** A turn of a client that has its whole backlog; on an empty queue the wait times out. */
  function AfterTurn(c: Client, turn: Turn): Client {
    var there := AllArrived(c, turn.arrived);
    if c.done then c
    else if !turn.connected then there.(done := true)
    else if there.queue == [] then c
    else Taken(there).(done := Terminal(there.queue[0]))
  }

  function AfterTurns(c: Client, turns: seq<Turn>): Client {
    if turns == [] then c else AfterTurn(AfterTurns(c, turns[..|turns| - 1]), turns[|turns| - 1])
  }

  lemma {:induction false} DoneStays(c: Client, turns: seq<Turn>, k: nat)
    requires k <= |turns| && AfterTurns(c, turns[..k]).done
    ensures AfterTurns(c, turns) == AfterTurns(c, turns[..k])
  {
    if k < |turns| {
      var less := turns[..|turns| - 1];
      assert less[..k] == turns[..k];
      DoneStays(c, less, k);
    } else {
      assert turns[..k] == turns;
    }
  }

  /** A client that has joined and been given its backlog. */
  function Joined(backlog: seq<Event>): Client {
    Client(backlog, [], [], true, false)
  }

  /** The client's generator: the backlog first, then the queue turn by turn until a terminal event or a
      disconnect, and in the end no queue is left behind. */
  method EventGenerator(buffer: JobEventBuffer, turns: seq<Turn>) returns (yielded: seq<Event>)
    requires forall q | q in buffer.subscribers :: q < buffer.nextQueue
    modifies buffer`subscribers, buffer`nextQueue
    ensures yielded == if buffer.closed then buffer.backlog else AfterTurns(Joined(buffer.backlog), turns).seen
    ensures buffer.subscribers == old(buffer.subscribers)
  {
    var backlog, q, closed := buffer.Subscribe();
    yielded := [];
    for i := 0 to |backlog|
      invariant yielded == backlog[..i]
    {
      yielded := yielded + [backlog[i]];
    }
    if closed {
      return;
    }
    var queue, i := [], 0;
    ghost var k := 0;
    while i < |turns|
      invariant 0 <= i == k <= |turns|
      invariant AfterTurns(Joined(backlog), turns[..k]) == Client(yielded, [], queue, true, false)
    {
      assert turns[..i + 1][..i] == turns[..i];
      k := i + 1;
      queue := queue + turns[i].arrived;
      if !turns[i].connected {
        break;
      }
      if queue != [] {
        var ev := queue[0];
        queue := queue[1..];
        yielded := yielded + [ev];
        if Terminal(ev) {
          break;
        }
      }
      i := i + 1;
    }
    if AfterTurns(Joined(backlog), turns[..k]).done {
      DoneStays(Joined(backlog), turns, k);
    } else {
      assert turns[..k] == turns;
    }
    RemoveAdded(old(buffer.subscribers), q.value);
    buffer.Unsubscribe(q.value);
  }

  /** Everything put into the queue over the turns. */
  function Arrivals(turns: seq<Turn>): seq<Event> {
    if turns == [] then [] else Arrivals(turns[..|turns| - 1]) + turns[|turns| - 1].arrived
  }

  /** What the generator yields: the backlog, then arrivals from the first one on with none left out, up
      to a terminal event at most. */
  lemma {:induction false} GeneratorYields(backlog: seq<Event>, turns: seq<Turn>)
    ensures var c := AfterTurns(Joined(backlog), turns);
            && backlog <= c.seen <= backlog + Arrivals(turns)
            && (!c.done ==> c.seen + c.queue == backlog + Arrivals(turns))
            && (forall i | |backlog| <= i < |c.seen| && Terminal(c.seen[i]) :: c.done && i == |c.seen| - 1)
  {
    if turns != [] {
      var n := |turns| - 1;
      GeneratorYields(backlog, turns[..n]);
      TurnYields(backlog, AfterTurns(Joined(backlog), turns[..n]), Arrivals(turns[..n]), turns[n]);
    }
  }

  lemma TurnYields(backlog: seq<Event>, c: Client, arrivals: seq<Event>, turn: Turn)
    requires backlog <= c.seen <= backlog + arrivals
    requires !c.done ==> c.seen + c.queue == backlog + arrivals
    requires forall i | |backlog| <= i < |c.seen| && Terminal(c.seen[i]) :: c.done && i == |c.seen| - 1
    ensures var next, more := AfterTurn(c, turn), arrivals + turn.arrived;
            && backlog <= next.seen <= backlog + more
            && (!next.done ==> next.seen + next.queue == backlog + more)
            && (forall i | |backlog| <= i < |next.seen| && Terminal(next.seen[i]) :: next.done && i == |next.seen| - 1)
  {
    var there := c.queue + turn.arrived;
    assert backlog + (arrivals + turn.arrived) == backlog + arrivals + turn.arrived;
    if !c.done {
      assert c.seen + there == backlog + arrivals + turn.arrived;
      if turn.connected && there != [] {
        assert c.seen + [there[0]] + there[1..] == c.seen + there;
      }
    }
  }

  lemma {:induction false} RemoveAdded(subs: seq<int>, id: int)
    requires id !in subs
    ensures Without(subs + [id], id) == subs
  {
    if subs != [] {
      assert (subs + [id])[1..] == subs[1..] + [id];
      RemoveAdded(subs[1..], id);
    }
  }

  // ----- every arrival is yielded --------------------------------------------------------------------

  /** One connected turn: the first event there is, if any, is yielded and taken out of the queue, and the
      client returns exactly on a terminal one; without a connection nothing is yielded and it returns. */
  lemma OneTurn(c: Client, turn: Turn)
    requires !c.done
    ensures var q, next := c.queue + turn.arrived, AfterTurn(c, turn);
            && (turn.connected && q != [] ==>
                  next.seen == c.seen + [q[0]] && next.queue == q[1..]
                  && (next.done <==> q[0].event == "completed" || q[0].event == "failed"))
            && (turn.connected && q == [] ==> next == c)
            && (!turn.connected ==> next.seen == c.seen && next.done)
            && next.todo == c.todo && next.live == c.live
  {
  }

  /** Up to the first terminal event, and including it. */
  function Through(events: seq<Event>): seq<Event> {
    if events == [] then []
    else if events[0].event == "completed" || events[0].event == "failed" then [events[0]]
    else [events[0]] + Through(events[1..])
  }

  lemma {:induction false} ThroughSkips(quiet: seq<Event>, rest: seq<Event>)
    requires forall i | 0 <= i < |quiet| :: !Terminal(quiet[i])
    ensures Through(quiet + rest) == quiet + Through(rest)
  {
    if quiet == [] {
      assert quiet + rest == rest;
    } else {
      assert (quiet + rest)[0] == quiet[0] && (quiet + rest)[1..] == quiet[1..] + rest;
      ThroughSkips(quiet[1..], rest);
      assert [quiet[0]] + (quiet[1..] + Through(rest)) == quiet + Through(rest);
    }
  }

  lemma ThroughStops(quiet: seq<Event>, last: Event, rest: seq<Event>)
    requires (forall i | 0 <= i < |quiet| :: !Terminal(quiet[i])) && Terminal(last)
    ensures Through(quiet + [last] + rest) == quiet + [last]
  {
    ThroughSkips(quiet, [last] + rest);
    assert quiet + [last] + rest == quiet + ([last] + rest);
    assert ([last] + rest)[0] == last;
  }

  function Idle(n: nat): seq<Turn> {
    seq(n, _ => Turn(true, []))
  }

  lemma {:induction false} TurnsConcat(c: Client, a: seq<Turn>, b: seq<Turn>)
    ensures AfterTurns(c, a + b) == AfterTurns(AfterTurns(c, a), b)
  {
    if b == [] {
      assert a + b == a;
    } else {
      assert (a + b)[..|a + b| - 1] == a + b[..|b| - 1];
      TurnsConcat(c, a, b[..|b| - 1]);
    }
  }

  lemma IdleFirst(c: Client, n: nat)
    requires n > 0
    ensures AfterTurns(c, Idle(n)) == AfterTurns(AfterTurn(c, Turn(true, [])), Idle(n - 1))
  {
    assert Idle(n) == [Turn(true, [])] + Idle(n - 1);
    TurnsConcat(c, [Turn(true, [])], Idle(n - 1));
    assert [Turn(true, [])][..0] == [];
  }

  lemma IdleTurn(c: Client)
    requires !c.done
    ensures var next := AfterTurn(c, Turn(true, []));
            && (c.queue == [] ==> next == c)
            && (c.queue != [] ==> next.seen == c.seen + [c.queue[0]] && next.queue == c.queue[1..]
                                  && next.done == Terminal(c.queue[0]))
  {
    assert c.queue + [] == c.queue;
  }

  lemma ThroughFirst(seen: seq<Event>, queue: seq<Event>)
    requires queue != []
    ensures seen + Through(queue)
         == if Terminal(queue[0]) then seen + [queue[0]] else seen + [queue[0]] + Through(queue[1..])
  {
    assert seen + ([queue[0]] + Through(queue[1..])) == seen + [queue[0]] + Through(queue[1..]);
  }

  /** As many turns without arrivals as there are events in the queue empty it, or end at a terminal one. */
  lemma {:induction false} IdleTurnsDrain(c: Client, n: nat)
    requires !c.done && |c.queue| <= n
    ensures AfterTurns(c, Idle(n)).seen == c.seen + Through(c.queue)
    decreases n
  {
    if n > 0 {
      var next := AfterTurn(c, Turn(true, []));
      IdleFirst(c, n);
      IdleTurn(c);
      if c.queue == [] {
        IdleTurnsDrain(c, n - 1);
      } else {
        ThroughFirst(c.seen, c.queue);
        if next.done {
          DoneStays(next, Idle(n - 1), 0);
        } else {
          IdleTurnsDrain(next, n - 1);
        }
      }
    }
  }

  ghost predicate AllConnected(turns: seq<Turn>) {
    forall i | 0 <= i < |turns| :: turns[i].connected
  }

  /** While it stays connected, a client returns on a terminal event only. */
  lemma {:induction false} DoneIsTerminal(backlog: seq<Event>, turns: seq<Turn>)
    requires AllConnected(turns)
    ensures var c := AfterTurns(Joined(backlog), turns);
            c.done ==> |c.seen| > |backlog| && Terminal(c.seen[|c.seen| - 1])
  {
    if turns != [] {
      var n := |turns| - 1;
      DoneIsTerminal(backlog, turns[..n]);
      GeneratorYields(backlog, turns[..n]);
    }
  }

  lemma PrefixSplits(backlog: seq<Event>, all: seq<Event>, seen: seq<Event>) returns (k: nat)
    requires backlog <= seen <= backlog + all
    ensures k <= |all| && |seen| == |backlog| + k && seen == backlog + all[..k] && all == all[..k] + all[k..]
    ensures forall i | 0 <= i < k :: seen[|backlog| + i] == all[i]
  {
    k := |seen| - |backlog|;
    assert seen == (backlog + all)[..|seen|];
  }

  lemma Reassociate(a: seq<Event>, b: seq<Event>, c: seq<Event>)
    ensures a + b + c == a + (b + c)
  {
  }

  lemma YieldedWhenDone(backlog: seq<Event>, all: seq<Event>, seen: seq<Event>)
    requires backlog <= seen <= backlog + all && |seen| > |backlog| && Terminal(seen[|seen| - 1])
    requires forall i | |backlog| <= i < |seen| - 1 :: !Terminal(seen[i])
    ensures seen == backlog + Through(all)
  {
    var k := PrefixSplits(backlog, all, seen);
    assert all[..k] == all[..k - 1] + [all[k - 1]];
    ThroughStops(all[..k - 1], all[k - 1], all[k..]);
  }

  lemma YieldedWhenDrained(backlog: seq<Event>, all: seq<Event>, seen: seq<Event>, queue: seq<Event>)
    requires backlog <= seen <= backlog + all && seen + queue == backlog + all
    requires forall i | |backlog| <= i < |seen| :: !Terminal(seen[i])
    ensures seen + Through(queue) == backlog + Through(all)
  {
    var k := PrefixSplits(backlog, all, seen);
    QueueIsRest(backlog, all, seen, queue, k);
    ThroughSkips(all[..k], all[k..]);
    Reassociate(backlog, all[..k], Through(all[k..]));
  }

  /** A client that stays connected, and has as many turns more as there are arrivals, is given the backlog
      and every arrival up to the first terminal one, in order, and nothing after it. */
  lemma EveryArrivalIsYielded(backlog: seq<Event>, turns: seq<Turn>, n: nat)
    requires AllConnected(turns) && |Arrivals(turns)| <= n
    ensures AfterTurns(Joined(backlog), turns + Idle(n)).seen == backlog + Through(Arrivals(turns))
  {
    var c, all := AfterTurns(Joined(backlog), turns), Arrivals(turns);
    GeneratorYields(backlog, turns);
    TurnsConcat(Joined(backlog), turns, Idle(n));
    if c.done {
      DoneIsTerminal(backlog, turns);
      DoneStays(c, Idle(n), 0);
      YieldedWhenDone(backlog, all, c.seen);
    } else {
      QueueIsShort(backlog, all, c);
      IdleTurnsDrain(c, n);
      YieldedWhenDrained(backlog, all, c.seen, c.queue);
    }
  }

  lemma QueueIsShort(backlog: seq<Event>, all: seq<Event>, c: Client)
    requires backlog <= c.seen && c.seen + c.queue == backlog + all
    ensures |c.queue| <= |all|
  {
    assert |c.seen + c.queue| == |backlog + all|;
  }

  lemma QueueIsRest(backlog: seq<Event>, all: seq<Event>, seen: seq<Event>, queue: seq<Event>, k: nat)
    requires seen + queue == backlog + all && k <= |all| && |seen| == |backlog| + k
    ensures queue == all[k..]
  {
    assert queue == (seen + queue)[|seen|..] == (backlog + all)[|seen|..];
  }

  lemma DeliversOne(s: State, id: int, c: Client, events: seq<Event>)
    requires s.ready != [] && s.ready[0].q in s.clients && id in s.clients && s.clients[id] == AllArrived(c, events)
    ensures var t := Next(s, RunCallback);
            && t.clients.Keys == s.clients.Keys && t.ready == s.ready[1..]
            && t.clients[id] == AllArrived(c, events + if s.ready[0].q == id then [s.ready[0].event] else [])
  {
    assert c.queue + events + [s.ready[0].event] == c.queue + (events + [s.ready[0].event]);
    assert events + [] == events;
  }

  lemma CallbacksSnoc(s: State, n: nat)
    requires n > 0
    ensures Run(s, seq(n, _ => RunCallback)) == Next(Run(s, seq(n - 1, _ => RunCallback)), RunCallback)
  {
    assert seq(n, _ => RunCallback)[..n - 1] == seq(n - 1, _ => RunCallback);
  }

  lemma PendingOneMore(ready: seq<Callback>, n: nat, id: int)
    requires 0 < n <= |ready|
    ensures Pending(ready[..n], id)
         == Pending(ready[..n - 1], id) + if ready[n - 1].q == id then [ready[n - 1].event] else []
    ensures ready[n - 1..][0] == ready[n - 1] && ready[n - 1..][1..] == ready[n..]
  {
    assert ready[..n] == ready[..n - 1] + [ready[n - 1]];
    PendingSnoc(ready[..n - 1], ready[n - 1], id);
  }

  /** The loop runs n callbacks: the client's queue gets those of them that are its own. */
  lemma {:induction false} Delivers(s: State, n: nat, id: int)
    requires n <= |s.ready| && id in s.clients && forall i | 0 <= i < n :: s.ready[i].q in s.clients
    ensures var t := Run(s, seq(n, _ => RunCallback));
            && t.clients.Keys == s.clients.Keys && t.ready == s.ready[n..]
            && t.clients[id] == AllArrived(s.clients[id], Pending(s.ready[..n], id))
  {
    if n == 0 {
      assert s.ready[0..] == s.ready && s.clients[id].queue + [] == s.clients[id].queue;
    } else {
      Delivers(s, n - 1, id);
      CallbacksSnoc(s, n);
      PendingOneMore(s.ready, n, id);
      DeliversOne(Run(s, seq(n - 1, _ => RunCallback)), id, s.clients[id], Pending(s.ready[..n - 1], id));
    }
  }

  /** The client's own step in a turn, given what its queue holds by then: none when the wait times out. */
  function OwnStep(id: int, queue: seq<Event>, connected: bool): seq<Step> {
    if !connected then [Leave(id)] else if queue != [] then [Get(id)] else []
  }

  lemma OwnStepTakesTurn(t: State, id: int, c: Client, turn: Turn)
    requires id in t.clients && t.clients[id] == AllArrived(c, turn.arrived) && !c.done && c.todo == []
    ensures var next := Run(t, OwnStep(id, t.clients[id].queue, turn.connected));
            id in next.clients && next.clients[id] == AfterTurn(c, turn)
  {
    var own := OwnStep(id, t.clients[id].queue, turn.connected);
    if own != [] {
      assert own == [own[0]] && own[..0] == [];
    } else {
      assert c.queue + turn.arrived == c.queue;
    }
  }

  lemma RunOneMore(s: State, steps: seq<Step>, own: seq<Step>)
    requires |own| <= 1
    ensures Run(s, steps + own) == Run(Run(s, steps), own)
  {
    if own == [] {
      assert steps + own == steps;
    } else {
      assert (steps + own)[..|steps|] == steps && own[..0] == [];
    }
  }

  /** A turn of a client's generator is so many callbacks of the loop followed by its own step. */
  lemma TurnRefines(s: State, id: int, n: nat, connected: bool)
    requires Running(s, id) && s.clients[id].todo == []
    requires n <= |s.ready| && forall i | 0 <= i < n :: s.ready[i].q in s.clients
    ensures var turn := Turn(connected, Pending(s.ready[..n], id));
            var own := OwnStep(id, AllArrived(s.clients[id], turn.arrived).queue, connected);
            var t := Run(s, seq(n, _ => RunCallback) + own);
            id in t.clients && t.clients[id] == AfterTurn(s.clients[id], turn)
  {
    var steps, turn := seq(n, _ => RunCallback), Turn(connected, Pending(s.ready[..n], id));
    Delivers(s, n, id);
    OwnStepTakesTurn(Run(s, steps), id, s.clients[id], turn);
    RunOneMore(s, steps, OwnStep(id, AllArrived(s.clients[id], turn.arrived).queue, connected));
  }

  lemma {:induction false} FanProgress(s: State, n: nat)
    requires n <= |s.fan.rest|
    ensures Run(s, seq(n, _ => CallSoon))
         == s.(ready := s.ready + FanOut(s.fan.rest[..n], s.fan.event), fan := Fan(s.fan.event, s.fan.rest[n..]))
  {
    if n == 0 {
      assert s.ready + [] == s.ready && s.fan.rest[0..] == s.fan.rest;
    } else {
      FanProgress(s, n - 1);
      assert seq(n, _ => CallSoon)[..n - 1] == seq(n - 1, _ => CallSoon);
      assert s.fan.rest[..n][..n - 1] == s.fan.rest[..n - 1];
      assert s.fan.rest[n - 1..][1..] == s.fan.rest[n..];
      var last := [Callback(s.fan.rest[n - 1], s.fan.event)];
      assert s.ready + FanOut(s.fan.rest[..n - 1], s.fan.event) + last
          == s.ready + (FanOut(s.fan.rest[..n - 1], s.fan.event) + last);
    }
  }

  /** The publish step followed by one call_soon step per subscriber does what JobEventBuffer.Publish
      does in one go. */
  lemma PublishRefines(s: State, event: Event)
    requires s.fan.rest == []
    ensures Run(Next(s, Publish(event)), seq(|s.subs|, _ => CallSoon))
         == s.(log := s.log + [event], closed := s.closed || Terminal(event),
               ready := s.ready + FanOut(s.subs, event), fan := Fan(event, []))
  {
    FanProgress(Next(s, Publish(event)), |s.subs|);
    assert s.subs[..|s.subs|] == s.subs && s.subs[|s.subs|..] == [];
  }

  // ----- the invariant ------------------------------------------------------------------------------

  /** The events on their way to queue `id` in the loop's callback list. */
  function Pending(ready: seq<Callback>, id: int): seq<Event> {
    if ready == [] then []
    else (if ready[0].q == id then [ready[0].event] else []) + Pending(ready[1..], id)
  }

  function FanPart(fan: Fan, id: int): seq<Event> {
    if id in fan.rest then [fan.event] else []
  }

  /** Everything a client has, will yield from its snapshot, holds in its queue, or is being sent. */
  function Whole(s: State, id: int): seq<Event>
    requires id in s.clients
  {
    var c := s.clients[id];
    c.seen + c.todo + c.queue + Pending(s.ready, id) + FanPart(s.fan, id)
  }

  ghost predicate WellNamed(s: State) {
    && Distinct(s.subs) && Distinct(s.fan.rest)
    && (forall id | id in s.subs :: Running(s, id) && s.clients[id].live)
    && (forall id | id in s.clients && s.clients[id].live && !s.clients[id].done :: id in s.subs)
    && (forall id | id in s.fan.rest :: id in s.clients && s.clients[id].live)
    && (forall i | 0 <= i < |s.ready| :: s.ready[i].q in s.clients && s.clients[s.ready[i].q].live)
  }

  /** No loss, no duplicate, no reordering: what the client gets is a prefix of the log, and as long as
      it is subscribed, all of it. */
  ghost predicate Served(s: State, id: int)
    requires id in s.clients
  {
    && Whole(s, id) <= s.log
    && (id in s.subs ==> Whole(s, id) == s.log)
  }

  ghost predicate Inv(s: State) {
    WellNamed(s) && forall id | id in s.clients :: Served(s, id)
  }

  lemma {:induction false} PendingSnoc(ready: seq<Callback>, cb: Callback, id: int)
    ensures Pending(ready + [cb], id) == Pending(ready, id) + if cb.q == id then [cb.event] else []
  {
    if ready != [] {
      assert (ready + [cb])[1..] == ready[1..] + [cb];
      PendingSnoc(ready[1..], cb, id);
    }
  }

  lemma {:induction false} NothingPending(ready: seq<Callback>, id: int)
    requires forall i | 0 <= i < |ready| :: ready[i].q != id
    ensures Pending(ready, id) == []
  {
    if ready != [] {
      NothingPending(ready[1..], id);
    }
  }

  lemma {:induction false} WithoutMembers(subs: seq<int>, id: int)
    requires Distinct(subs)
    ensures forall u :: u in Without(subs, id) <==> u in subs && u != id
    ensures Distinct(Without(subs, id))
  {
    if subs != [] {
      assert subs == [subs[0]] + subs[1..];
      WithoutMembers(subs[1..], id);
      assert subs[0] !in subs[1..];
    }
  }

  lemma CallSoonNamed(s: State)
    requires WellNamed(s)
    ensures WellNamed(Next(s, CallSoon))
  {
    if s.fan.rest != [] {
      var rest := s.fan.rest[1..];
      assert forall id | id in rest :: id in s.fan.rest;
      assert s.fan.rest[0] in s.fan.rest;
    }
  }

  /** Replacing the record of a running client by another one keeps everything well named. */
  lemma WithNamed(s: State, id: int, c: Client)
    requires WellNamed(s) && Running(s, id) && c.live == s.clients[id].live && !c.done
    ensures WellNamed(With(s, id, c))
  {
  }

  lemma CallbackNamed(s: State)
    requires WellNamed(s)
    ensures WellNamed(Next(s, RunCallback))
  {
    if s.ready != [] {
      var q := s.ready[0].q;
      var next := Next(s, RunCallback);
      assert next.clients.Keys == s.clients.Keys;
      assert forall id | id in s.clients ::
          next.clients[id].live == s.clients[id].live && next.clients[id].done == s.clients[id].done;
      assert forall i | 0 <= i < |next.ready| :: next.ready[i] == s.ready[i + 1];
    }
  }

  lemma SubscribeNamed(s: State, id: int)
    requires WellNamed(s)
    ensures WellNamed(Next(s, Subscribe(id)))
  {
    if id !in s.clients {
      var next := Next(s, Subscribe(id));
      assert id !in s.subs;
      assert forall u | u in s.clients :: next.clients[u] == s.clients[u];
      assert forall u :: u in next.subs <==> u in s.subs || (u == id && !s.closed);
    }
  }

  lemma GoneNamed(s: State, id: int)
    requires WellNamed(s) && Running(s, id)
    ensures WellNamed(Gone(s, id))
  {
    WithoutMembers(s.subs, id);
  }

  lemma StepNamed(s: State, step: Step)
    requires WellNamed(s)
    ensures WellNamed(Next(s, step))
  {
    match step
    case Publish(e) =>
    case CallSoon => CallSoonNamed(s);
    case RunCallback => CallbackNamed(s);
    case Subscribe(id) => SubscribeNamed(s, id);
    case YieldBacklog(id) =>
      if Next(s, step) != s {
        WithNamed(s, id, Next(s, step).clients[id]);
      }
    case Finish(id) =>
      if Running(s, id) {
        GoneNamed(s, id);
      }
    case Get(id) => GetNamed(s, id);
    case Leave(id) =>
      if Running(s, id) {
        GoneNamed(s, id);
      }
  }

  lemma GetNamed(s: State, id: int)
    requires WellNamed(s)
    ensures WellNamed(Next(s, Get(id)))
  {
    if Running(s, id) && s.clients[id].todo == [] && s.clients[id].queue != [] {
      var c := s.clients[id];
      var took := c.(seen := c.seen + [c.queue[0]], queue := c.queue[1..]);
      WithNamed(s, id, took);
      GoneNamed(With(s, id, took), id);
    }
  }

  lemma PublishServes(s: State, e: Event, id: int)
    requires WellNamed(s) && id in s.clients && Served(s, id)
    ensures Served(Next(s, Publish(e)), id)
  {
    if s.fan.rest == [] {
      var next := Next(s, Publish(e));
      assert Whole(next, id) == Whole(s, id) + FanPart(next.fan, id);
    }
  }

  lemma CallSoonServes(s: State, id: int)
    requires WellNamed(s) && id in s.clients && Served(s, id)
    ensures Served(Next(s, CallSoon), id)
  {
    if s.fan.rest != [] {
      var next := Next(s, CallSoon);
      PendingSnoc(s.ready, Callback(s.fan.rest[0], s.fan.event), id);
      assert s.fan.rest == [s.fan.rest[0]] + s.fan.rest[1..];
      assert Pending(next.ready, id) + FanPart(next.fan, id) == Pending(s.ready, id) + FanPart(s.fan, id);
      Regroup(s.clients[id].seen, s.clients[id].todo, s.clients[id].queue, Pending(s.ready, id), FanPart(s.fan, id));
      Regroup(s.clients[id].seen, s.clients[id].todo, s.clients[id].queue, Pending(next.ready, id),
              FanPart(next.fan, id));
    }
  }

  lemma Regroup(seen: seq<Event>, todo: seq<Event>, queue: seq<Event>, pending: seq<Event>, fan: seq<Event>)
    ensures seen + todo + queue + pending + fan == seen + (todo + (queue + pending + fan))
    ensures seen + todo + queue + pending + fan == seen + todo + queue + (pending + fan)
  {
  }

  lemma Moved(seen: seq<Event>, todo: seq<Event>, queue: seq<Event>, e: Event, rest: seq<Event>, fan: seq<Event>)
    ensures seen + todo + (queue + [e]) + rest + fan == seen + todo + queue + ([e] + rest) + fan
  {
  }

  lemma CallbackServes(s: State, id: int)
    requires WellNamed(s) && id in s.clients && Served(s, id)
    ensures Served(Next(s, RunCallback), id)
  {
    if s.ready != [] {
      var c := s.clients[id];
      var rest, fan := Pending(s.ready[1..], id), FanPart(s.fan, id);
      if s.ready[0].q == id {
        Moved(c.seen, c.todo, c.queue, s.ready[0].event, rest, fan);
      } else {
        assert [] + rest == rest;
      }
      assert Whole(Next(s, RunCallback), id) == Whole(s, id);
    }
  }

  lemma BacklogServes(s: State, step: Step, id: int)
    requires WellNamed(s) && id in s.clients && Served(s, id) && step.YieldBacklog?
    ensures Served(Next(s, step), id)
  {
    if id == step.id && Next(s, step) != s {
      var c := s.clients[id];
      assert c.seen + [c.todo[0]] + c.todo[1..] == c.seen + c.todo;
    }
  }

  lemma GoneServes(s: State, gone: int, id: int)
    requires WellNamed(s) && Running(s, gone) && id in s.clients && Served(s, id)
    ensures Served(Gone(s, gone), id)
  {
    WithoutMembers(s.subs, gone);
    assert Whole(Gone(s, gone), id) == Whole(s, id);
  }

  lemma GetServes(s: State, step: Step, id: int)
    requires WellNamed(s) && id in s.clients && Served(s, id) && step.Get?
    ensures Served(Next(s, step), id)
  {
    if Running(s, step.id) && s.clients[step.id].todo == [] && s.clients[step.id].queue != [] {
      var c := s.clients[step.id];
      var took := c.(seen := c.seen + [c.queue[0]], queue := c.queue[1..]);
      var next := With(s, step.id, took);
      assert c.seen + [] + c.queue == took.seen + [] + took.queue;
      assert Whole(next, id) == Whole(s, id);
      WithNamed(s, step.id, took);
      GoneServes(next, step.id, id);
    }
  }

  lemma JoinerServed(s: State, id: int)
    requires WellNamed(s) && id !in s.clients
    ensures Served(Next(s, Subscribe(id)), id)
  {
    NothingPending(s.ready, id);
    assert id !in s.fan.rest;
    assert [] + s.log + [] + [] + [] == s.log;
    assert Whole(Next(s, Subscribe(id)), id) == s.log;
  }

  lemma OthersServed(s: State, joiner: int, id: int)
    requires WellNamed(s) && id in s.clients && Served(s, id) && joiner != id
    ensures Served(Next(s, Subscribe(joiner)), id)
  {
  }

  lemma StepServes(s: State, step: Step, id: int)
    requires WellNamed(s) && id in Next(s, step).clients && (id in s.clients ==> Served(s, id))
    ensures Served(Next(s, step), id)
  {
    match step
    case Publish(e) => PublishServes(s, e, id);
    case CallSoon => CallSoonServes(s, id);
    case RunCallback => CallbackServes(s, id);
    case Subscribe(joiner) =>
      if id !in s.clients {
        JoinerServed(s, id);
      } else if joiner != id {
        OthersServed(s, joiner, id);
      }
    case YieldBacklog(_) => BacklogServes(s, step, id);
    case Get(_) => GetServes(s, step, id);
    case Finish(gone) =>
      if Running(s, gone) {
        GoneServes(s, gone, id);
      }
    case Leave(gone) =>
      if Running(s, gone) {
        GoneServes(s, gone, id);
      }
  }

  lemma InvStep(s: State, step: Step)
    requires Inv(s)
    ensures Inv(Next(s, step))
  {
    StepNamed(s, step);
    forall id | id in Next(s, step).clients ensures Served(Next(s, step), id) {
      StepServes(s, step, id);
    }
  }

  lemma {:induction false} RunInv(steps: seq<Step>)
    ensures Inv(Run(EMPTY, steps))
  {
    if steps != [] {
      RunInv(steps[..|steps| - 1]);
      InvStep(Run(EMPTY, steps[..|steps| - 1]), steps[|steps| - 1]);
    }
  }

  // ----- what clients see ---------------------------------------------------------------------------

  /** In every interleaving, what a client has yielded is a prefix of what was published. */
  lemma SeenIsPrefix(steps: seq<Step>, id: int)
    requires id in Run(EMPTY, steps).clients
    ensures Run(EMPTY, steps).clients[id].seen <= Run(EMPTY, steps).log
  {
    RunInv(steps);
    var s := Run(EMPTY, steps);
    assert s.clients[id].seen <= Whole(s, id);
  }

  /** Once the publisher and the loop have nothing left to do, a subscribed client that has drained its
      snapshot and its queue has seen everything. */
  lemma DrainedHasSeenAll(steps: seq<Step>, id: int)
    requires var s := Run(EMPTY, steps);
             && id in s.subs && s.fan.rest == [] && s.ready == []
             && id in s.clients && s.clients[id].todo == [] && s.clients[id].queue == []
    ensures Run(EMPTY, steps).clients[id].seen == Run(EMPTY, steps).log
  {
    RunInv(steps);
    assert Served(Run(EMPTY, steps), id);
  }

  /** The worker publishes nothing after a terminal event. */
  ghost predicate Disciplined(steps: seq<Step>) {
    steps != [] ==>
      && Disciplined(steps[..|steps| - 1])
      && (steps[|steps| - 1].Publish? ==> !Run(EMPTY, steps[..|steps| - 1]).closed)
  }

  /** The log is closed exactly when its last event is terminal, no earlier one is, and a client without
      a queue joined after that and gets the whole log. */
  ghost predicate Ended(s: State) {
    && (forall i | 0 <= i < |s.log| && Terminal(s.log[i]) :: s.closed && i == |s.log| - 1)
    && (s.closed ==> s.log != [] && Terminal(s.log[|s.log| - 1]))
    && (forall id | id in s.clients && !s.clients[id].live ::
          s.closed && s.clients[id].queue == [] && s.clients[id].seen + s.clients[id].todo == s.log)
  }

  lemma EndedLog(s: State, step: Step)
    requires Ended(s) && (step.Publish? ==> !s.closed)
    ensures var next := Next(s, step);
            && (forall i | 0 <= i < |next.log| && Terminal(next.log[i]) :: next.closed && i == |next.log| - 1)
            && (next.closed ==> next.log != [] && Terminal(next.log[|next.log| - 1]))
            && (s.closed ==> next.log == s.log && next.closed)
  {
  }

  lemma EndedClient(s: State, step: Step, id: int)
    requires WellNamed(s) && Ended(s) && (step.Publish? ==> !s.closed)
    requires id in Next(s, step).clients && !Next(s, step).clients[id].live
    ensures var c := Next(s, step).clients[id];
            Next(s, step).closed && c.queue == [] && c.seen + c.todo == Next(s, step).log
  {
    EndedLog(s, step);
    if id in s.clients {
      assert !s.clients[id].live;
      if step.YieldBacklog? && step.id == id && Next(s, step) != s {
        var c := s.clients[id];
        assert c.seen + [c.todo[0]] + c.todo[1..] == c.seen + c.todo;
      }
    }
  }

  lemma EndedStep(s: State, step: Step)
    requires WellNamed(s) && Ended(s) && (step.Publish? ==> !s.closed)
    ensures Ended(Next(s, step))
  {
    var next := Next(s, step);
    EndedLog(s, step);
    forall id | id in next.clients && !next.clients[id].live
      ensures next.closed && next.clients[id].queue == []
      ensures next.clients[id].seen + next.clients[id].todo == next.log
    {
      EndedClient(s, step, id);
    }
  }

  lemma {:induction false} RunEnded(steps: seq<Step>)
    requires Disciplined(steps)
    ensures Ended(Run(EMPTY, steps))
  {
    if steps != [] {
      var n := |steps| - 1;
      RunEnded(steps[..n]);
      RunInv(steps[..n]);
      EndedStep(Run(EMPTY, steps[..n]), steps[n]);
    }
  }

  /** A client that joins a finished job gets no queue, and its backlog is the whole log for ever. */
  lemma LateJoinerHasSeenAll(steps: seq<Step>, id: int)
    requires Disciplined(steps)
    requires id in Run(EMPTY, steps).clients && !Run(EMPTY, steps).clients[id].live
    requires Run(EMPTY, steps).clients[id].todo == []
    ensures var s := Run(EMPTY, steps); s.clients[id].seen == s.log && s.closed && s.clients[id].queue == []
  {
    RunEnded(steps);
    var c := Run(EMPTY, steps).clients[id];
    assert c.seen + c.todo == c.seen;
  }

  /** A client that has been given a terminal event has been given the whole log. */
  lemma TerminalComesLast(steps: seq<Step>, id: int, k: nat)
    requires Disciplined(steps)
    requires id in Run(EMPTY, steps).clients && k < |Run(EMPTY, steps).clients[id].seen|
    requires Terminal(Run(EMPTY, steps).clients[id].seen[k])
    ensures Run(EMPTY, steps).clients[id].seen == Run(EMPTY, steps).log
  {
    RunEnded(steps);
    SeenIsPrefix(steps, id);
    var s := Run(EMPTY, steps);
    assert s.log[k] == s.clients[id].seen[k];
  }

  // ----- and every client can see everything ----------------------------------------------------------

  /** The client's next event: the first of its queue is yielded and taken out, and the client is gone
      exactly on a terminal one. */
  lemma GetYields(s: State, id: int)
    requires Running(s, id) && s.clients[id].todo == [] && s.clients[id].queue != []
    ensures var c, t := s.clients[id], Next(s, Get(id));
            && id in t.clients && t.clients[id].seen == c.seen + [c.queue[0]] && t.clients[id].queue == c.queue[1..]
            && (t.clients[id].done <==> c.queue[0].event == "completed" || c.queue[0].event == "failed")
            && t.log == s.log && t.ready == s.ready && (!t.clients[id].done ==> t.subs == s.subs)
  {
  }

  /** What is left to be done before the client has everything. */
  function OneStep(s: State, id: int): Option<Step>
    requires id in s.clients
  {
    if s.fan.rest != [] then Some(CallSoon)
    else if s.ready != [] then Some(RunCallback)
    else if s.clients[id].todo != [] then Some(YieldBacklog(id))
    else if s.clients[id].queue != [] then Some(Get(id))
    else None
  }

  lemma NothingLeft(s: State, id: int)
    requires Inv(s) && Ended(s) && Running(s, id) && OneStep(s, id) == None
    ensures s.clients[id].seen == s.log
  {
    assert Served(s, id);
    assert Whole(s, id) == s.clients[id].seen;
  }

  lemma TerminalIsAll(s: State, id: int)
    requires Inv(s) && Ended(s) && id in s.clients
    requires s.clients[id].seen != [] && Terminal(s.clients[id].seen[|s.clients[id].seen| - 1])
    ensures s.clients[id].seen == s.log
  {
    assert Served(s, id);
    var seen := s.clients[id].seen;
    assert seen <= Whole(s, id);
    assert s.log[|seen| - 1] == seen[|seen| - 1];
  }

  function Left(s: State, id: int): nat
    requires id in s.clients
  {
    3 * |s.fan.rest| + 2 * |s.ready| + |s.clients[id].todo| + |s.clients[id].queue|
  }

  lemma StepIsCloser(s: State, id: int)
    requires WellNamed(s) && Running(s, id) && OneStep(s, id).Some?
    ensures var t := Next(s, OneStep(s, id).value);
            && t.log == s.log && id in t.clients && Left(t, id) < Left(s, id)
            && (t.clients[id].done ==>
                  t.clients[id].seen != [] && Terminal(t.clients[id].seen[|t.clients[id].seen| - 1]))
  {
    if s.ready != [] {
      assert s.ready[0].q in s.clients;
    }
  }

  lemma OneStepCloser(s: State, id: int)
    requires Inv(s) && Ended(s) && Running(s, id) && OneStep(s, id).Some?
    ensures var t := Next(s, OneStep(s, id).value);
            && Inv(t) && Ended(t) && t.log == s.log && id in t.clients && Left(t, id) < Left(s, id)
            && (t.clients[id].done ==> t.clients[id].seen == t.log)
  {
    var step := OneStep(s, id).value;
    InvStep(s, step);
    EndedStep(s, step);
    StepIsCloser(s, id);
    if Next(s, step).clients[id].done {
      TerminalIsAll(Next(s, step), id);
    }
  }

  /** Callbacks, and the client's own turns. */
  ghost predicate Delivering(steps: seq<Step>, id: int) {
    forall i | 0 <= i < |steps| ::
      steps[i].CallSoon? || steps[i].RunCallback? || steps[i] == YieldBacklog(id) || steps[i] == Get(id)
  }

  lemma {:induction false} RunFirst(s: State, step: Step, rest: seq<Step>)
    ensures Run(s, [step] + rest) == Run(Next(s, step), rest)
  {
    if rest == [] {
      assert [step] + rest == [step] && [step][..0] == [];
    } else {
      assert ([step] + rest)[..|rest|] == [step] + rest[..|rest| - 1];
      RunFirst(s, step, rest[..|rest| - 1]);
    }
  }

  lemma {:induction false} DeliversAll(s: State, id: int) returns (steps: seq<Step>)
    requires Inv(s) && Ended(s) && Running(s, id)
    ensures Delivering(steps, id) && id in Run(s, steps).clients && Run(s, steps).clients[id].seen == s.log
    decreases Left(s, id)
  {
    if OneStep(s, id) == None {
      NothingLeft(s, id);
      steps := [];
    } else {
      var step := OneStep(s, id).value;
      OneStepCloser(s, id);
      if Next(s, step).clients[id].done {
        steps := [];
        RunFirst(s, step, []);
      } else {
        steps := DeliversAll(Next(s, step), id);
        RunFirst(s, step, steps);
      }
      steps := [step] + steps;
    }
  }

  /** From every state that a disciplined publisher leads to, a client that has not returned can be brought
      to see the whole log, by callbacks of the loop and turns of its own alone. */
  lemma EveryClientCanSeeAll(steps: seq<Step>, id: int) returns (more: seq<Step>)
    requires Disciplined(steps) && Running(Run(EMPTY, steps), id)
    ensures var s := Run(EMPTY, steps);
            Delivering(more, id) && id in Run(s, more).clients && Run(s, more).clients[id].seen == s.log
  {
    RunInv(steps);
    RunEnded(steps);
    more := DeliversAll(Run(EMPTY, steps), id);
  }
}
