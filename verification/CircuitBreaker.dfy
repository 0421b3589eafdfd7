/** The circuit breaker that nodes 3 to 6 of the pipeline keep for one run.

    Nodes 4, 5 and 6 each hold a dictionary `cb` with a counter of consecutive failures and two
    flags, and each has its own copy of `_account`.  The three copies are the same, so they are
    modelled once.  `calls` is the run's whole call trace (true = the call gave an answer), which
    the program never stores: it is what the breaker is characterised by. */
module CircuitBreaker {

  datatype Breaker = Breaker(failures: nat, open: bool, tripped: bool)

  const CLOSED := Breaker(0, false, false)

  /** One accounted call: an answer clears the counter, a failure advances it and may open. */
  function Accounted(b: Breaker, success: bool, threshold: int): Breaker {
    if success then
      b.(failures := 0)
    else if b.failures + 1 >= threshold && !b.open then
      Breaker(b.failures + 1, true, true)
    else
      b.(failures := b.failures + 1)
  }

  /** The breaker after a sequence of accounted calls. */
  function Feed(b: Breaker, calls: seq<bool>, threshold: int): Breaker {
    if calls == [] then b
    else Accounted(Feed(b, calls[..|calls| - 1], threshold), calls[|calls| - 1], threshold)
  }

  function After(calls: seq<bool>, threshold: int): Breaker {
    Feed(CLOSED, calls, threshold)
  }

  /** A threshold below one still needs a failure before the test on the counter is reached. */
  function Needed(threshold: int): nat {
    if threshold < 1 then 1 else threshold
  }

  /** The call at `i` completes `n` consecutive failures. */
  ghost predicate FailureRun(calls: seq<bool>, i: nat, n: nat) {
    && i < |calls|
    && n <= i + 1
    && forall j | i + 1 - n <= j <= i :: !calls[j]
  }

  /** No call is made once the breaker is open. */
  ghost predicate Quiet(calls: seq<bool>, threshold: int) {
    forall i | 0 <= i < |calls| :: !After(calls[..i], threshold).open
  }

  /** `cb` as the nodes share it with their helpers. */
  class Circuit {
    const threshold: int
    var consecutiveFailures: nat
    var open: bool
    var tripped: bool
    ghost var calls: seq<bool>

    ghost function State(): Breaker
      reads this
    {
      Breaker(consecutiveFailures, open, tripped)
    }

    ghost predicate Valid()
      reads this
    {
      State() == After(calls, threshold) && Quiet(calls, threshold)
    }

    constructor (threshold: int)
      ensures this.threshold == threshold
      ensures State() == CLOSED && calls == [] && Valid()
    {
      this.threshold := threshold;
      consecutiveFailures, open, tripped, calls := 0, false, false, [];
    }

    method Account(success: bool)
      requires Valid()
      modifies this
      ensures State() == Accounted(old(State()), success, threshold)
      ensures calls == old(calls) + [success]
      ensures State() == After(calls, threshold)
      ensures !old(open) ==> Valid()
    {
      if !success {
        consecutiveFailures := consecutiveFailures + 1;
        if consecutiveFailures >= threshold && !open {
          open := true;
          tripped := true;
        }
      } else {
        consecutiveFailures := 0;
      }
      calls := calls + [success];
      assert calls[..|calls| - 1] == old(calls);
      if !old(open) {
        QuietStep(old(calls), success, threshold);
      }
    }
  }

  lemma QuietStep(calls: seq<bool>, success: bool, threshold: int)
    requires Quiet(calls, threshold) && !After(calls, threshold).open
    ensures Quiet(calls + [success], threshold)
  {
    var more := calls + [success];
    forall i | 0 <= i < |more|
      ensures !After(more[..i], threshold).open
    {
      if i < |calls| {
        assert more[..i] == calls[..i];
      } else {
        assert more[..i] == calls;
      }
    }
  }

  lemma FeedStep(b: Breaker, calls: seq<bool>, success: bool, threshold: int)
    ensures Feed(b, calls + [success], threshold)
         == Accounted(Feed(b, calls, threshold), success, threshold)
  {
    assert (calls + [success])[..|calls|] == calls;
  }

  lemma {:induction false} StaysOpen(b: Breaker, calls: seq<bool>, threshold: int)
    ensures b.open ==> Feed(b, calls, threshold).open
    decreases |calls|
  {
    if calls != [] {
      StaysOpen(b, calls[..|calls| - 1], threshold);
    }
  }

  lemma FeedOne(b: Breaker, success: bool, threshold: int)
    ensures Feed(b, [success], threshold) == Accounted(b, success, threshold)
  {
    FeedStep(b, [], success, threshold);
    assert [] + [success] == [success];
  }

  lemma {:induction false} FeedConcat(b: Breaker, first: seq<bool>, second: seq<bool>, threshold: int)
    ensures Feed(b, first + second, threshold) == Feed(Feed(b, first, threshold), second, threshold)
    decreases |second|
  {
    if second == [] {
      assert first + second == first;
    } else {
      var n := |second| - 1;
      FeedConcat(b, first, second[..n], threshold);
      assert first + second == (first + second[..n]) + [second[n]];
      FeedStep(b, first + second[..n], second[n], threshold);
    }
  }

  /** The counter is exactly the length of the trace's trailing block of failures. */
  lemma {:induction false} CounterIsTrailingFailures(calls: seq<bool>, threshold: int)
    ensures var n := After(calls, threshold).failures;
            && n <= |calls|
            && (forall j | |calls| - n <= j < |calls| :: !calls[j])
            && (n < |calls| ==> calls[|calls| - n - 1])
    decreases |calls|
  {
    if calls != [] {
      CounterIsTrailingFailures(calls[..|calls| - 1], threshold);
    }
  }

  lemma FailureRunOfPrefix(calls: seq<bool>, k: nat, i: nat, n: nat)
    requires i < k <= |calls|
    ensures FailureRun(calls[..k], i, n) <==> FailureRun(calls, i, n)
  {
    assert forall j | 0 <= j < k :: calls[..k][j] == calls[j];
  }

  /** The breaker is open exactly when some call completed the needed number of consecutive
      failures, and the health flag says the same thing as the breaker. */
  lemma {:induction false} OpenIffFailureRun(calls: seq<bool>, threshold: int)
    ensures After(calls, threshold).open <==> exists i: nat :: FailureRun(calls, i, Needed(threshold))
    ensures After(calls, threshold).tripped == After(calls, threshold).open
    decreases |calls|
  {
    if calls != [] {
      var last, need := |calls| - 1, Needed(threshold);
      OpenIffFailureRun(calls[..last], threshold);
      forall i: nat | i < last
        ensures FailureRun(calls[..last], i, need) <==> FailureRun(calls, i, need)
      {
        FailureRunOfPrefix(calls, last, i, need);
      }
      LastRun(calls, threshold);
      if i: nat :| FailureRun(calls, i, need) && !FailureRun(calls, last, need) {
        assert FailureRun(calls[..last], i, need);
      }
    }
  }

  /** The counter has reached the threshold exactly when the last call completes a run. */
  lemma LastRun(calls: seq<bool>, threshold: int)
    requires calls != []
    ensures FailureRun(calls, |calls| - 1, Needed(threshold))
       <==> (!calls[|calls| - 1] && After(calls, threshold).failures >= threshold)
  {
    CounterIsTrailingFailures(calls, threshold);
  }

  /** The opening call: the breaker goes from closed to open at `i` exactly when `i` is the first
      call of the trace that completes the needed number of consecutive failures. */
  lemma OpensAtFirstFailureRun(calls: seq<bool>, threshold: int, i: nat)
    requires i < |calls|
    ensures (!After(calls[..i], threshold).open && After(calls[..i + 1], threshold).open)
       <==> (FailureRun(calls, i, Needed(threshold))
             && forall j: nat | j < i :: !FailureRun(calls, j, Needed(threshold)))
  {
    var need, before, upTo := Needed(threshold), calls[..i], calls[..i + 1];
    OpenIffFailureRun(before, threshold);
    OpenIffFailureRun(upTo, threshold);
    forall j: nat | j <= i
      ensures FailureRun(upTo, j, need) <==> FailureRun(calls, j, need)
    {
      FailureRunOfPrefix(calls, i + 1, j, need);
    }
    forall j: nat | j < i
      ensures FailureRun(before, j, need) <==> FailureRun(calls, j, need)
    {
      FailureRunOfPrefix(calls, i, j, need);
    }
    if j: nat :| FailureRun(upTo, j, need) && j < i {
      assert FailureRun(before, j, need);
    }
  }

  /** In a trace with no call after the opening, the breaker is open exactly when the trace's last
      calls are the needed consecutive failures; no earlier call completed them. */
  lemma QuietTraceEndsAtOpening(calls: seq<bool>, threshold: int)
    requires Quiet(calls, threshold)
    ensures After(calls, threshold).open
       <==> (calls != [] && FailureRun(calls, |calls| - 1, Needed(threshold)))
    ensures forall i: nat | i + 1 < |calls| :: !FailureRun(calls, i, Needed(threshold))
  {
    OpenIffFailureRun(calls, threshold);
    forall i: nat | i + 1 < |calls|
      ensures !FailureRun(calls, i, Needed(threshold))
    {
      OpenIffFailureRun(calls[..i + 1], threshold);
      FailureRunOfPrefix(calls, i + 1, i, Needed(threshold));
    }
  }

  /** The calls made for one clause: only the last of them can fail, because a failing call ends
      its clause. */
  ghost predicate FailsOnlyLast(calls: seq<bool>) {
    forall i | 0 <= i < |calls| - 1 :: calls[i]
  }

  /** What such calls do to a closed breaker. */
  lemma {:induction false} FeedClause(b: Breaker, calls: seq<bool>, threshold: int)
    requires !b.open && FailsOnlyLast(calls)
    ensures Feed(b, calls, threshold) ==
            if calls == [] then b
            else if calls[|calls| - 1] then Breaker(0, false, b.tripped)
            else Accounted(if |calls| == 1 then b else Breaker(0, false, b.tripped), false, threshold)
    decreases |calls|
  {
    if |calls| == 1 {
      assert calls[..0] == [];
    } else if |calls| > 1 {
      FeedClause(b, calls[..|calls| - 1], threshold);
    }
  }

  /** A clause visited while the breaker is closed leaves the trace quiet. */
  lemma {:induction false} QuietClause(calls: seq<bool>, more: seq<bool>, threshold: int)
    requires Quiet(calls, threshold) && FailsOnlyLast(more)
    requires more != [] ==> !After(calls, threshold).open
    ensures Quiet(calls + more, threshold)
    ensures After(calls + more, threshold) == Feed(After(calls, threshold), more, threshold)
    decreases |more|
  {
    FeedConcat(CLOSED, calls, more, threshold);
    if more == [] {
      assert calls + more == calls;
    } else {
      var init := more[..|more| - 1];
      QuietClause(calls, init, threshold);
      FeedClause(After(calls, threshold), init, threshold);
      assert calls + more == (calls + init) + [more[|more| - 1]];
      QuietStep(calls + init, more[|more| - 1], threshold);
    }
  }
}
