/** The in-process sliding-window rate limiter.  Times are reals; the clock never goes back. */
module RateLimit {
  import opened Options
  import opened Ranges

  // ----- specification ------------------------------------------------------------------------------

  /** The deque after `while dq and dq[0] <= cutoff: dq.popleft()`. */
  function Pruned(dq: seq<real>, cutoff: real): seq<real> {
    if dq != [] && dq[0] <= cutoff then Pruned(dq[1..], cutoff) else dq
  }

  predicate Allowed(dq: seq<real>, limit: int, window: real, now: real) {
    |Pruned(dq, now - window)| < limit
  }

  function AfterCheck(dq: seq<real>, limit: int, window: real, now: real): seq<real> {
    Pruned(dq, now - window) + if Allowed(dq, limit, window, now) then [now] else []
  }

  // ----- the code -----------------------------------------------------------------------------------

  class RateLimiter {
    var hits: map<string, seq<real>>

    constructor ()
      ensures hits == map[]
    {
      hits := map[];
    }

    function Deque(key: string): seq<real>
      reads this
    {
      if key in hits then hits[key] else []
    }

    /** One attempt for `key`; a refused attempt is not recorded, and no other key is touched. */
    method Check(key: string, limit: int, window: real, now: real) returns (ok: bool)
      modifies this
      ensures hits == old(hits)[key := AfterCheck(old(Deque(key)), limit, window, now)]
      ensures ok == Allowed(old(Deque(key)), limit, window, now)
    {
      var cutoff := now - window;
      var dq := Deque(key);
      while dq != [] && dq[0] <= cutoff
        invariant Pruned(dq, cutoff) == Pruned(old(Deque(key)), cutoff)
        decreases |dq|
      {
        dq := dq[1..];
      }
      if |dq| >= limit {
        assert dq + [] == dq;
        hits := hits[key := dq];
        return false;
      }
      hits := hits[key := dq + [now]];
      return true;
    }

    /** Forgets one key, or every key when none is given. */
    method Reset(key: Option<string>)
      modifies this
      ensures hits == if key.None? then map[] else old(hits) - {key.value}
    {
      if key.None? {
        hits := map[];
      } else {
        hits := hits - {key.value};
      }
    }
  }

  // ----- whole histories for one key, with a fixed limit and window ----------------------------------

  ghost predicate Ascending(xs: seq<real>) {
    forall i, j | 0 <= i <= j < |xs| :: xs[i] <= xs[j]
  }

  /** The deque, and the full history of admitted attempts. */
  datatype History = History(dq: seq<real>, admitted: seq<real>)

  function Next(h: History, limit: int, window: real, now: real): History {
    History(AfterCheck(h.dq, limit, window, now),
            if Allowed(h.dq, limit, window, now) then h.admitted + [now] else h.admitted)
  }

  /** After attempts at `times`. */
  function After(times: seq<real>, limit: int, window: real): History {
    if times == [] then History([], [])
    else Next(After(times[..|times| - 1], limit, window), limit, window, times[|times| - 1])
  }

  lemma {:induction false} PrunedSuffix(xs: seq<real>, cutoff: real) returns (k: nat)
    ensures k <= |xs| && Pruned(xs, cutoff) == xs[k..]
    ensures (forall i | 0 <= i < k :: xs[i] <= cutoff) && (k < |xs| ==> xs[k] > cutoff)
    decreases |xs|
  {
    if xs != [] && xs[0] <= cutoff {
      var rest := PrunedSuffix(xs[1..], cutoff);
      k := rest + 1;
      assert forall i | 1 <= i < k :: xs[i] == xs[1..][i - 1];
      assert k < |xs| ==> xs[k] == xs[1..][rest];
    } else {
      k := 0;
    }
  }

  /** The deque is the end of the admitted history, and what it dropped is outside every window from
      now on. */
  ghost predicate Faithful(h: History, last: real, window: real) {
    && |h.dq| <= |h.admitted|
    && h.dq == h.admitted[|h.admitted| - |h.dq|..]
    && (forall i | 0 <= i < |h.admitted| - |h.dq| :: h.admitted[i] <= last - window)
    && (forall i | 0 <= i < |h.admitted| :: h.admitted[i] <= last)
    && Ascending(h.admitted)
  }

  /** Two admitted attempts less than a window apart are among at most `limit` consecutive ones. */
  ghost predicate Spaced(admitted: seq<real>, limit: int, window: real) {
    forall i, j | 0 <= i <= j < |admitted| && admitted[j] - admitted[i] < window :: j + 1 - i <= limit
  }

  /** What pruning keeps of the deque is exactly the admitted attempts in (now - window, now]. */
  lemma Live(h: History, last: real, window: real, now: real) returns (k: nat)
    requires Faithful(h, last, window) && last <= now
    ensures k <= |h.admitted| && Pruned(h.dq, now - window) == h.admitted[k..]
    ensures forall i | 0 <= i < |h.admitted| :: k <= i <==> h.admitted[i] > now - window
  {
    var gone := |h.admitted| - |h.dq|;
    var d := PrunedSuffix(h.dq, now - window);
    k := gone + d;
    assert forall i | gone <= i < |h.admitted| :: h.admitted[i] == h.dq[i - gone];
  }

  /** What a check leaves behind is faithful: the kept end of the history, and the attempt if allowed. */
  lemma FaithfulFrom(admitted: seq<real>, k: nat, dq: seq<real>, now: real, window: real)
    requires k <= |admitted| && dq == admitted[k..] && Ascending(admitted)
    requires forall i | 0 <= i < k :: admitted[i] <= now - window
    requires forall i | 0 <= i < |admitted| :: admitted[i] <= now
    ensures Faithful(History(dq, admitted), now, window)
  {
  }

  lemma FaithfulStep(h: History, last: real, limit: int, window: real, now: real)
    requires Faithful(h, last, window) && last <= now
    ensures Faithful(Next(h, limit, window, now), now, window)
  {
    var k := Live(h, last, window, now);
    var kept := h.admitted[k..];
    if Allowed(h.dq, limit, window, now) {
      var more := h.admitted + [now];
      assert kept + [now] == more[k..];
      assert forall i | 0 <= i < k :: more[i] == h.admitted[i];
      FaithfulFrom(more, k, kept + [now], now, window);
    } else {
      FaithfulFrom(h.admitted, k, kept, now, window);
    }
  }

  lemma SpacedStep(h: History, last: real, limit: int, window: real, now: real)
    requires Faithful(h, last, window) && last <= now && Spaced(h.admitted, limit, window)
    ensures Spaced(Next(h, limit, window, now).admitted, limit, window)
  {
    var k := Live(h, last, window, now);
  }

  lemma {:induction false} HistorySound(times: seq<real>, limit: int, window: real)
    requires Ascending(times) && times != []
    ensures Faithful(After(times, limit, window), times[|times| - 1], window)
    ensures Spaced(After(times, limit, window).admitted, limit, window)
    decreases |times|
  {
    var n := |times| - 1;
    var last := if n == 0 then times[0] else times[n - 1];
    if n > 0 {
      HistorySound(times[..n], limit, window);
    }
    FaithfulStep(After(times[..n], limit, window), last, limit, window, times[n]);
    SpacedStep(After(times[..n], limit, window), last, limit, window, times[n]);
  }

  /** The attempts of `admitted` in the window (end - window, end]. */
  ghost function InWindow(admitted: seq<real>, end: real, window: real): set<int> {
    set i | 0 <= i < |admitted| && end - window < admitted[i] <= end
  }

  /** The limiter decides as a filter over the full history would: an attempt is allowed exactly when
      fewer than `limit` admitted attempts lie in the window that ends at it. */
  lemma RefinesFullHistory(times: seq<real>, limit: int, window: real, now: real)
    requires Ascending(times) && (times == [] || times[|times| - 1] <= now)
    ensures var h := After(times, limit, window);
            Allowed(h.dq, limit, window, now) <==> |InWindow(h.admitted, now, window)| < limit
  {
    var h := After(times, limit, window);
    if times != [] {
      HistorySound(times, limit, window);
    }
    var k := Live(h, if times == [] then now else times[|times| - 1], window, now);
    assert InWindow(h.admitted, now, window) == Range(k, |h.admitted|);
  }

  /** Every half-open window holds at most `limit` admitted attempts, wherever it ends. */
  lemma WindowBound(times: seq<real>, limit: int, window: real, end: real)
    requires Ascending(times)
    ensures var s := InWindow(After(times, limit, window).admitted, end, window);
            s == {} || |s| <= limit
  {
    var h := After(times, limit, window);
    var s := InWindow(h.admitted, end, window);
    if s != {} {
      HistorySound(times, limit, window);
      var lo, hi := Extremes(s, |h.admitted|);
      RangeSize(s, lo, hi + 1);
    }
  }
}
