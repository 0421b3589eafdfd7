/** The per-account brute-force lockout: an anchored window of failures, and the login handler that
    consults, advances and clears it.  Times are reals; the clock never goes back. */
module Lockout {
  import opened Options
  import opened Ranges

  datatype Config = Config(maxFailures: int, window: real, duration: real)

  /** The three lockout columns of a user row. */
  datatype Account = Account(count: int, firstFailureAt: Option<real>, lockoutUntil: Option<real>)

  const CLEAR := Account(0, None, None)

  predicate IsLocked(a: Account, now: real) {
    a.lockoutUntil.Some? && now < a.lockoutUntil.value
  }

  predicate WithinWindow(a: Account, now: real, cfg: Config) {
    a.firstFailureAt.Some? && now - a.firstFailureAt.value <= cfg.window
  }

  function AfterFailure(a: Account, now: real, cfg: Config): Account {
    var count := if WithinWindow(a, now, cfg) then a.count + 1 else 1;
    var first := if WithinWindow(a, now, cfg) then a.firstFailureAt else Some(now);
    Account(count, first, if count >= cfg.maxFailures then Some(now + cfg.duration) else None)
  }

  // ----- an account's history ----------------------------------------------------------------------

  /** What the store records of an account: rejected attempts on a locked account leave no trace. */
  datatype Event = Failed(at: real) | Succeeded(at: real)

  function State(log: seq<Event>, cfg: Config): Account {
    if log == [] then CLEAR
    else
      match log[|log| - 1]
      case Failed(at) => AfterFailure(State(log[..|log| - 1], cfg), at, cfg)
      case Succeeded(_) => CLEAR
  }

  /** The histories the login handler can produce: in time order, and nothing while locked. */
  ghost predicate Legal(log: seq<Event>, cfg: Config) {
    InOrder(log) && NeverLocked(log, cfg)
  }

  ghost predicate InOrder(log: seq<Event>) {
    forall i, j | 0 <= i <= j < |log| :: log[i].at <= log[j].at
  }

  ghost predicate NeverLocked(log: seq<Event>, cfg: Config) {
    forall i | 0 <= i < |log| :: !IsLocked(State(log[..i], cfg), log[i].at)
  }

  ghost predicate Over(log: seq<Event>, now: real) {
    forall i | 0 <= i < |log| :: log[i].at <= now
  }

  // ----- the code ----------------------------------------------------------------------------------

  datatype Response = TooManyAttempts | Unauthorized | LoggedIn

  class UserStore {
    const cfg: Config
    var users: map<string, Account>
    ghost var logs: map<string, seq<Event>>

    /** Every row is the state its account's legal history gives. */
    ghost predicate Valid()
      reads this
    {
      && logs.Keys == users.Keys
      && forall e | e in users :: users[e] == State(logs[e], cfg) && Legal(logs[e], cfg)
    }

    constructor (cfg: Config)
      ensures this.cfg == cfg && users == map[] && Valid()
    {
      this.cfg := cfg;
      users, logs := map[], map[];
    }

    method Register(email: string)
      requires Valid() && email !in users
      modifies this
      ensures Valid() && logs == old(logs)[email := []]
    {
      users := users[email := CLEAR];
      logs := logs[email := []];
    }

    /** Unknown emails are ignored, so the store never discloses which exist. */
    method RecordLoginFailure(email: string, now: real)
      modifies this`users
      ensures users == if email in old(users) then old(users)[email := AfterFailure(old(users)[email], now, cfg)]
                       else old(users)
    {
      if email !in users {
        return;
      }
      var row := users[email];
      var count, first := row.count, row.firstFailureAt;
      var within := false;
      if first.Some? {
        within := now - first.value <= cfg.window;
      }
      if within {
        count := count + 1;
      } else {
        count := 1;
        first := Some(now);
      }
      var until: Option<real> := None;
      if count >= cfg.maxFailures {
        until := Some(now + cfg.duration);
      }
      users := users[email := Account(count, first, until)];
    }

    method ResetLoginFailures(email: string)
      modifies this`users
      ensures users == if email in old(users) then old(users)[email := CLEAR] else old(users)
    {
      if email in users {
        users := users[email := CLEAR];
      }
    }

    method Locked(email: string, now: real) returns (b: bool)
      ensures b == (email in users && IsLocked(users[email], now))
    {
      if email !in users || users[email].lockoutUntil == None {
        return false;
      }
      return now < users[email].lockoutUntil.value;
    }

    /** The handler: the lock is checked at `checked`, the password verified, and the outcome
        recorded at `recorded`.  A correct password does not help while the account is locked. */
    method Login(email: string, correct: bool, checked: real, recorded: real) returns (r: Response)
      requires Valid() && checked <= recorded
      requires email in logs ==> Over(logs[email], checked)
      modifies this
      ensures Valid() && logs.Keys == old(logs.Keys)
      ensures forall e | e in logs && e != email :: logs[e] == old(logs)[e] && users[e] == old(users)[e]
      ensures email !in logs ==> r == Unauthorized
      ensures email in logs ==>
                var locked := IsLocked(old(users)[email], checked);
                && r == (if locked then TooManyAttempts else if correct then LoggedIn else Unauthorized)
                && logs[email] == if locked then old(logs)[email]
                                  else old(logs)[email] + [if correct then Succeeded(recorded) else Failed(recorded)]
    {
      var locked := Locked(email, checked);
      if locked {
        return TooManyAttempts;
      }
      if email !in users {
        return Unauthorized;
      }
      ghost var log := logs[email];
      LegalStep(log, if correct then Succeeded(recorded) else Failed(recorded), cfg);
      if !correct {
        RecordLoginFailure(email, recorded);
        logs := logs[email := log + [Failed(recorded)]];
        return Unauthorized;
      }
      ResetLoginFailures(email);
      logs := logs[email := log + [Succeeded(recorded)]];
      return LoggedIn;
    }
  }

  lemma LegalStep(log: seq<Event>, e: Event, cfg: Config)
    requires Legal(log, cfg) && !IsLocked(State(log, cfg), e.at) && Over(log, e.at)
    ensures Legal(log + [e], cfg) && Over(log + [e], e.at)
    ensures State(log + [e], cfg) == if e.Failed? then AfterFailure(State(log, cfg), e.at, cfg) else CLEAR
  {
    var more := log + [e];
    assert more[..|log|] == log;
    NeverLockedStep(log, e, cfg);
    assert InOrder(more);
  }

  lemma NeverLockedStep(log: seq<Event>, e: Event, cfg: Config)
    requires NeverLocked(log, cfg) && !IsLocked(State(log, cfg), e.at)
    ensures NeverLocked(log + [e], cfg)
  {
    var more := log + [e];
    forall i | 0 <= i < |more|
      ensures !IsLocked(State(more[..i], cfg), more[i].at)
    {
      assert more[..i] == log[..i];
      assert i == |log| ==> log[..i] == log;
    }
  }

  // ----- every lock has its failures -----------------------------------------------------------------

  /** The counter is the length of the block of failures that ends the history, all within WINDOW of
      the block's first; the account carries a lock exactly when the block has MAX failures, and the
      lock then ends DURATION after the last of them. */
  lemma {:induction false} CounterIsBlock(log: seq<Event>, cfg: Config)
    ensures var a := State(log, cfg);
            && 0 <= a.count <= |log|
            && (forall i | |log| - a.count <= i < |log| :: log[i].Failed?)
            && (a.count == 0 <==> a.firstFailureAt == None)
            && (a.count > 0 ==> a.firstFailureAt == Some(log[|log| - a.count].at))
            && (forall i | |log| - a.count < i < |log| :: log[i].at - log[|log| - a.count].at <= cfg.window)
            && (a.lockoutUntil.Some? <==> a.count > 0 && a.count >= cfg.maxFailures)
            && (a.lockoutUntil.Some? ==> a.lockoutUntil.value == log[|log| - 1].at + cfg.duration)
    decreases |log|
  {
    if log != [] {
      CounterIsBlock(log[..|log| - 1], cfg);
    }
  }

  // ----- the bound ------------------------------------------------------------------------------------

  /** `log[lo..hi]` is a run of failures with no success among them, spanning less than WINDOW. */
  ghost predicate Burst(log: seq<Event>, lo: nat, hi: nat, cfg: Config) {
    && lo < hi <= |log|
    && (forall i | lo <= i < hi :: log[i].Failed?)
    && log[hi - 1].at - log[lo].at < cfg.window
  }

  /** Inside a burst only the last failure can lock: the lock would outlast the burst. */
  lemma BurstUnlocked(log: seq<Event>, lo: nat, hi: nat, cfg: Config, k: nat)
    requires Legal(log, cfg) && cfg.duration >= cfg.window && Burst(log, lo, hi, cfg) && lo < k < hi
    ensures State(log[..k], cfg).count < cfg.maxFailures
  {
    CounterIsBlock(log[..k], cfg);
    assert log[..k][k - 1] == log[k - 1];
    assert log[..k][..k - 1] == log[..k - 1];
    assert !IsLocked(State(log[..k], cfg), log[k].at);
    assert log[lo].at <= log[k - 1].at && log[k].at <= log[hi - 1].at;
  }

  /** How the counter goes through a burst up to `k`: `r` is where the window was re-anchored, or
      `k` when it has not been. */
  ghost predicate Counted(log: seq<Event>, lo: nat, k: nat, r: nat, cfg: Config)
    requires k <= |log|
  {
    && lo <= r <= k
    && (r == k > lo ==> State(log[..k], cfg).count >= 1 + k - lo)
    && (r < k ==> State(log[..k], cfg).count == k - r && State(log[..k], cfg).firstFailureAt == Some(log[r].at))
    && (lo < r ==> State(log[..r], cfg).count >= 1 + r - lo)
  }

  lemma StateOfNext(log: seq<Event>, k: nat, cfg: Config)
    requires k < |log| && log[k].Failed?
    ensures State(log[..k + 1], cfg) == AfterFailure(State(log[..k], cfg), log[k].at, cfg)
    ensures State(log[..k], cfg).firstFailureAt.Some? ==> State(log[..k], cfg).count >= 1
  {
    assert log[..k + 1][..k] == log[..k];
    CounterIsBlock(log[..k], cfg);
  }

  lemma CountedStep(log: seq<Event>, lo: nat, hi: nat, cfg: Config, k: nat, r: nat) returns (next: nat)
    requires InOrder(log) && Burst(log, lo, hi, cfg) && lo <= k < hi && Counted(log, lo, k, r, cfg)
    ensures Counted(log, lo, k + 1, next, cfg)
  {
    StateOfNext(log, k, cfg);
    next := r;
    if r < k {
      assert log[lo].at <= log[r].at && log[k].at <= log[hi - 1].at;
    } else if WithinWindow(State(log[..k], cfg), log[k].at, cfg) {
      next := k + 1;
    }
  }

  lemma {:induction false} CounterInBurst(log: seq<Event>, lo: nat, hi: nat, cfg: Config, k: nat) returns (r: nat)
    requires InOrder(log) && Burst(log, lo, hi, cfg) && lo <= k <= hi
    ensures Counted(log, lo, k, r, cfg)
    decreases k
  {
    r := lo;
    if k > lo {
      r := CounterInBurst(log, lo, hi, cfg, k - 1);
      r := CountedStep(log, lo, hi, cfg, k - 1, r);
    }
  }

  /** The documented bound: 2*MAX - 2 failures, or one when a single failure already locks. */
  function Bound(cfg: Config): int {
    if cfg.maxFailures <= 1 then 1 else 2 * cfg.maxFailures - 2
  }

  /** What a burst holds before its last failure: up to the re-anchoring, and from there on, less than
      a lock takes. */
  lemma BurstBeforeLast(log: seq<Event>, lo: nat, hi: nat, cfg: Config, k: nat, r: nat)
    requires Legal(log, cfg) && cfg.duration >= cfg.window && Burst(log, lo, hi, cfg)
    requires lo < k < hi && Counted(log, lo, k, r, cfg)
    ensures k - lo <= 2 * cfg.maxFailures - 3
  {
    BurstUnlocked(log, lo, hi, cfg, k);
    if lo < r < k {
      BurstUnlocked(log, lo, hi, cfg, r);
    }
  }

  /** A burst has no more failures than the bound says when the lock lasts as long as the window. */
  lemma BurstBound(log: seq<Event>, lo: nat, hi: nat, cfg: Config)
    requires Legal(log, cfg) && cfg.duration >= cfg.window && Burst(log, lo, hi, cfg)
    ensures hi - lo <= Bound(cfg)
  {
    if hi - lo >= 2 {
      var r := CounterInBurst(log, lo, hi, cfg, hi - 1);
      BurstBeforeLast(log, lo, hi, cfg, hi - 1, r);
    }
  }

  /** The failures recorded in the half-open interval [start, start + WINDOW). */
  ghost function FailuresIn(log: seq<Event>, start: real, cfg: Config): set<int> {
    set i | 0 <= i < |log| && log[i].Failed? && start <= log[i].at < start + cfg.window
  }

  /** In any interval of length WINDOW without a successful login no more failures than that are
      recorded, whatever the attempts were. */
  lemma WindowBound(log: seq<Event>, start: real, cfg: Config)
    requires Legal(log, cfg) && cfg.duration >= cfg.window
    requires forall i | 0 <= i < |log| && log[i].Succeeded? :: !(start <= log[i].at < start + cfg.window)
    ensures |FailuresIn(log, start, cfg)| <= Bound(cfg)
  {
    var s := FailuresIn(log, start, cfg);
    if s != {} {
      var lo, last := Extremes(s, |log|);
      forall i | lo <= i < last + 1
        ensures log[i].Failed?
      {
        assert log[lo].at <= log[i].at && log[i].at <= log[last].at;
      }
      BurstBound(log, lo, last + 1, cfg);
      RangeSize(s, lo, last + 1);
    }
  }

  // ----- the bound is attained, and holds exactly when DURATION >= WINDOW ------------------------------

  function Repeated(e: Event, n: nat): seq<Event> {
    if n == 0 then [] else Repeated(e, n - 1) + [e]
  }

  /** The history is legal, over by `at`, and inside a window anchored at `anchor` with `count`
      failures so far. */
  ghost predicate Inside(log: seq<Event>, at: real, anchor: real, count: nat, cfg: Config) {
    && Legal(log, cfg)
    && Over(log, at)
    && State(log, cfg).count == count && State(log, cfg).firstFailureAt == Some(anchor)
    && 0.0 <= at - anchor
  }

  lemma InsideStep(log: seq<Event>, at: real, anchor: real, count: nat, cfg: Config)
    requires Inside(log, at, anchor, count, cfg) && at - anchor <= cfg.window && count < cfg.maxFailures
    ensures Inside(log + [Failed(at)], at, anchor, count + 1, cfg)
  {
    CounterIsBlock(log, cfg);
    LegalStep(log, Failed(at), cfg);
  }

  lemma AnchorStep(log: seq<Event>, was: real, at: real, anchor: real, count: nat, cfg: Config)
    requires Inside(log, was, anchor, count, cfg) && was <= at
    requires at - anchor > cfg.window && count < cfg.maxFailures
    ensures Inside(log + [Failed(at)], at, at, 1, cfg)
  {
    CounterIsBlock(log, cfg);
    LegalStep(log, Failed(at), cfg);
  }

  lemma {:induction false} RepeatedContents(e: Event, n: nat)
    ensures |Repeated(e, n)| == n && forall i | 0 <= i < n :: Repeated(e, n)[i] == e
  {
    if n > 0 {
      RepeatedContents(e, n - 1);
    }
  }

  lemma RepeatedNext(log: seq<Event>, e: Event, n: nat)
    ensures log + Repeated(e, 0) == log
    ensures log + Repeated(e, n + 1) == (log + Repeated(e, n)) + [e]
  {
  }

  lemma {:induction false} RepeatFailure(log: seq<Event>, at: real, anchor: real, count: nat, n: nat, cfg: Config)
    requires Inside(log, at, anchor, count, cfg) && at - anchor <= cfg.window && count + n <= cfg.maxFailures
    ensures Inside(log + Repeated(Failed(at), n), at, anchor, count + n, cfg)
    decreases n
  {
    if n == 0 {
      RepeatedNext(log, Failed(at), 0);
    } else {
      RepeatFailure(log, at, anchor, count, n - 1, cfg);
      InsideStep(log + Repeated(Failed(at), n - 1), at, anchor, count + n - 1, cfg);
      RepeatedNext(log, Failed(at), n - 1);
    }
  }

  lemma FirstFailure(cfg: Config)
    ensures var one := [Failed(0.0)];
            Legal(one, cfg) && Over(one, 0.0) && State(one, cfg) == AfterFailure(CLEAR, 0.0, cfg)
  {
    LegalStep([], Failed(0.0), cfg);
    assert [] + [Failed(0.0)] == [Failed(0.0)];
  }

  /** One failure at 0, then MAX - 2 at WINDOW: still in the first window, and not locked. */
  lemma FirstWindowFull(cfg: Config) returns (log: seq<Event>)
    requires cfg.maxFailures >= 2 && cfg.window > 0.0
    ensures Inside(log, cfg.window, 0.0, cfg.maxFailures - 1, cfg)
    ensures |log| == cfg.maxFailures - 1 && forall i | 1 <= i < |log| :: log[i] == Failed(cfg.window)
  {
    var first := [Failed(0.0)];
    FirstFailure(cfg);
    RepeatFailure(first, cfg.window, 0.0, 1, cfg.maxFailures - 2, cfg);
    RepeatedContents(Failed(cfg.window), cfg.maxFailures - 2);
    log := first + Repeated(Failed(cfg.window), cfg.maxFailures - 2);
  }

  /** After those, MAX failures at one moment of the second window: the last of them locks. */
  lemma SecondWindowFull(cfg: Config, late: real) returns (log: seq<Event>)
    requires cfg.maxFailures >= 2 && cfg.window > 0.0 && cfg.window < late
    ensures Inside(log, late, late, cfg.maxFailures, cfg)
    ensures |log| == 2 * cfg.maxFailures - 1
    ensures log[|log| - 1] == Failed(late)
    ensures forall i | 1 <= i < |log| :: log[i].Failed? && cfg.window <= log[i].at
  {
    var m := cfg.maxFailures;
    var before := FirstWindowFull(cfg);
    AnchorStep(before, cfg.window, late, 0.0, m - 1, cfg);
    var third := before + [Failed(late)];
    RepeatFailure(third, late, late, 1, m - 1, cfg);
    var tail := Repeated(Failed(late), m - 1);
    RepeatedContents(Failed(late), m - 1);
    log := third + tail;
    forall i | 1 <= i < |log| ensures log[i] == Failed(if i < m - 1 then cfg.window else late) {
      assert log[i] == if i < m - 1 then before[i] else if i == m - 1 then Failed(late) else tail[i - m];
    }
  }

  lemma EndsInBurst(log: seq<Event>, at: real, cfg: Config)
    requires |log| >= 2 && log[|log| - 1].at == at && at - cfg.window < cfg.window
    requires forall i | 1 <= i < |log| :: log[i].Failed? && cfg.window <= log[i].at
    ensures Burst(log, 1, |log|, cfg)
  {
  }

  /** A history that reaches the bound, for every MAX >= 2, WINDOW > 0 and any DURATION. */
  lemma BoundAttained(cfg: Config) returns (log: seq<Event>, lo: nat)
    requires cfg.maxFailures >= 2 && cfg.window > 0.0
    ensures Legal(log, cfg) && Burst(log, lo, |log|, cfg) && |log| - lo == Bound(cfg)
  {
    var late := 1.5 * cfg.window;
    log := SecondWindowFull(cfg, late);
    lo := 1;
    EndsInBurst(log, late, cfg);
  }

  /** One more failure, as soon as the lock is over. */
  lemma AfterLock(log: seq<Event>, at: real, anchor: real, count: nat, cfg: Config) returns (more: seq<Event>)
    requires Inside(log, at, anchor, count, cfg) && log != [] && log[|log| - 1].at == at
    ensures var again := Failed(at + if cfg.duration > 0.0 then cfg.duration else 0.0);
            Legal(more, cfg) && more == log + [again]
  {
    var again := at + if cfg.duration > 0.0 then cfg.duration else 0.0;
    CounterIsBlock(log, cfg);
    LegalStep(log, Failed(again), cfg);
    more := log + [Failed(again)];
  }

  lemma ExceededAtOnce(cfg: Config) returns (log: seq<Event>)
    requires cfg.window > 0.0 && cfg.duration < cfg.window && cfg.maxFailures <= 1
    ensures Legal(log, cfg) && Burst(log, 0, |log|, cfg) && |log| == 2
  {
    FirstFailure(cfg);
    log := AfterLock([Failed(0.0)], 0.0, 0.0, 1, cfg);
  }

  lemma ExceededLater(cfg: Config) returns (log: seq<Event>)
    requires cfg.window > 0.0 && cfg.duration < cfg.window && cfg.maxFailures >= 2
    ensures Legal(log, cfg) && Burst(log, 1, |log|, cfg) && |log| == 2 * cfg.maxFailures
  {
    var lock := if cfg.duration > 0.0 then cfg.duration else 0.0;
    var late := cfg.window + (cfg.window - lock) / 2.0;
    var full := SecondWindowFull(cfg, late);
    log := AfterLock(full, late, late, cfg.maxFailures, cfg);
    assert forall i | 1 <= i < |full| :: log[i] == full[i];
    EndsInBurst(log, late + lock, cfg);
  }

  /** A lock shorter than the window lets one failure too many into a window. */
  lemma BoundExceeded(cfg: Config) returns (log: seq<Event>, lo: nat)
    requires cfg.window > 0.0 && cfg.duration < cfg.window
    ensures Legal(log, cfg) && Burst(log, lo, |log|, cfg) && |log| - lo == Bound(cfg) + 1
  {
    if cfg.maxFailures <= 1 {
      log := ExceededAtOnce(cfg);
      lo := 0;
    } else {
      log := ExceededLater(cfg);
      lo := 1;
    }
  }

  /** No window of failures without a success among them holds more than the bound. */
  ghost predicate Bounded(cfg: Config) {
    forall log: seq<Event>, lo: nat, hi: nat | Legal(log, cfg) && Burst(log, lo, hi, cfg) :: hi - lo <= Bound(cfg)
  }

  /** The documented bound holds of every history if and only if the lock is at least as long as the
      window. */
  lemma BoundedIffLongLock(cfg: Config)
    requires cfg.window > 0.0
    ensures Bounded(cfg) <==> cfg.duration >= cfg.window
  {
    if cfg.duration >= cfg.window {
      forall log: seq<Event>, lo: nat, hi: nat | Legal(log, cfg) && Burst(log, lo, hi, cfg)
        ensures hi - lo <= Bound(cfg)
      {
        BurstBound(log, lo, hi, cfg);
      }
    } else {
      var log, lo := BoundExceeded(cfg);
    }
  }
}
