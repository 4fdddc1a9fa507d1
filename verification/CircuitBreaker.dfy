/** The circuit breaker: a timed state machine fed with admission requests and call results, and its runs. Times are
    milliseconds of the steady clock, over the reals. */
module CircuitBreaker {

  const HALF_OPEN_TIMEOUT := 5000.0

  datatype Mode = Closed | Open | HalfOpen

  /** halfOpenRequests is 0 or 1: whether the probe slot is taken. */
  datatype State = State(threshold: int, openTimeout: real, mode: Mode, failureCount: int, openedAt: real,
                         halfOpenRequests: int)

  datatype Event = Ask(at: real) | Success | Failure(at: real)

  function Init(threshold: int, openTimeoutSec: int, openedAt: real): State {
    State(threshold, openTimeoutSec as real * 1000.0, Closed, 0, openedAt, 0)
  }

  /** A threshold below one trips on the first failure, as one does. */
  function Limit(s: State): int { if s.threshold < 1 then 1 else s.threshold }

  /** In the half-open state, a request this late starts a new window with a free slot. */
  predicate Resets(s: State, now: real) { now - s.openedAt >= HALF_OPEN_TIMEOUT }

  predicate Allows(s: State, now: real) {
    match s.mode
    case Closed => true
    case Open => now - s.openedAt >= s.openTimeout
    case HalfOpen => Resets(s, now) || s.halfOpenRequests == 0
  }

  function AfterAllow(s: State, now: real): State {
    match s.mode
    case Closed => s
    case Open => if now - s.openedAt >= s.openTimeout then s.(mode := HalfOpen, halfOpenRequests := 0) else s
    case HalfOpen =>
      var s1 := if Resets(s, now) then s.(halfOpenRequests := 0, openedAt := now) else s;
      if s1.halfOpenRequests == 0 then s1.(halfOpenRequests := 1) else s1
  }

  function AfterSuccess(s: State): State {
    match s.mode
    case Closed => s.(failureCount := 0)
    case Open => s
    case HalfOpen => s.(mode := Closed, failureCount := 0, halfOpenRequests := 0)
  }

  function AfterFailure(s: State, now: real): State {
    match s.mode
    case Closed =>
      var s1 := s.(failureCount := s.failureCount + 1);
      if s1.failureCount >= s.threshold then s1.(mode := Open, openedAt := now) else s1
    case Open => s
    case HalfOpen => s.(mode := Open, openedAt := now)
  }

  function Step(s: State, e: Event): State {
    match e
    case Ask(now) => AfterAllow(s, now)
    case Success => AfterSuccess(s)
    case Failure(now) => AfterFailure(s, now)
  }

  function Run(s: State, events: seq<Event>): State {
    if events == [] then s else Step(Run(s, events[..|events| - 1]), events[|events| - 1])
  }

  // ---------- what every run keeps ----------

  /** The failures since the last success, read off the events alone. */
  function Streak(events: seq<Event>): nat {
    if events == [] then 0
    else
      match events[|events| - 1]
      case Ask(_) => Streak(events[..|events| - 1])
      case Success => 0
      case Failure(_) => Streak(events[..|events| - 1]) + 1
  }

  /** Closed: the count is the current streak and below the limit. Otherwise it stands at the limit. */
  ghost predicate Inv(s: State, events: seq<Event>) {
    && s.halfOpenRequests in {0, 1}
    && (s.mode == Closed ==> s.failureCount == Streak(events) < Limit(s))
    && (s.mode != Closed ==> s.failureCount == Limit(s))
  }

  lemma {:induction false} RunInv(threshold: int, openTimeoutSec: int, openedAt: real, events: seq<Event>)
    ensures var s := Run(Init(threshold, openTimeoutSec, openedAt), events);
            Inv(s, events) && s.threshold == threshold && s.openTimeout == openTimeoutSec as real * 1000.0
    decreases |events|
  {
    if events != [] {
      RunInv(threshold, openTimeoutSec, openedAt, events[..|events| - 1]);
    }
  }

  /** A closed breaker opens exactly when the streak of failures reaches the threshold. */
  lemma TripsExactlyWhen(threshold: int, openTimeoutSec: int, openedAt: real, events: seq<Event>, e: Event)
    requires Run(Init(threshold, openTimeoutSec, openedAt), events).mode == Closed
    ensures Run(Init(threshold, openTimeoutSec, openedAt), events + [e]).mode != Closed <==>
            e.Failure? && Streak(events + [e]) >= threshold
  {
    RunInv(threshold, openTimeoutSec, openedAt, events);
    assert (events + [e])[..|events|] == events;
  }

  // ---------- open: nothing passes before the timeout ----------

  function Answer(s: State, e: Event): bool { e.Ask? && Allows(s, e.at) }

  /** How many of the events are admitted requests. */
  function Admitted(s: State, events: seq<Event>): nat
    decreases |events|
  {
    if events == [] then 0 else (if Answer(s, events[0]) then 1 else 0) + Admitted(Step(s, events[0]), events[1..])
  }

  ghost predicate Early(s: State, e: Event) { e.Ask? ==> e.at - s.openedAt < s.openTimeout }

  /** An open breaker admits nothing before its timeout, and no result changes it. */
  lemma {:induction false} OpenHolds(s: State, events: seq<Event>)
    requires s.mode == Open && forall i :: 0 <= i < |events| ==> Early(s, events[i])
    ensures Admitted(s, events) == 0 && Run(s, events) == s
    decreases |events|
  {
    if events != [] {
      assert Early(s, events[0]);
      OpenHolds(s, events[1..]);
      assert Early(s, events[|events| - 1]);
      OpenHolds(s, events[..|events| - 1]);
    }
  }

  // ---------- half open: how many probes pass ----------

  /** The requests of one half-open episode: a result would end it. */
  function Asks(times: seq<real>): seq<Event> {
    if times == [] then [] else [Ask(times[0])] + Asks(times[1..])
  }

  /** The times at which an episode's requests start a new window. */
  function ResetTimes(s: State, times: seq<real>): seq<real>
    decreases |times|
  {
    if times == [] then []
    else (if Resets(s, times[0]) then [times[0]] else []) + ResetTimes(AfterAllow(s, times[0]), times[1..])
  }

  /** Whether the episode's first request takes the slot without a reset. */
  function FreeSlot(s: State, times: seq<real>): nat {
    if times != [] && !Resets(s, times[0]) && s.halfOpenRequests == 0 then 1 else 0
  }

  /** An episode admits one request per window reset, and one more if it found the slot free. */
  lemma {:induction false} EpisodeAdmits(s: State, times: seq<real>)
    requires s.mode == HalfOpen && s.halfOpenRequests in {0, 1}
    ensures Admitted(s, Asks(times)) == |ResetTimes(s, times)| + FreeSlot(s, times)
    decreases |times|
  {
    if times != [] {
      assert Asks(times)[1..] == Asks(times[1..]);
      EpisodeAdmits(AfterAllow(s, times[0]), times[1..]);
    }
  }

  ghost predicate Spaced(from: real, times: seq<real>)
    decreases |times|
  {
    times == [] || (times[0] >= from + HALF_OPEN_TIMEOUT && Spaced(times[0], times[1..]))
  }

  /** Resets are at least five seconds apart, the first one counted from the opening. */
  lemma {:induction false} ResetsSpaced(s: State, times: seq<real>)
    requires s.mode == HalfOpen
    ensures Spaced(s.openedAt, ResetTimes(s, times))
    decreases |times|
  {
    if times != [] {
      var rest := ResetTimes(AfterAllow(s, times[0]), times[1..]);
      ResetsSpaced(AfterAllow(s, times[0]), times[1..]);
      assert ([times[0]] + rest)[1..] == rest && [] + rest == rest;
    }
  }

  /** Half open: a request at least five seconds after the opening always passes and starts a new window; before that
      one passes exactly if the slot is free, and takes it. */
  lemma HalfOpenExactlyWhen(s: State, now: real)
    requires s.mode == HalfOpen && s.halfOpenRequests in {0, 1}
    ensures var s' := AfterAllow(s, now);
            && (Allows(s, now) <==> now - s.openedAt >= 5000.0 || s.halfOpenRequests == 0)
            && s' == s.(halfOpenRequests := 1, openedAt := if now - s.openedAt >= 5000.0 then now else s.openedAt)
  {
  }

  /** A whole episode, from the request that leaves the open state: at most two probes and one per window reset. */
  lemma EpisodeBound(s: State, now: real, times: seq<real>)
    requires s.mode == Open && Allows(s, now)
    ensures var s1 := AfterAllow(s, now);
            && Admitted(s, [Ask(now)] + Asks(times)) <= 2 + |ResetTimes(s1, times)|
            && Spaced(s.openedAt, ResetTimes(s1, times))
  {
    var s1 := AfterAllow(s, now);
    assert ([Ask(now)] + Asks(times))[1..] == Asks(times);
    EpisodeAdmits(s1, times);
    ResetsSpaced(s1, times);
  }

  /** The header promises a single probe. The episode keeps that promise exactly when no second request comes: the
      transition to half open leaves the slot free, so the second request always passes. */
  lemma SingleProbeExactlyWhen(s: State, now: real, times: seq<real>)
    requires s.mode == Open && Allows(s, now)
    ensures Admitted(s, [Ask(now)] + Asks(times)) == 1 <==> times == []
  {
    var s1 := AfterAllow(s, now);
    assert ([Ask(now)] + Asks(times))[1..] == Asks(times);
    EpisodeAdmits(s1, times);
  }

  /** Two probes reach the server within one millisecond of each other, ten seconds after the breaker opened. */
  lemma TwoProbes()
    ensures var s := Run(Init(1, 10, 0.0), [Failure(0.0)]);
            s.mode == Open && Admitted(s, [Ask(10000.0), Ask(10001.0)]) == 2
  {
    var s0 := Init(1, 10, 0.0);
    assert [Failure(0.0)][..0] == [];
    assert Run(s0, []) == s0;
    var s := Run(s0, [Failure(0.0)]);
    assert s == AfterFailure(s0, 0.0);
    assert [Ask(10000.0), Ask(10001.0)] == [Ask(10000.0)] + Asks([10001.0]);
    SingleProbeExactlyWhen(s, 10000.0, [10001.0]);
    var s1 := AfterAllow(s, 10000.0);
    assert [Ask(10000.0), Ask(10001.0)][1..] == [Ask(10001.0)];
    assert Admitted(s1, [Ask(10001.0)]) == 1;
  }

  // ---------- how an episode ends, and from when the timeout counts ----------

  function AskCount(events: seq<Event>): nat {
    if events == [] then 0 else (if events[0].Ask? then 1 else 0) + AskCount(events[1..])
  }

  lemma {:induction false} RunConcat(s: State, a: seq<Event>, b: seq<Event>)
    ensures Run(s, a + b) == Run(Run(s, a), b)
    decreases |b|
  {
    if b == [] {
      assert a + b == a;
    } else {
      assert (a + b)[..|a + b| - 1] == a + b[..|b| - 1];
      RunConcat(s, a, b[..|b| - 1]);
    }
  }

  /** A failure that makes the streak reach the threshold, or that comes half open, opens the breaker. Counted from the
      time of that failure, nothing passes before the timeout, whatever results come in, and the first request after it
      does. */
  lemma Opens(threshold: int, openTimeoutSec: int, openedAt: real, events: seq<Event>, t: real, more: seq<Event>,
              at: real)
    requires var s := Run(Init(threshold, openTimeoutSec, openedAt), events);
             s.mode == HalfOpen || (s.mode == Closed && Streak(events) + 1 >= threshold)
    requires forall i :: 0 <= i < |more| && more[i].Ask? ==> more[i].at < t + openTimeoutSec as real * 1000.0
    ensures var s := Run(Init(threshold, openTimeoutSec, openedAt), events + [Failure(t)]);
            && Admitted(s, more) == 0
            && Run(Init(threshold, openTimeoutSec, openedAt), events + [Failure(t)] + more) == s
            && (Allows(s, at) <==> at >= t + openTimeoutSec as real * 1000.0)
  {
    var s0 := Init(threshold, openTimeoutSec, openedAt);
    RunInv(threshold, openTimeoutSec, openedAt, events);
    assert (events + [Failure(t)])[..|events|] == events;
    var s := Run(s0, events + [Failure(t)]);
    forall i | 0 <= i < |more| ensures Early(s, more[i]) {
    }
    OpenHolds(s, more);
    RunConcat(s0, events + [Failure(t)], more);
  }

  /** A success half open closes the breaker. */
  lemma Closes(threshold: int, openTimeoutSec: int, openedAt: real, events: seq<Event>)
    requires Run(Init(threshold, openTimeoutSec, openedAt), events).mode != Open
    ensures Run(Init(threshold, openTimeoutSec, openedAt), events + [Success]).mode == Closed
  {
    assert (events + [Success])[..|events|] == events;
  }

  /** A closed breaker stays closed and lets every request pass as long as the streak is below the threshold. */
  lemma {:induction false} ClosedHolds(threshold: int, openTimeoutSec: int, openedAt: real, events: seq<Event>,
                                       more: seq<Event>)
    requires Run(Init(threshold, openTimeoutSec, openedAt), events).mode == Closed
    requires forall i :: 0 <= i <= |more| ==> Streak(events + more[..i]) < (if threshold < 1 then 1 else threshold)
    ensures var s := Run(Init(threshold, openTimeoutSec, openedAt), events);
            Admitted(s, more) == AskCount(more)
    ensures Run(Init(threshold, openTimeoutSec, openedAt), events + more).mode == Closed
    decreases |more|
  {
    if more == [] {
      assert events + more == events;
    } else {
      var s0, e, rest := Init(threshold, openTimeoutSec, openedAt), more[0], more[1..];
      var next := events + [e];
      assert next[..|events|] == events;
      assert next == events + more[..1];
      if e.Failure? {
        TripsExactlyWhen(threshold, openTimeoutSec, openedAt, events, e);
      }
      forall i | 0 <= i <= |rest| ensures Streak(next + rest[..i]) < (if threshold < 1 then 1 else threshold) {
        assert next + rest[..i] == events + more[..i + 1];
      }
      ClosedHolds(threshold, openTimeoutSec, openedAt, next, rest);
      assert next + rest == events + more;
    }
  }

  // ---------- the class ----------

  class Breaker {
    var mode: Mode
    var failureCount: int
    const failureThreshold: int
    const openTimeout: real
    var openedAt: real
    var halfOpenRequests: int

    function St(): State
      reads this
    {
      State(failureThreshold, openTimeout, mode, failureCount, openedAt, halfOpenRequests)
    }

    constructor (failureThreshold: int, openTimeoutSec: int)
      ensures St() == Init(failureThreshold, openTimeoutSec, 0.0)
    {
      mode, failureCount, openedAt, halfOpenRequests := Closed, 0, 0.0, 0;
      this.failureThreshold, openTimeout := failureThreshold, openTimeoutSec as real * 1000.0;
    }

    method TakeSlot() returns (ok: bool)
      modifies `halfOpenRequests
      ensures ok == (old(halfOpenRequests) == 0)
      ensures halfOpenRequests == if ok then 1 else old(halfOpenRequests)
    {
      ok := halfOpenRequests == 0;
      if ok { halfOpenRequests := 1; }
    }

    method AllowRequest(now: real) returns (ok: bool)
      modifies this
      ensures ok == Allows(old(St()), now) && St() == AfterAllow(old(St()), now)
    {
      if mode == Closed { return true; }
      if mode == Open {
        var elapsed := now - openedAt;
        if elapsed >= openTimeout {
          TransitionToHalfOpen();
          return true;
        }
        return false;
      }
      var elapsed := now - openedAt;
      if elapsed >= HALF_OPEN_TIMEOUT {
        halfOpenRequests := 0;
        openedAt := now;
      }
      ok := TakeSlot();
    }

    method RecordSuccess()
      modifies this
      ensures St() == AfterSuccess(old(St()))
    {
      if mode == Closed {
        failureCount := 0;
      } else if mode == HalfOpen {
        TransitionToClosed();
      }
    }

    method RecordFailure(now: real)
      modifies this
      ensures St() == AfterFailure(old(St()), now)
    {
      if mode == Closed {
        failureCount := failureCount + 1;
        if failureCount >= failureThreshold { TransitionToOpen(now); }
      } else if mode == HalfOpen {
        TransitionToOpen(now);
      }
    }

    method TransitionToOpen(now: real)
      modifies this
      ensures St() == old(St()).(mode := Open, openedAt := now)
    {
      openedAt := now;
      mode := Open;
    }

    method TransitionToHalfOpen()
      modifies this
      ensures St() == old(St()).(mode := HalfOpen, halfOpenRequests := 0)
    {
      halfOpenRequests := 0;
      mode := HalfOpen;
    }

    method TransitionToClosed()
      modifies this
      ensures St() == old(St()).(mode := Closed, failureCount := 0, halfOpenRequests := 0)
    {
      mode := Closed;
      failureCount := 0;
      halfOpenRequests := 0;
    }
  }

  method Feed(breaker: Breaker, e: Event) returns (ok: bool)
    modifies breaker
    ensures ok == Answer(old(breaker.St()), e) && breaker.St() == Step(old(breaker.St()), e)
  {
    ok := false;
    match e
    case Ask(now) => ok := breaker.AllowRequest(now);
    case Success => breaker.RecordSuccess();
    case Failure(now) => breaker.RecordFailure(now);
  }

  /** Feeding the events to a new breaker admits the counted requests and ends in the state of the run. */
  method Replay(threshold: int, openTimeoutSec: int, events: seq<Event>)
    returns (admitted: nat, mode: Mode, failures: int)
    ensures var s := Init(threshold, openTimeoutSec, 0.0);
            admitted == Admitted(s, events) && mode == Run(s, events).mode
    ensures mode == Closed ==> failures == Streak(events)
    ensures mode != Closed ==> failures == if threshold < 1 then 1 else threshold
  {
    var breaker := new Breaker(threshold, openTimeoutSec);
    ghost var s := breaker.St();
    admitted := 0;
    for n := 0 to |events|
      invariant breaker.St() == Run(s, events[..n])
      invariant admitted + Admitted(breaker.St(), events[n..]) == Admitted(s, events)
    {
      assert events[..n + 1][..n] == events[..n] && events[n..][1..] == events[n + 1..];
      var ok := Feed(breaker, events[n]);
      if ok { admitted := admitted + 1; }
    }
    assert events[..|events|] == events;
    RunInv(threshold, openTimeoutSec, 0.0, events);
    mode, failures := breaker.mode, breaker.failureCount;
  }
}
