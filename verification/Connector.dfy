/** The connector: non-blocking connects, retries with exponential backoff and jitter, and a hand-over of the
    connected descriptor to a callback. */
module Connector {
  import opened Bytes

  const INIT_RETRY_DELAY_MS: nat := 500
  const MAX_RETRY_DELAY_MS: nat := 30000

  datatype Phase = Disconnected | Connecting | Connected

  /** How an attempt went: no socket, connect under way (EINPROGRESS and the like), a transient error, or a
      fatal one. */
  datatype Attempt = NoSocket | InProgress | Transient | Fatal

  /** One retry: its number since construction or restart, and the delay it waits. */
  datatype Wait = Wait(k: nat, delay: nat)

  /** What the loop thread is doing: nothing here, or it is between two accesses of connect_, which other threads may
      change in the meantime. Starting, Failing, Retrying and Deciding are about to load it: in startInLoop, behind a
      socket that could not be created, in retry, and in handleWrite, which holds the descriptor fd. Dialing and
      Handing have seen it set. */
  datatype Doing = Idle | Starting | Dialing | Failing | Retrying | Deciding(fd: nat) | Handing(fd: nat)

  /** Descriptors are numbered in order of opening. timers, starts and stops count pending callbacks:
      retry timers, and queued calls of startInLoop and stopInLoop. opens, closed, handed, retries and waits
      are history. */
  datatype State = State(
    phase: Phase, connect: bool, channel: Option<nat>, retryDelay: nat, doing: Doing,
    timers: nat, starts: nat, stops: nat, alive: bool,
    opens: nat, closed: multiset<nat>, handed: multiset<nat>, retries: nat, waits: seq<Wait>)

  function Init(): State {
    State(Disconnected, false, None, INIT_RETRY_DELAY_MS, Idle, 0, 0, 0, true, 0, multiset{}, multiset{}, 0, [])
  }

  datatype Action =
    | Start                          // any thread
    | Stop                           // any thread
    // The loop thread, idle. StartInLoop asserts that it is disconnected, which a release build does not check.
    | StartInLoop | StopInLoop | Restart | RetryTimer | Writable(soError: bool) | Error | Destroy
    // The loop thread goes on.
    | CheckStart | Dial(attempt: Attempt) | CheckFailed | CheckRetry(delay: nat) | CheckHandOver | HandOver

  function Min(a: nat, b: nat): nat { if a < b then a else b }

  function CloseFd(s: State, fd: nat): State {
    s.(closed := s.closed + multiset{fd})
  }

  /** The second half of retry, behind the close: the next attempt, if one is wanted. */
  function AfterCheckRetry(s: State, delay: nat): State {
    if !s.connect then s.(doing := Idle)
    else s.(doing := Idle, timers := s.timers + 1, waits := s.waits + [Wait(s.retries, delay)],
            retries := s.retries + 1, retryDelay := Min(s.retryDelay * 2, MAX_RETRY_DELAY_MS))
  }

  function AfterDial(s: State, attempt: Attempt): State {
    match attempt
    case NoSocket => s.(doing := Failing)
    case InProgress => s.(doing := Idle, opens := s.opens + 1, phase := Connecting, channel := Some(s.opens))
    case Transient => CloseFd(s.(doing := Retrying, opens := s.opens + 1, phase := Disconnected), s.opens)
    case Fatal => CloseFd(s.(doing := Idle, opens := s.opens + 1), s.opens)
  }

  function AfterWritable(s: State, soError: bool): State
    requires s.channel.Some?
  {
    if s.phase != Connecting then s
    else
      var fd := s.channel.value;
      var s1 := s.(channel := None);
      if soError then CloseFd(s1.(phase := Disconnected, doing := Retrying), fd)
      else s1.(phase := Connected, doing := Deciding(fd))
  }

  /** The drawn delay lies in the upper half of the current backoff. */
  predicate Drawn(s: State, delay: nat) {
    s.retryDelay / 2 <= delay <= s.retryDelay
  }

  function Restarted(s: State): State {
    s.(phase := Disconnected, retryDelay := INIT_RETRY_DELAY_MS, retries := 0, connect := true)
  }

  predicate Enabled(s: State, a: Action) {
    s.alive &&
    match a
    case Start => true
    case Stop => true
    case StartInLoop => s.doing == Idle && s.starts > 0
    case StopInLoop => s.doing == Idle && s.stops > 0
    case Restart => s.doing == Idle
    case RetryTimer => s.doing == Idle && s.timers > 0
    case Writable(_) => s.doing == Idle && s.channel.Some?
    case Error => s.doing == Idle && s.channel.Some?
    case Destroy => s.doing == Idle
    case CheckStart => s.doing == Starting
    case Dial(_) => s.doing == Dialing
    case CheckFailed => s.doing == Failing
    case CheckRetry(delay) => s.doing == Retrying && Drawn(s, delay)
    case CheckHandOver => s.doing.Deciding?
    case HandOver => s.doing.Handing?
  }

  function Step(s: State, a: Action): State
    requires Enabled(s, a)
  {
    match a
    case Start => s.(connect := true, starts := s.starts + 1)
    case Stop => s.(connect := false, stops := s.stops + 1)
    case StartInLoop => s.(starts := s.starts - 1, doing := Starting)
    case StopInLoop =>
      var s1 := s.(stops := s.stops - 1);
      if s.phase == Connecting && s.channel.Some? then
        CloseFd(s1.(phase := Disconnected, channel := None), s.channel.value)
      else s1
    case Restart => Restarted(s).(doing := Starting)
    case RetryTimer =>
      var s1 := s.(timers := s.timers - 1);
      if !s.connect || s.phase != Disconnected then s1 else s1.(doing := Starting)
    case Writable(soError) => AfterWritable(s, soError)
    case Error => if s.phase != Connecting then s else AfterWritable(s, true)
    case Destroy =>
      if s.phase == Connecting && s.channel.Some? then
        CloseFd(s.(channel := None, phase := Disconnected, alive := false), s.channel.value)
      else s.(alive := false)
    case CheckStart => s.(doing := if s.connect then Dialing else Idle)
    case Dial(attempt) => AfterDial(s, attempt)
    case CheckFailed => if s.connect then s.(phase := Disconnected, doing := Retrying) else s.(doing := Idle)
    case CheckRetry(delay) => AfterCheckRetry(s, delay)
    case CheckHandOver =>
      if s.connect then s.(doing := Handing(s.doing.fd)) else CloseFd(s.(doing := Idle), s.doing.fd)
    case HandOver => s.(doing := Idle, handed := s.handed + multiset{s.doing.fd})
  }

  predicate CanRun(s: State, actions: seq<Action>)
    decreases |actions|
  {
    actions == [] || (Enabled(s, actions[0]) && CanRun(Step(s, actions[0]), actions[1..]))
  }

  function Run(s: State, actions: seq<Action>): State
    requires CanRun(s, actions)
    decreases |actions|
  {
    if actions == [] then s else Run(Step(s, actions[0]), actions[1..])
  }

  // ---------- conservation and backoff ----------

  /** The backoff before the k-th retry. */
  function Backoff(k: nat): nat {
    if k == 0 then INIT_RETRY_DELAY_MS else Min(Backoff(k - 1) * 2, MAX_RETRY_DELAY_MS)
  }

  function Pow2(k: nat): nat {
    if k == 0 then 1 else 2 * Pow2(k - 1)
  }

  /** It doubles from half a second up to half a minute. */
  lemma {:induction false} BackoffIs(k: nat)
    ensures Backoff(k) == Min(INIT_RETRY_DELAY_MS * Pow2(k), MAX_RETRY_DELAY_MS)
    decreases k
  {
    if k > 0 {
      BackoffIs(k - 1);
    }
  }

  /** The descriptor that a handler of the loop thread holds. */
  function InHand(s: State): Option<nat> {
    if s.doing.Deciding? || s.doing.Handing? then Some(s.doing.fd) else None
  }

  function Ones(o: Option<nat>, fd: nat): nat { if o == Some(fd) then 1 else 0 }

  /** How many owners the descriptor has: none before it is opened, exactly one ever after. */
  ghost predicate OwnedOnce(s: State, fd: nat) {
    s.closed[fd] + s.handed[fd] + Ones(s.channel, fd) + Ones(InHand(s), fd) == (if fd < s.opens then 1 else 0)
  }

  ghost predicate InRange(w: Wait) {
    Backoff(w.k) / 2 <= w.delay <= Backoff(w.k)
  }

  ghost predicate Inv(s: State) {
    && (forall fd: nat :: OwnedOnce(s, fd))
    && (s.channel.Some? <==> s.phase == Connecting)
    && (s.doing == Retrying || s.doing.Deciding? || s.doing.Handing? ==> s.phase != Connecting)
    && s.retryDelay == Backoff(s.retries)
    && (forall i :: 0 <= i < |s.waits| ==> InRange(s.waits[i]))
  }

  lemma InitInv()
    ensures Inv(Init())
  {
  }

  /** The steps that move no descriptor. */
  lemma SameOwners(s: State, s': State)
    requires forall fd: nat :: OwnedOnce(s, fd)
    requires s'.closed == s.closed && s'.handed == s.handed && s'.channel == s.channel && s'.opens == s.opens
    requires InHand(s') == InHand(s)
    ensures forall fd: nat :: OwnedOnce(s', fd)
  {
    forall fd: nat ensures OwnedOnce(s', fd) {
      assert OwnedOnce(s, fd);
    }
  }

  /** One descriptor, new or from one of the three places, goes to another. */
  lemma Moved(s: State, s': State, x: nat)
    requires forall fd: nat :: OwnedOnce(s, fd)
    requires forall fd: nat :: fd != x ==>
               s'.closed[fd] + s'.handed[fd] + Ones(s'.channel, fd) + Ones(InHand(s'), fd)
               == s.closed[fd] + s.handed[fd] + Ones(s.channel, fd) + Ones(InHand(s), fd)
    requires OwnedOnce(s', x) && (s'.opens == s.opens || (s'.opens == s.opens + 1 && x == s.opens))
    ensures forall fd: nat :: OwnedOnce(s', fd)
  {
    forall fd: nat ensures OwnedOnce(s', fd) {
      assert OwnedOnce(s, fd);
    }
  }

  /** A new attempt does harm while a connect is under way: restart, an attempt of a start that has reached the loop,
      or the retry after it, if there was no socket. An attempt that fails for good does none. */
  predicate Overlaps(s: State, a: Action) {
    && s.phase == Connecting
    && (a.Restart? || (a.Dial? && (a.attempt.InProgress? || a.attempt.Transient?)) || (a.CheckFailed? && s.connect))
  }

  lemma DialInv(s: State, attempt: Attempt)
    requires Inv(s) && s.doing == Dialing && (s.phase != Connecting || attempt.NoSocket? || attempt.Fatal?)
    ensures Inv(AfterDial(s, attempt))
  {
    var s' := AfterDial(s, attempt);
    if attempt.NoSocket? {
      SameOwners(s, s');
    } else {
      assert OwnedOnce(s, s.opens);
      Moved(s, s', s.opens);
    }
  }

  lemma WritableInv(s: State, soError: bool)
    requires Inv(s) && s.channel.Some? && s.doing == Idle
    ensures Inv(AfterWritable(s, soError))
  {
    assert OwnedOnce(s, s.channel.value);
    Moved(s, AfterWritable(s, soError), s.channel.value);
  }

  /** The channel's descriptor is closed and the channel gone. */
  lemma DropChannelInv(s: State, s': State)
    requires Inv(s) && s.channel.Some? && s.doing == Idle
    requires s' == CloseFd(s.(channel := None, phase := Disconnected, alive := s'.alive, stops := s'.stops),
                           s.channel.value)
    ensures Inv(s')
  {
    assert OwnedOnce(s, s.channel.value);
    Moved(s, s', s.channel.value);
  }

  /** handleWrite closes the descriptor in its hand, or hands it over. */
  lemma HandInv(s: State, a: Action)
    requires Inv(s) && Enabled(s, a) && (a.CheckHandOver? || a.HandOver?)
    ensures Inv(Step(s, a))
  {
    assert OwnedOnce(s, s.doing.fd);
    Moved(s, Step(s, a), s.doing.fd);
  }

  lemma RetryInv(s: State, delay: nat)
    requires Inv(s) && s.doing == Retrying && Drawn(s, delay)
    ensures Inv(AfterCheckRetry(s, delay))
  {
    SameOwners(s, AfterCheckRetry(s, delay));
    assert InRange(Wait(s.retries, delay));
  }

  /** Every other step keeps the invariant. */
  lemma StepInv(s: State, a: Action)
    requires Inv(s) && Enabled(s, a) && !Overlaps(s, a)
    ensures Inv(Step(s, a))
  {
    var s' := Step(s, a);
    match a
    case Dial(attempt) => DialInv(s, attempt);
    case Writable(soError) => WritableInv(s, soError);
    case Error => WritableInv(s, true);
    case CheckHandOver => HandInv(s, a);
    case HandOver => HandInv(s, a);
    case CheckRetry(delay) => RetryInv(s, delay);
    case StopInLoop =>
      if s.phase == Connecting { DropChannelInv(s, s'); } else { SameOwners(s, s'); }
    case Destroy =>
      if s.phase == Connecting { DropChannelInv(s, s'); } else { SameOwners(s, s'); }
    case _ => SameOwners(s, s');
  }

  /** No attempt begins while a connect is under way. */
  ghost predicate Orderly(s: State, actions: seq<Action>)
    requires CanRun(s, actions)
    decreases |actions|
  {
    actions == [] || (!Overlaps(s, actions[0]) && Orderly(Step(s, actions[0]), actions[1..]))
  }

  lemma {:induction false} RunInv(s: State, actions: seq<Action>)
    requires Inv(s) && CanRun(s, actions) && Orderly(s, actions)
    ensures Inv(Run(s, actions))
    decreases |actions|
  {
    if actions != [] {
      StepInv(s, actions[0]);
      RunInv(Step(s, actions[0]), actions[1..]);
    }
  }

  /** Each opened descriptor is in exactly one of four places: closed, once; handed to the callback, once; held by the
      channel; or in the hands of handleWrite. */
  ghost predicate Accounted(s: State) {
    forall fd :: 0 <= fd < s.opens ==> s.closed[fd] + s.handed[fd] + Ones(s.channel, fd) + Ones(InHand(s), fd) == 1
  }

  lemma InvAccounted(s: State)
    requires Inv(s)
    ensures Accounted(s)
  {
    forall fd | 0 <= fd < s.opens
      ensures s.closed[fd] + s.handed[fd] + Ones(s.channel, fd) + Ones(InHand(s), fd) == 1
    {
      assert OwnedOnce(s, fd);
    }
  }

  /** In every orderly run the descriptors are accounted for and the channel exists exactly while connecting. And
      the k-th retry since construction or restart waits between half of and all of min(500 * 2^k, 30000)
      milliseconds. */
  lemma DescriptorsConserved(actions: seq<Action>)
    requires CanRun(Init(), actions) && Orderly(Init(), actions)
    ensures var s := Run(Init(), actions);
            && Accounted(s)
            && (s.channel.Some? <==> s.phase == Connecting)
            && (forall i :: 0 <= i < |s.waits| ==>
                  var d := Min(INIT_RETRY_DELAY_MS * Pow2(s.waits[i].k), MAX_RETRY_DELAY_MS);
                  d / 2 <= s.waits[i].delay <= d)
  {
    InitInv();
    RunInv(Init(), actions);
    var s := Run(Init(), actions);
    InvAccounted(s);
    forall i | 0 <= i < |s.waits|
      ensures var d := Min(INIT_RETRY_DELAY_MS * Pow2(s.waits[i].k), MAX_RETRY_DELAY_MS);
              d / 2 <= s.waits[i].delay <= d
    {
      assert InRange(s.waits[i]);
      BackoffIs(s.waits[i].k);
    }
  }

  // ---------- when a descriptor is lost ----------

  /** The run goes on without another overlap and still loses track of a descriptor. */
  ghost predicate Loses(s: State, next: seq<Action>) {
    CanRun(s, next) && Orderly(s, next) && !Accounted(Run(s, next))
  }

  lemma RunCons(s: State, a: Action, rest: seq<Action>)
    requires Enabled(s, a) && CanRun(Step(s, a), rest)
    ensures CanRun(s, [a] + rest) && Run(s, [a] + rest) == Run(Step(s, a), rest)
    ensures !Overlaps(s, a) && Orderly(Step(s, a), rest) ==> Orderly(s, [a] + rest)
  {
    assert ([a] + rest)[1..] == rest;
  }

  lemma LosesLater(s: State, a: Action, next: seq<Action>)
    requires Enabled(s, a) && !Overlaps(s, a) && Loses(Step(s, a), next)
    ensures Loses(s, [a] + next)
  {
    RunCons(s, a, next);
  }

  lemma LosesNow(s: State, fd: nat)
    requires fd < s.opens && s.closed[fd] == s.handed[fd] == 0 && s.channel != Some(fd) && InHand(s) != Some(fd)
    ensures Loses(s, [])
  {
    assert s.closed[fd] + s.handed[fd] + Ones(s.channel, fd) + Ones(InHand(s), fd) == 0;
    assert CanRun(s, []) && Run(s, []) == s;
  }

  /** The channel is there although no connect is under way. */
  predicate Orphaned(s: State) {
    && s.alive && s.phase == Disconnected && s.channel.Some? && s.channel.value < s.opens
    && s.closed[s.channel.value] == s.handed[s.channel.value] == 0 && InHand(s) == None
  }

  /** The next attempt overwrites it. */
  lemma OrphanDialed(s: State) returns (next: seq<Action>)
    requires Orphaned(s) && s.doing == Starting && s.connect
    ensures Loses(s, next)
  {
    var s1 := Step(s, CheckStart);
    var s2 := Step(s1, Dial(InProgress));
    LosesNow(s2, s.channel.value);
    LosesLater(s1, Dial(InProgress), []);
    LosesLater(s, CheckStart, [Dial(InProgress)] + []);
    next := [CheckStart] + ([Dial(InProgress)] + []);
  }

  lemma OrphanLost(s: State) returns (next: seq<Action>)
    requires Orphaned(s) && (s.doing == Retrying || (s.doing == Starting && s.connect))
    ensures Loses(s, next)
  {
    if s.doing == Starting {
      next := OrphanDialed(s);
    } else {
      var retry := CheckRetry(s.retryDelay);
      var s1 := Step(s, retry);
      next := OrphanDialed(Step(s1, Restart));
      LosesLater(s1, Restart, next);
      LosesLater(s, retry, [Restart] + next);
      next := [retry] + ([Restart] + next);
    }
  }

  lemma OverlapLoses(s: State, a: Action) returns (next: seq<Action>)
    requires Inv(s) && Enabled(s, a) && Overlaps(s, a)
    ensures Loses(Step(s, a), next)
  {
    var s', fd := Step(s, a), s.channel.value;
    assert OwnedOnce(s, fd) && OwnedOnce(s, s.opens);
    if a.Dial? && a.attempt.InProgress? {
      LosesNow(s', fd);
      next := [];
    } else {
      next := OrphanLost(s');
    }
  }

  /** A step in a good state can cost a descriptor, with no other overlap after it, exactly when it overlaps a connect
      that is under way. */
  lemma LosesExactlyWhen(s: State, a: Action)
    requires Inv(s) && Enabled(s, a)
    ensures (exists next :: Loses(Step(s, a), next)) <==> Overlaps(s, a)
  {
    if Overlaps(s, a) {
      var next := OverlapLoses(s, a);
    } else {
      StepInv(s, a);
      forall next ensures !Loses(Step(s, a), next) {
        if CanRun(Step(s, a), next) && Orderly(Step(s, a), next) {
          RunInv(Step(s, a), next);
          InvAccounted(Run(Step(s, a), next));
        }
      }
    }
  }

  /** The first connect is under way, and start has been called once more. */
  function UnderWay(): State {
    Init().(phase := Connecting, connect := true, channel := Some(0), starts := 1, opens := 1)
  }

  lemma ReachUnderWay(rest: seq<Action>) returns (actions: seq<Action>)
    requires CanRun(UnderWay(), rest)
    ensures CanRun(Init(), actions) && Run(Init(), actions) == Run(UnderWay(), rest)
  {
    var s1 := Step(Init(), Start);
    var s2 := Step(s1, Start);
    var s3 := Step(s2, StartInLoop);
    var s4 := Step(s3, CheckStart);
    assert Step(s4, Dial(InProgress)) == UnderWay();
    RunCons(s4, Dial(InProgress), rest);
    actions := [Dial(InProgress)] + rest;
    RunCons(s3, CheckStart, actions);
    actions := [CheckStart] + actions;
    RunCons(s2, StartInLoop, actions);
    actions := [StartInLoop] + actions;
    RunCons(s1, Start, actions);
    actions := [Start] + actions;
    RunCons(Init(), Start, actions);
    actions := [Start] + actions;
  }

  /** An attempt that begins is under way, whatever the channel held before. */
  lemma DialsAnew(s: State) returns (rest: seq<Action>)
    requires s.alive && s.doing == Starting && s.connect
    ensures CanRun(s, rest)
    ensures Run(s, rest) == s.(doing := Idle, opens := s.opens + 1, phase := Connecting, channel := Some(s.opens))
  {
    var s1 := Step(s, CheckStart);
    var s2 := Step(s1, Dial(InProgress));
    assert CanRun(s2, []) && Run(s2, []) == s2;
    RunCons(s1, Dial(InProgress), []);
    rest := [Dial(InProgress)] + [];
    RunCons(s, CheckStart, rest);
    rest := [CheckStart] + rest;
  }

  /** Two runs that lose the first descriptor: restart while connecting, and a second start while connecting. */
  lemma DescriptorLost(a: Action) returns (actions: seq<Action>)
    requires a == Restart || a == StartInLoop
    ensures CanRun(Init(), actions)
    ensures var s := Run(Init(), actions);
            s.channel == Some(1) && s.opens == 2 && s.doing == Idle && s.closed == s.handed == multiset{}
  {
    var rest := Overwrites(UnderWay(), a);
    actions := ReachUnderWay(rest);
  }

  lemma Overwrites(s: State, a: Action) returns (rest: seq<Action>)
    requires s.alive && s.doing == Idle && s.connect && s.starts > 0 && (a == Restart || a == StartInLoop)
    ensures CanRun(s, rest)
    ensures var s' := Run(s, rest);
            && s'.channel == Some(s.opens) && s'.opens == s.opens + 1 && s'.doing == Idle
            && s'.closed == s.closed && s'.handed == s.handed
  {
    rest := DialsAnew(Step(s, a));
    RunCons(s, a, rest);
    rest := [a] + rest;
  }

  // ---------- a wanted connection is not forgotten ----------

  /** How many retry timers have fired. */
  function RetriesFired(actions: seq<Action>): nat {
    if actions == [] then 0 else (if actions[0].RetryTimer? then 1 else 0) + RetriesFired(actions[1..])
  }

  /** In every run each wait is a retry timer: one that is pending, or one that has fired. */
  lemma {:induction false} WaitsAreTimers(s: State, actions: seq<Action>)
    requires CanRun(s, actions)
    ensures var s' := Run(s, actions);
            |s'.waits| - |s.waits| == s'.timers - s.timers + RetriesFired(actions)
    decreases |actions|
  {
    if actions != [] {
      WaitsAreTimers(Step(s, actions[0]), actions[1..]);
    }
  }

  lemma EveryWaitHasATimer(actions: seq<Action>)
    requires CanRun(Init(), actions)
    ensures var s := Run(Init(), actions);
            |s.waits| == s.timers + RetriesFired(actions)
  {
    WaitsAreTimers(Init(), actions);
  }

  /** What the phase is while the loop thread is busy. */
  ghost predicate PhaseFits(s: State) {
    && (s.doing == Retrying ==> s.phase == Disconnected)
    && (s.doing.Deciding? || s.doing.Handing? ==> s.phase == Connected)
    && (s.phase == Connecting ==> s.channel.Some?)
  }

  /** A connection is wanted, and nothing is under way that could bring it about. */
  predicate Stuck(s: State) {
    && s.alive && s.connect && s.phase == Disconnected && s.doing == Idle
    && s.starts == 0 && s.timers == 0
  }

  /** The attempt fails for good, or the connect under way is given up for a stop that a later start has overtaken,
      with no other attempt to come. */
  predicate GivesUp(s: State, a: Action) {
    && s.alive && s.connect && s.starts == 0 && s.timers == 0
    && (|| (a == Dial(Fatal) && s.phase == Disconnected)
        || (a.StopInLoop? && s.phase == Connecting))
  }

  lemma InitFits()
    ensures PhaseFits(Init()) && !Stuck(Init())
  {
  }

  /** A step leaves a wanted connection without any attempt under way exactly when it gives up. */
  lemma StuckExactlyWhen(s: State, a: Action)
    requires PhaseFits(s) && !Stuck(s) && Enabled(s, a)
    ensures PhaseFits(Step(s, a))
    ensures Stuck(Step(s, a)) <==> GivesUp(s, a)
  {
  }

  ghost predicate NeverGivesUp(s: State, actions: seq<Action>)
    requires CanRun(s, actions)
    decreases |actions|
  {
    actions == [] || (!GivesUp(s, actions[0]) && NeverGivesUp(Step(s, actions[0]), actions[1..]))
  }

  /** In every run in which no step gives up, a wanted connection is made, or an attempt is under way or to come. */
  lemma {:induction false} WantedGoesOn(s: State, actions: seq<Action>)
    requires PhaseFits(s) && !Stuck(s) && CanRun(s, actions) && NeverGivesUp(s, actions)
    ensures PhaseFits(Run(s, actions)) && !Stuck(Run(s, actions))
    decreases |actions|
  {
    if actions != [] {
      StuckExactlyWhen(s, actions[0]);
      WantedGoesOn(Step(s, actions[0]), actions[1..]);
    }
  }

  /** A stop is overtaken by a restart in the loop thread: the attempt that the restart begins is given up when the work
      that the stop has queued runs, and the connection stays wanted with nothing to bring it about. */
  lemma WantedGivenUp() returns (actions: seq<Action>)
    ensures CanRun(Init(), actions) && Stuck(Run(Init(), actions))
  {
    var s1 := Step(Init(), Stop);
    actions := GivenUp(Step(s1, Restart));
    RunCons(s1, Restart, actions);
    actions := [Restart] + actions;
    RunCons(Init(), Stop, actions);
    actions := [Stop] + actions;
  }

  lemma GivenUp(s: State) returns (actions: seq<Action>)
    requires s.alive && s.connect && s.doing == Starting && s.starts == s.timers == 0 && s.stops > 0
    ensures CanRun(s, actions) && Stuck(Run(s, actions))
  {
    var s1 := Step(s, CheckStart);
    var s2 := Step(s1, Dial(InProgress));
    var s3 := Step(s2, StopInLoop);
    assert CanRun(s3, []) && Run(s3, []) == s3;
    RunCons(s2, StopInLoop, []);
    actions := [StopInLoop] + [];
    RunCons(s1, Dial(InProgress), actions);
    actions := [Dial(InProgress)] + actions;
    RunCons(s, CheckStart, actions);
    actions := [CheckStart] + actions;
  }

  /** The loop thread goes on by itself. */
  predicate OwnStep(a: Action) {
    a.StartInLoop? || a.RetryTimer? || a.CheckStart? || a.CheckRetry? || a.CheckFailed?
  }

  /** A run of such steps that ends with the next attempt. */
  ghost predicate ReachesDial(s: State, actions: seq<Action>) {
    && CanRun(s, actions) && Run(s, actions).doing == Dialing
    && forall i :: 0 <= i < |actions| ==> OwnStep(actions[i])
  }

  lemma DialLater(s: State, a: Action, actions: seq<Action>)
    requires Enabled(s, a) && OwnStep(a) && ReachesDial(Step(s, a), actions)
    ensures ReachesDial(s, [a] + actions)
  {
    RunCons(s, a, actions);
  }

  lemma StartingDials(s: State) returns (actions: seq<Action>)
    requires s.alive && s.connect && s.doing == Starting
    ensures ReachesDial(s, actions)
  {
    var s' := Step(s, CheckStart);
    assert CanRun(s', []) && Run(s', []) == s';
    DialLater(s, CheckStart, []);
    actions := [CheckStart] + [];
  }

  lemma IdleDials(s: State) returns (actions: seq<Action>)
    requires s.alive && s.connect && s.doing == Idle && s.phase == Disconnected && !Stuck(s)
    ensures ReachesDial(s, actions)
  {
    var a := if s.starts > 0 then StartInLoop else RetryTimer;
    actions := StartingDials(Step(s, a));
    DialLater(s, a, actions);
    actions := [a] + actions;
  }

  lemma RetryingDials(s: State) returns (actions: seq<Action>)
    requires s.alive && s.connect && s.doing == Retrying && s.phase == Disconnected
    ensures ReachesDial(s, actions)
  {
    var a := CheckRetry(s.retryDelay);
    actions := IdleDials(Step(s, a));
    DialLater(s, a, actions);
    actions := [a] + actions;
  }

  /** A wanted connection that is not made and not under way, unless it was given up, has a run to its next attempt
      without another call of start or restart. */
  lemma NextAttempt(s: State) returns (actions: seq<Action>)
    requires PhaseFits(s) && !Stuck(s) && s.alive && s.connect && s.phase == Disconnected
    ensures ReachesDial(s, actions)
  {
    match s.doing
    case Idle => actions := IdleDials(s);
    case Starting => actions := StartingDials(s);
    case Dialing =>
      actions := [];
      assert Run(s, []) == s;
    case Failing =>
      actions := RetryingDials(Step(s, CheckFailed));
      DialLater(s, CheckFailed, actions);
      actions := [CheckFailed] + actions;
    case Retrying => actions := RetryingDials(s);
    case _ => assert false;
  }

  /** A connect under way that fails, by its own event or by an error event, gives its descriptor back, and if it is
      still wanted the next attempt is on its way. */
  lemma FailedConnectRetries(s: State, a: Action) returns (actions: seq<Action>)
    requires PhaseFits(s) && Enabled(s, a) && s.connect && s.phase == Connecting && (a == Error || a == Writable(true))
    ensures Step(s, a).closed == s.closed + multiset{s.channel.value} && Step(s, a).channel.None?
    ensures ReachesDial(Step(s, a), actions)
  {
    actions := RetryingDials(Step(s, a));
  }

  /** A connect that succeeds and is still wanted is handed over. */
  lemma ConnectIsHandedOver(s: State)
    requires PhaseFits(s) && Enabled(s, Writable(false)) && s.connect && s.phase == Connecting
    ensures var actions := [Writable(false), CheckHandOver, HandOver];
            CanRun(s, actions) && Run(s, actions).handed == s.handed + multiset{s.channel.value}
  {
    var s1 := Step(s, Writable(false));
    var s2 := Step(s1, CheckHandOver);
    var s3 := Step(s2, HandOver);
    assert CanRun(s3, []) && Run(s3, []) == s3;
    RunCons(s2, HandOver, []);
    assert [HandOver] + [] == [HandOver];
    RunCons(s1, CheckHandOver, [HandOver]);
    assert [CheckHandOver] + [HandOver] == [CheckHandOver, HandOver];
    RunCons(s, Writable(false), [CheckHandOver, HandOver]);
    assert [Writable(false)] + [CheckHandOver, HandOver] == [Writable(false), CheckHandOver, HandOver];
  }

  /** In every run the queued calls are those queued less those that have run. */
  function Balance(actions: seq<Action>): (int, int) {
    if actions == [] then (0, 0)
    else
      var a, rest := actions[0], Balance(actions[1..]);
      (rest.0 + (if a.Start? then 1 else if a.StartInLoop? then -1 else 0),
       rest.1 + (if a.Stop? then 1 else if a.StopInLoop? then -1 else 0))
  }

  lemma {:induction false} QueueCounts(s: State, actions: seq<Action>)
    requires CanRun(s, actions)
    ensures var s', b := Run(s, actions), Balance(actions);
            s'.starts == s.starts + b.0 && s'.stops == s.stops + b.1
    decreases |actions|
  {
    if actions != [] {
      StepQueues(s, actions[0]);
      QueueCounts(Step(s, actions[0]), actions[1..]);
    }
  }

  lemma StepQueues(s: State, a: Action)
    requires Enabled(s, a)
    ensures Step(s, a).starts == s.starts + (if a.Start? then 1 else if a.StartInLoop? then -1 else 0)
    ensures Step(s, a).stops == s.stops + (if a.Stop? then 1 else if a.StopInLoop? then -1 else 0)
  {
  }

  /** After its destruction a connector does nothing any more. */
  lemma DestroyIsLast(s: State, actions: seq<Action>)
    requires Enabled(s, Destroy) && CanRun(Step(s, Destroy), actions)
    ensures actions == []
  {
  }

  /** A handler goes on by itself until the loop thread is idle. */
  predicate GoesOn(a: Action) {
    a.CheckStart? || a.Dial? || a.CheckFailed? || a.CheckRetry? || a.CheckHandOver? || a.HandOver?
  }

  /** Whatever the loop thread is doing here, it comes to its end. */
  lemma HandlerEnds(s: State) returns (actions: seq<Action>)
    requires s.alive
    ensures CanRun(s, actions) && Run(s, actions).doing == Idle && forall i :: 0 <= i < |actions| ==> GoesOn(actions[i])
    decreases match s.doing case Idle => 0 case Retrying => 1 case Failing => 2 case Dialing => 3 case Starting => 4
                            case Handing(_) => 1 case Deciding(_) => 2
  {
    if s.doing == Idle {
      actions := [];
      assert Run(s, []) == s;
    } else {
      var a := match s.doing
        case Starting => CheckStart
        case Dialing => Dial(NoSocket)
        case Failing => CheckFailed
        case Deciding(_) => CheckHandOver
        case Handing(_) => HandOver
        case _ => CheckRetry(s.retryDelay);
      actions := HandlerEnds(Step(s, a));
      RunCons(s, a, actions);
      actions := [a] + actions;
    }
  }

  /** An attempt under way or about to begin finds no connect under way and no connection. */
  ghost predicate Alone(s: State) {
    s.starts == 0 && (s.doing == Starting || s.doing == Dialing || s.doing == Failing ==> s.phase == Disconnected)
  }

  lemma StepAlone(s: State, a: Action)
    requires PhaseFits(s) && Alone(s) && Enabled(s, a) && !a.Start? && !a.Restart?
    ensures Alone(Step(s, a)) && !Overlaps(s, a)
  {
  }

  /** Retries do no harm: in every run without a call of start or restart no attempt begins while a connect is under way
      or a connection is made. */
  lemma {:induction false} RetriesAreOrderly(s: State, actions: seq<Action>)
    requires PhaseFits(s) && Alone(s) && CanRun(s, actions)
    requires forall i :: 0 <= i < |actions| ==> !actions[i].Start? && !actions[i].Restart?
    ensures Orderly(s, actions) && Alone(Run(s, actions))
    decreases |actions|
  {
    if actions != [] {
      StepAlone(s, actions[0]);
      StepFits(s, actions[0]);
      RetriesAreOrderly(Step(s, actions[0]), actions[1..]);
    }
  }

  lemma StepFits(s: State, a: Action)
    requires PhaseFits(s) && Enabled(s, a)
    ensures PhaseFits(Step(s, a))
  {
  }

  /** In every run a connector that has been stopped makes no new attempt until start or restart is called. */
  lemma {:induction false} StoppedStaysQuiet(s: State, actions: seq<Action>)
    requires !s.connect && s.doing != Dialing && CanRun(s, actions)
    requires forall i :: 0 <= i < |actions| ==> !actions[i].Start? && !actions[i].Restart?
    ensures forall i :: 0 <= i < |actions| ==> !actions[i].Dial?
    decreases |actions|
  {
    if actions != [] {
      StepQuiet(s, actions[0]);
      StoppedStaysQuiet(Step(s, actions[0]), actions[1..]);
      assert actions == [actions[0]] + actions[1..];
    }
  }

  lemma StepQuiet(s: State, a: Action)
    requires !s.connect && s.doing != Dialing && Enabled(s, a) && !a.Start? && !a.Restart?
    ensures !a.Dial? && !Step(s, a).connect && Step(s, a).doing != Dialing
  {
  }

  // ---------- a restart begins with a short wait again ----------

  /** The backoff is at its r-th step. */
  ghost predicate Backs(s: State, r: nat) {
    s.retries == r && s.retryDelay == Backoff(r)
  }

  lemma {:induction false} BacksOn(s: State, actions: seq<Action>, r: nat)
    requires Backs(s, r) && CanRun(s, actions) && Restart !in actions
    ensures var s' := Run(s, actions);
            && |s.waits| <= |s'.waits| && s'.waits[..|s.waits|] == s.waits
            && Backs(s', r + |s'.waits| - |s.waits|)
            && forall i :: |s.waits| <= i < |s'.waits| ==>
                 Backoff(r + i - |s.waits|) / 2 <= s'.waits[i].delay <= Backoff(r + i - |s.waits|)
    decreases |actions|
  {
    if actions == [] {
      assert s.waits[..|s.waits|] == s.waits;
    } else {
      var a, s1 := actions[0], Step(s, actions[0]);
      assert actions == [a] + actions[1..] && a in actions;
      var r1 := if a.CheckRetry? && s.connect then r + 1 else r;
      StepBacks(s, a, r, r1);
      BacksOn(s1, actions[1..], r1);
    }
  }

  lemma StepBacks(s: State, a: Action, r: nat, r1: nat)
    requires Backs(s, r) && Enabled(s, a) && a != Restart && r1 == if a.CheckRetry? && s.connect then r + 1 else r
    ensures var s1 := Step(s, a);
            && Backs(s1, r1) && |s1.waits| == |s.waits| + r1 - r && s1.waits[..|s.waits|] == s.waits
            && (r1 > r ==> Backoff(r) / 2 <= s1.waits[|s.waits|].delay <= Backoff(r))
  {
    if !a.CheckRetry? {
      QuietBacks(s, a);
    }
  }

  lemma QuietBacks(s: State, a: Action)
    requires Enabled(s, a) && a != Restart && !a.CheckRetry?
    ensures var s1 := Step(s, a);
            s1.waits == s.waits && s1.retries == s.retries && s1.retryDelay == s.retryDelay
  {
  }

  /** From construction or a restart on, whatever came before it, the i-th retry waits between half of and all of
      min(500 * 2^i, 30000) milliseconds. */
  lemma BackoffFromRestart(before: seq<Action>, after: seq<Action>, i: nat)
    requires CanRun(Init(), before) && Enabled(Run(Init(), before), Restart)
    requires var s := Step(Run(Init(), before), Restart);
             CanRun(s, after) && Restart !in after && |s.waits| + i < |Run(s, after).waits|
    ensures var s := Step(Run(Init(), before), Restart);
            var d := Min(INIT_RETRY_DELAY_MS * Pow2(i), MAX_RETRY_DELAY_MS);
            d / 2 <= Run(s, after).waits[|s.waits| + i].delay <= d
  {
    var s := Step(Run(Init(), before), Restart);
    BacksOn(s, after, 0);
    BackoffIs(i);
    assert Backoff(0 + (|s.waits| + i) - |s.waits|) == Backoff(i);
  }

  // ---------- stop ----------

  /** The descriptors that are handed over in spite of a stop: the one whose handler has passed its check. */
  function Committed(s: State): multiset<nat> {
    if s.doing.Handing? then multiset{s.doing.fd} else multiset{}
  }

  /** Nobody calls start or restart. */
  ghost predicate Quiet(actions: seq<Action>) {
    forall i :: 0 <= i < |actions| ==> !actions[i].Start? && !actions[i].Restart?
  }

  lemma StoppedStep(s: State, a: Action)
    requires !s.connect && Enabled(s, a) && !a.Start? && !a.Restart?
    ensures var s' := Step(s, a);
            !s'.connect && s'.handed + Committed(s') <= s.handed + Committed(s) && s.handed <= s'.handed
  {
    if !a.HandOver? {
      OthersHandNothing(s, a);
    }
  }

  lemma OthersHandNothing(s: State, a: Action)
    requires !s.connect && Enabled(s, a) && !a.Start? && !a.Restart? && !a.HandOver?
    ensures var s' := Step(s, a);
            !s'.connect && s'.handed == s.handed && (s'.doing == s.doing || !s'.doing.Handing?)
  {
  }

  /** After stop, as long as nobody calls start or restart, at most one descriptor is still handed to the callback, and
      only one whose handler had passed its check of connect_ when stop came. */
  lemma {:induction false} StopSilences(s: State, actions: seq<Action>)
    requires !s.connect && CanRun(s, actions)
    requires Quiet(actions)
    ensures s.handed <= Run(s, actions).handed <= s.handed + Committed(s)
    decreases |actions|
  {
    if actions != [] {
      StoppedStep(s, actions[0]);
      StopSilences(Step(s, actions[0]), actions[1..]);
    }
  }

  ghost predicate HandsOver(s: State, actions: seq<Action>) {
    CanRun(s, actions) && Run(s, actions).handed != s.handed && Quiet(actions)
  }

  /** A stop can still be followed by a hand-over exactly when a handler has passed its check. */
  lemma HandsOverExactlyWhen(s: State)
    requires !s.connect && s.alive
    ensures (exists actions :: HandsOver(s, actions)) <==> s.doing.Handing?
  {
    if s.doing.Handing? {
      var s' := Step(s, HandOver);
      assert CanRun(s', []) && Run(s', []) == s';
      RunCons(s, HandOver, []);
      assert Run(s, [HandOver] + []).handed[s.doing.fd] == s.handed[s.doing.fd] + 1;
      assert HandsOver(s, [HandOver] + []);
    } else {
      forall actions ensures !HandsOver(s, actions) {
        if CanRun(s, actions) && Quiet(actions) {
          StopSilences(s, actions);
          assert s.handed + multiset{} == s.handed;
        }
      }
    }
  }

  /** A run in which stop comes between the check and the callback: the callback gets its descriptor after the stop. */
  lemma HandedAfterStop() returns (actions: seq<Action>)
    ensures CanRun(Init(), actions + [Stop]) && !Run(Init(), actions + [Stop]).connect
    ensures Run(Init(), actions + [Stop]).handed == multiset{}
    ensures CanRun(Init(), actions + [Stop] + [HandOver])
    ensures Run(Init(), actions + [Stop] + [HandOver]).handed == multiset{0}
  {
    var s0 := UnderWay();
    var s1 := Step(s0, Writable(false));
    var s2 := Step(s1, CheckHandOver);
    assert CanRun(s2, []) && Run(s2, []) == s2;
    RunCons(s1, CheckHandOver, []);
    RunCons(s0, Writable(false), [CheckHandOver] + []);
    actions := ReachUnderWay([Writable(false)] + ([CheckHandOver] + []));
    RunSnoc(Init(), actions, Stop);
    RunSnoc(Init(), actions + [Stop], HandOver);
  }

  lemma {:induction false} RunSnoc(s: State, actions: seq<Action>, a: Action)
    requires CanRun(s, actions) && Enabled(Run(s, actions), a)
    ensures CanRun(s, actions + [a]) && Run(s, actions + [a]) == Step(Run(s, actions), a)
    decreases |actions|
  {
    if actions == [] {
      var s' := Step(s, a);
      assert CanRun(s', []) && Run(s', []) == s';
      RunCons(s, a, []);
      assert actions + [a] == [a] + [];
    } else {
      RunSnoc(Step(s, actions[0]), actions[1..], a);
      assert (actions + [a])[1..] == actions[1..] + [a];
    }
  }

  // ---------- whole handlers ----------

  /** retry, startInLoop and handleWrite when no other thread comes between their accesses of connect_. */
  function AfterRetry(s: State, delay: nat): State {
    AfterCheckRetry(s.(phase := Disconnected), delay)
  }

  function AfterConnect(s: State, attempt: Attempt, delay: nat): State {
    match attempt
    case NoSocket => if s.connect then AfterRetry(s, delay) else s
    case InProgress => AfterDial(s, attempt)
    case Transient => AfterRetry(AfterDial(s, attempt), delay)
    case Fatal => AfterDial(s, attempt)
  }

  function AfterStart(s: State, attempt: Attempt, delay: nat): State {
    if s.connect then AfterConnect(s, attempt, delay) else s
  }

  function AfterHandleWrite(s: State, soError: bool, delay: nat): State
    requires s.channel.Some?
  {
    if s.phase != Connecting then s
    else if soError then AfterRetry(AfterWritable(s, true), delay)
    else
      var s1 := AfterWritable(s, false).(doing := Idle);
      if s.connect then s1.(handed := s.handed + multiset{s.channel.value}) else CloseFd(s1, s.channel.value)
  }

  /** The steps of startInLoop in turn. */
  function StartSteps(connect: bool, attempt: Attempt, delay: nat): seq<Action> {
    if !connect then [CheckStart]
    else if attempt.NoSocket? then [CheckStart, Dial(attempt), CheckFailed, CheckRetry(delay)]
    else if attempt.Transient? then [CheckStart, Dial(attempt), CheckRetry(delay)]
    else [CheckStart, Dial(attempt)]
  }

  lemma RunNone(s: State)
    ensures CanRun(s, []) && Run(s, []) == s
  {
  }

  /** A whole call of startInLoop is a run of these steps. */
  lemma StartIsRun(s: State, attempt: Attempt, delay: nat)
    requires s.alive && s.doing == Starting && Drawn(s, delay)
    ensures CanRun(s, StartSteps(s.connect, attempt, delay))
    ensures Run(s, StartSteps(s.connect, attempt, delay)) == AfterStart(s.(doing := Idle), attempt, delay)
  {
    var s1 := Step(s, CheckStart);
    if !s.connect {
      RunNone(s1);
      RunCons(s, CheckStart, []);
      assert [CheckStart] + [] == StartSteps(s.connect, attempt, delay);
    } else {
      var rest := DialIsRun(s1, attempt, delay);
      RunCons(s, CheckStart, rest);
      assert [CheckStart] + rest == StartSteps(s.connect, attempt, delay);
    }
  }

  lemma DialIsRun(s: State, attempt: Attempt, delay: nat) returns (rest: seq<Action>)
    requires s.alive && s.doing == Dialing && s.connect && Drawn(s, delay)
    ensures CanRun(s, rest) && Run(s, rest) == AfterConnect(s.(doing := Idle), attempt, delay)
    ensures [CheckStart] + rest == StartSteps(true, attempt, delay)
  {
    var s1 := Step(s, Dial(attempt));
    if attempt.NoSocket? {
      var s2 := Step(s1, CheckFailed);
      var s3 := Step(s2, CheckRetry(delay));
      RunNone(s3);
      RunCons(s2, CheckRetry(delay), []);
      RunCons(s1, CheckFailed, [CheckRetry(delay)] + []);
      rest := [CheckFailed] + ([CheckRetry(delay)] + []);
    } else if attempt.Transient? {
      RunNone(Step(s1, CheckRetry(delay)));
      RunCons(s1, CheckRetry(delay), []);
      rest := [CheckRetry(delay)] + [];
    } else {
      RunNone(s1);
      rest := [];
    }
    RunCons(s, Dial(attempt), rest);
    rest := [Dial(attempt)] + rest;
  }

  function WriteSteps(s: State, soError: bool, delay: nat): seq<Action> {
    if s.phase != Connecting then [Writable(soError)]
    else if soError then [Writable(soError), CheckRetry(delay)]
    else if s.connect then [Writable(soError), CheckHandOver, HandOver]
    else [Writable(soError), CheckHandOver]
  }

  /** A whole call of handleWrite is a run of these steps. */
  lemma WriteIsRun(s: State, soError: bool, delay: nat)
    requires s.alive && s.doing == Idle && s.channel.Some? && Drawn(s, delay)
    ensures CanRun(s, WriteSteps(s, soError, delay))
    ensures Run(s, WriteSteps(s, soError, delay)) == AfterHandleWrite(s, soError, delay)
  {
    var s1 := Step(s, Writable(soError));
    var rest := [];
    if s.phase == Connecting {
      if soError {
        RunNone(Step(s1, CheckRetry(delay)));
        RunCons(s1, CheckRetry(delay), []);
        rest := [CheckRetry(delay)] + [];
      } else {
        var s2 := Step(s1, CheckHandOver);
        if s.connect {
          RunNone(Step(s2, HandOver));
          RunCons(s2, HandOver, []);
          rest := [HandOver] + [];
        } else {
          RunNone(s2);
        }
        RunCons(s1, CheckHandOver, rest);
        rest := [CheckHandOver] + rest;
      }
    } else {
      RunNone(s1);
    }
    RunCons(s, Writable(soError), rest);
    assert [Writable(soError)] + rest == WriteSteps(s, soError, delay);
  }

  // ---------- the connector ----------

  class TcpConnector {
    var phase: Phase
    var connect: bool
    var channel: Option<nat>
    var retryDelayMs: nat
    /** The descriptor that the kernel gives out next. */
    var nextFd: nat
    ghost var timers: nat
    ghost var starts: nat
    ghost var stops: nat
    ghost var closed: multiset<nat>
    ghost var handed: multiset<nat>
    ghost var retries: nat
    ghost var waits: seq<Wait>

    ghost function St(): State
      reads this
    {
      State(phase, connect, channel, retryDelayMs, Idle, timers, starts, stops, true, nextFd, closed, handed, retries,
            waits)
    }

    constructor ()
      ensures St() == Init()
    {
      phase, connect, channel, retryDelayMs, nextFd := Disconnected, false, None, INIT_RETRY_DELAY_MS, 0;
      timers, starts, stops, closed, handed, retries, waits := 0, 0, 0, multiset{}, multiset{}, 0, [];
    }

    method Start()
      modifies this
      ensures St() == Step(old(St()), Action.Start)
    {
      connect := true;
      starts := starts + 1;
    }

    method Stop()
      modifies this
      ensures St() == Step(old(St()), Action.Stop)
    {
      connect := false;
      stops := stops + 1;
    }

    method StartInLoop(attempt: Attempt, delayMs: nat)
      modifies this
      ensures St() == AfterStart(old(St()), attempt, delayMs)
    {
      if connect {
        Connect(attempt, delayMs);
      }
    }

    method StopInLoop()
      requires Enabled(St(), Action.StopInLoop) && (phase == Connecting ==> channel.Some?)
      modifies this
      ensures St() == Step(old(St()), Action.StopInLoop)
    {
      stops := stops - 1;
      if phase == Connecting {
        phase := Disconnected;
        var sockfd := RemoveAndResetChannel();
        Close(sockfd);
      }
    }

    method Close(fd: nat)
      modifies this`closed
      ensures St() == CloseFd(old(St()), fd)
    {
      closed := closed + multiset{fd};
    }

    method RemoveAndResetChannel() returns (sockfd: nat)
      requires channel.Some?
      modifies this`channel
      ensures sockfd == old(channel).value && channel == None
    {
      sockfd := channel.value;
      channel := None;
    }

    method Connect(attempt: Attempt, delayMs: nat)
      modifies this
      ensures St() == AfterConnect(old(St()), attempt, delayMs)
    {
      if attempt.NoSocket? {
        if connect {
          Retry(None, delayMs);
        }
      } else {
        DialSocket(attempt, delayMs);
      }
    }

    method OpenSocket() returns (sockfd: nat)
      modifies this`nextFd
      ensures sockfd == old(nextFd) && St() == old(St()).(opens := old(nextFd) + 1)
    {
      sockfd := nextFd;
      nextFd := nextFd + 1;
    }

    /** The part of connect behind a socket that could be created. */
    method DialSocket(attempt: Attempt, delayMs: nat)
      requires !attempt.NoSocket?
      modifies this
      ensures St() == AfterConnect(old(St()), attempt, delayMs)
    {
      var sockfd := OpenSocket();
      match attempt
      case InProgress =>
        phase := Connecting;
        channel := Some(sockfd);
      case Transient => Retry(Some(sockfd), delayMs);
      case Fatal => Close(sockfd);
    }

    /** Closes the descriptor, if there is one, and schedules the next attempt. */
    method Retry(sockfd: Option<nat>, delayMs: nat)
      modifies this
      ensures St() == AfterRetry(if sockfd.Some? then CloseFd(old(St()), sockfd.value) else old(St()), delayMs)
    {
      if sockfd.Some? {
        Close(sockfd.value);
      }
      phase := Disconnected;
      if connect {
        timers := timers + 1;
        waits := waits + [Wait(retries, delayMs)];
        retries := retries + 1;
        retryDelayMs := Min(retryDelayMs * 2, MAX_RETRY_DELAY_MS);
      }
    }

    method HandleWrite(soError: bool, delayMs: nat)
      requires channel.Some?
      modifies this
      ensures St() == AfterHandleWrite(old(St()), soError, delayMs)
    {
      if phase != Connecting { return; }
      var sockfd := RemoveAndResetChannel();
      if soError {
        Retry(Some(sockfd), delayMs);
      } else {
        phase := Connected;
        if connect {
          handed := handed + multiset{sockfd};
        } else {
          Close(sockfd);
        }
      }
    }

    method HandleError(delayMs: nat)
      requires channel.Some?
      modifies this
      ensures St() == AfterHandleWrite(old(St()), true, delayMs)
    {
      if phase != Connecting { return; }
      var sockfd := RemoveAndResetChannel();
      Retry(Some(sockfd), delayMs);
    }

    method Restart(attempt: Attempt, delayMs: nat)
      modifies this
      ensures St() == AfterStart(Restarted(old(St())), attempt, delayMs)
    {
      Reset();
      StartInLoop(attempt, delayMs);
    }

    method Reset()
      modifies this
      ensures St() == Restarted(old(St()))
    {
      phase := Disconnected;
      retryDelayMs, retries := INIT_RETRY_DELAY_MS, 0;
      connect := true;
    }

    /** The callback of a retry timer. */
    method OnRetryTimer(attempt: Attempt, delayMs: nat)
      requires timers > 0
      modifies this
      ensures var s := old(St()).(timers := old(timers) - 1);
              St() == if s.connect && s.phase == Disconnected then AfterStart(s, attempt, delayMs) else s
    {
      timers := timers - 1;
      if !connect || phase != Disconnected { return; }
      StartInLoop(attempt, delayMs);
    }
  }
}
