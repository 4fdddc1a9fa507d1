/** The event loop as a whole: functors and timers share one eventfd and one thread. The machine is the product of the
    two, with the length of the sleep, and its runs are all interleavings of the loop thread with the threads that
    queue functors and add or cancel timers. */
module EventLoop {
  import opened Bytes
  import Timers
  import Wakeup

  /** The loop has looked at the heap at one time, and sleeps for a length that counts from a later one: when it enters
      epoll_wait. */
  datatype Sleep = Sleep(from: int, length: int, entered: Option<int>)

  /** sleep is there from the look at the heap until epoll_wait returns. adding: another thread is inside runAfter or
      runEvery, which holds the timer lock over its push and its write to the eventfd. */
  datatype State = State(loop: Wakeup.State, timers: Timers.State, sleep: Option<Sleep>, adding: bool)

  datatype Action =
    | Functors(f: Wakeup.Action)       // a step with functors, of any thread
    | Add(t: Timers.Action)            // another thread, in runAfter or runEvery: the push
    | Announce                         // that thread: the write to the eventfd
    | Cancel(id: nat)                  // another thread
    | Own(t: Timers.Action)            // the loop thread, in processTimers or in a callback
    | Look(now: int, maxWaitMs: int, top: Option<nat>)
                                       // the loop thread, in getNextTimerTimeoutMs, with the top of the heap if any
    | Enter(now: int)                  // the loop thread: the call of epoll_wait

  function Init(clock: int): State {
    State(Wakeup.Init(), Timers.Init(clock), None, false)
  }

  predicate Adds(t: Timers.Action) {
    t.RunAfter? || t.RunEvery?
  }

  /** No timer is collected and still to run, or running. */
  predicate Settled(t: Timers.State) {
    t.batch == [] && t.current == []
  }

  /** The loop thread is inside epoll_wait. */
  predicate Asleep(s: State) {
    s.sleep.Some? && s.sleep.value.entered.Some?
  }

  /** Only the loop thread collects and runs timers, in its phase for that, which ends when the round is over; the lock
      is free for whoever needs it. */
  ghost predicate Enabled(s: State, a: Action) {
    match a
    case Functors(f) =>
      && Wakeup.Enabled(s.loop, f) && (f.PollReturns? ==> Asleep(s)) && (f.Swap? ==> Settled(s.timers))
    case Add(t) => !s.adding && Adds(t) && Timers.Enabled(s.timers, t)
    case Announce => s.adding
    case Cancel(_) => !s.adding
    case Own(t) =>
      && Timers.Enabled(s.timers, t) && s.loop.phase != Wakeup.Waiting && (t.Fire? || !s.adding)
      && (t.Collect? || t.Fire? || t.Finish? ==> s.loop.phase == Wakeup.InTimers)
    case Look(now, _, top) =>
      && s.loop.phase == Wakeup.Waiting && s.sleep.None? && !s.adding && s.timers.clock <= now
      && (if top.Some? then Earliest(s.timers, top.value) else s.timers.heap == {})
    case Enter(now) => s.sleep.Some? && s.sleep.value.entered.None? && s.timers.clock <= now
  }

  ghost predicate Earliest(t: Timers.State, id: nat) {
    && id in t.heap && id in t.tasks
    && forall x :: x in t.heap && x in t.tasks ==> t.tasks[id].nextRun <= t.tasks[x].nextRun
  }

  /** getNextTimerTimeoutMs, cut to maxWaitMs if that is not negative. */
  function TimeoutMs(t: Timers.State, now: int, maxWaitMs: int, top: Option<nat>): int {
    var ms := if top.Some? && top.value in t.tasks then Timers.PollTimeout(t.tasks[top.value].nextRun, now)
              else Timers.POLL_TIMEOUT_MS;
    if 0 <= maxWaitMs < ms then maxWaitMs else ms
  }

  ghost function Step(s: State, a: Action): State
    requires Enabled(s, a)
  {
    match a
    case Functors(f) => s.(loop := Wakeup.Step(s.loop, f), sleep := if f.PollReturns? then None else s.sleep)
    case Add(t) => s.(timers := Timers.Step(s.timers, t), adding := true)
    case Announce => s.(loop := Wakeup.Step(s.loop, Wakeup.Wake), adding := false)
    case Cancel(id) => s.(timers := Timers.Step(s.timers, Timers.Cancel(id)))
    case Own(t) => s.(timers := Timers.Step(s.timers, t))
    case Look(now, maxWaitMs, top) =>
      s.(timers := Timers.Step(s.timers, Timers.Tick(now)),
         sleep := Some(Sleep(now, TimeoutMs(s.timers, now, maxWaitMs, top) * Timers.NANOS_PER_MS, None)))
    case Enter(now) =>
      s.(timers := Timers.Step(s.timers, Timers.Tick(now)), sleep := Some(s.sleep.value.(entered := Some(now))))
  }

  ghost predicate CanRun(s: State, actions: seq<Action>)
    decreases |actions|
  {
    actions == [] || (Enabled(s, actions[0]) && CanRun(Step(s, actions[0]), actions[1..]))
  }

  ghost function Run(s: State, actions: seq<Action>): State
    requires CanRun(s, actions)
    decreases |actions|
  {
    if actions == [] then s else Run(Step(s, actions[0]), actions[1..])
  }

  // ---------- the invariant ----------

  /** Counted from the look, the sleep ends no later than the timer is due, or it has no length at all. */
  ghost predicate InTime(z: Sleep, t: Timers.Timer) {
    z.from + z.length <= t.nextRun || z.length == 0
  }

  /** No timer of the heap is slept over, except the one that is being added right now. */
  ghost predicate NoneSleptOver(s: State) {
    s.sleep.Some? ==>
      forall id :: id in s.timers.heap && id in s.timers.tasks && !(s.adding && id + 1 == s.timers.nextId) ==>
        InTime(s.sleep.value, s.timers.tasks[id])
  }

  ghost predicate Inv(s: State) {
    && Wakeup.Inv(s.loop) && Timers.Inv(s.timers)
    && (s.sleep.Some? ==> s.loop.phase == Wakeup.Waiting && s.sleep.value.from <= s.timers.clock)
    && (Asleep(s) ==> s.sleep.value.from <= s.sleep.value.entered.value)
    && (s.loop.phase != Wakeup.InTimers ==> Settled(s.timers))
    && (s.loop.counter == 0 ==> NoneSleptOver(s))
  }

  lemma InitInv(clock: int)
    ensures Inv(Init(clock))
  {
    Wakeup.InitInv();
    Timers.InitInv(clock);
  }

  lemma HeapInTasks(t: Timers.State)
    requires Timers.Inv(t)
    ensures forall id :: id in t.heap ==> id in t.tasks
  {
    forall id | id in t.heap ensures id in t.tasks {
      assert Timers.Placed(t, id);
    }
  }

  lemma LookInTime(t: Timers.State, now: int, maxWaitMs: int, top: nat, id: nat)
    requires Earliest(t, top) && id in t.heap && id in t.tasks
    ensures InTime(Sleep(now, TimeoutMs(t, now, maxWaitMs, Some(top)) * Timers.NANOS_PER_MS, None), t.tasks[id])
    ensures var ms := TimeoutMs(t, now, maxWaitMs, Some(top));
            || ms == maxWaitMs || ms == Timers.POLL_TIMEOUT_MS
            || t.tasks[top].nextRun < now + (ms + 1) * Timers.NANOS_PER_MS
  {
    Timers.PollNeverOversleeps(t.tasks[top].nextRun, now);
  }

  /** Without timers the sleep is as long as the caller allows, and at most ten seconds. */
  lemma LookIdle(t: Timers.State, now: int, maxWaitMs: int)
    ensures var ms := TimeoutMs(t, now, maxWaitMs, None);
            && 0 <= ms <= 10000 && (maxWaitMs >= 0 ==> ms <= maxWaitMs)
            && (ms == 10000 || ms == maxWaitMs)
  {
  }

  lemma LookInv(s: State, a: Action)
    requires Inv(s) && a.Look? && Enabled(s, a)
    ensures Inv(Step(s, a))
  {
    var s' := Step(s, a);
    Timers.TickInv(s.timers, a.now);
    forall id | id in s'.timers.heap && id in s'.timers.tasks ensures InTime(s'.sleep.value, s'.timers.tasks[id]) {
      LookInTime(s.timers, a.now, a.maxWaitMs, a.top.value, id);
    }
  }

  /** A timer that is added while the loop sleeps is the one that is being added. */
  lemma AddInv(s: State, a: Action)
    requires Inv(s) && a.Add? && Enabled(s, a)
    ensures Inv(Step(s, a))
  {
    Timers.StepInv(s.timers, a.t);
  }

  lemma FunctorsInv(s: State, a: Action)
    requires Inv(s) && a.Functors? && Enabled(s, a)
    ensures Inv(Step(s, a))
  {
    Wakeup.StepInv(s.loop, a.f);
  }

  lemma StepInv(s: State, a: Action)
    requires Inv(s) && Enabled(s, a)
    ensures Inv(Step(s, a))
  {
    match a
    case Functors(_) => FunctorsInv(s, a);
    case Add(_) => AddInv(s, a);
    case Announce => Wakeup.StepInv(s.loop, Wakeup.Wake);
    case Cancel(id) => Timers.StepInv(s.timers, Timers.Cancel(id));
    case Own(t) => Timers.StepInv(s.timers, t);
    case Look(_, _, _) => LookInv(s, a);
    case Enter(now) => Timers.TickInv(s.timers, now);
  }

  lemma {:induction false} RunInv(s: State, actions: seq<Action>)
    requires Inv(s) && CanRun(s, actions)
    ensures Inv(Run(s, actions))
    decreases |actions|
  {
    if actions != [] {
      StepInv(s, actions[0]);
      RunInv(Step(s, actions[0]), actions[1..]);
    }
  }

  /** The sleep ends after a timer is due by no more than the loop took from its look at the heap to epoll_wait. */
  ghost predicate LateByTheDelay(z: Sleep, t: Timers.Timer)
    requires z.entered.Some?
  {
    z.length > 0 ==> z.entered.value + z.length <= t.nextRun + (z.entered.value - z.from)
  }

  /** Over every interleaving: when the loop is in epoll_wait with nothing to read on the eventfd and no thread is
      inside runAfter or runEvery, the sleep passes no timer of the heap by more than the delay between the look and
      epoll_wait, whoever added it and whenever, no timer is collected and still to run, and every functor that another
      thread has announced has run. */
  lemma NothingIsLate(clock: int, actions: seq<Action>)
    requires CanRun(Init(clock), actions)
    ensures var s := Run(Init(clock), actions);
            Asleep(s) && s.loop.counter == 0 && !s.adding ==>
              && s.sleep.value.from <= s.sleep.value.entered.value
              && (forall id :: id in s.timers.heap ==>
                    id in s.timers.tasks && LateByTheDelay(s.sleep.value, s.timers.tasks[id]))
              && Settled(s.timers) && s.loop.phase == Wakeup.Waiting && s.loop.batch == []
              && (forall f :: f in s.loop.queued && Wakeup.Announced(s.loop, f) ==> f in s.loop.ran)
  {
    InitInv(clock);
    RunInv(Init(clock), actions);
    var s := Run(Init(clock), actions);
    HeapInTasks(s.timers);
    if s.sleep.Some? && s.loop.counter == 0 {
      AsleepRan(s.loop);
    }
  }

  lemma AsleepRan(s: Wakeup.State)
    requires Wakeup.Inv(s) && s.phase == Wakeup.Waiting && s.counter == 0
    ensures s.batch == []
    ensures forall f :: f in s.queued && Wakeup.Announced(s, f) ==> f in s.ran
  {
    forall f | f in s.queued && Wakeup.Announced(s, f) ensures f in s.ran {
      assert s.batch == [];
    }
  }

  // ---------- what is known of functors and timers alone holds of the loop ----------

  /** What an action does to the functors, and what to the timers. */
  function FunctorPart(a: Action): seq<Wakeup.Action> {
    match a
    case Functors(f) => [f]
    case Announce => [Wakeup.Wake]
    case _ => []
  }

  function TimerPart(a: Action): seq<Timers.Action> {
    match a
    case Add(t) => [t]
    case Cancel(id) => [Timers.Cancel(id)]
    case Own(t) => [t]
    case Look(now, _, _) => [Timers.Tick(now)]
    case Enter(now) => [Timers.Tick(now)]
    case _ => []
  }

  function FunctorParts(actions: seq<Action>): seq<Wakeup.Action> {
    if actions == [] then [] else FunctorPart(actions[0]) + FunctorParts(actions[1..])
  }

  function TimerParts(actions: seq<Action>): seq<Timers.Action> {
    if actions == [] then [] else TimerPart(actions[0]) + TimerParts(actions[1..])
  }

  lemma StepParts(s: State, a: Action)
    requires Enabled(s, a)
    ensures Wakeup.CanRun(s.loop, FunctorPart(a)) && Wakeup.Run(s.loop, FunctorPart(a)) == Step(s, a).loop
    ensures Timers.CanRun(s.timers, TimerPart(a)) && Timers.Run(s.timers, TimerPart(a)) == Step(s, a).timers
  {
    if FunctorPart(a) != [] {
      Wakeup.RunOne(s.loop, FunctorPart(a)[0]);
    }
    if TimerPart(a) != [] {
      Timers.RunOne(s.timers, TimerPart(a)[0]);
    }
  }

  /** In every run of the loop the functors take part in a run of their own, and so do the timers. What is proved of all
      runs of Wakeup and of Timers holds of the loop: functors run in order, once, and timers fire on their plans. */
  lemma {:induction false} PartsRun(s: State, actions: seq<Action>)
    requires CanRun(s, actions)
    ensures var s' := Run(s, actions);
            && Wakeup.CanRun(s.loop, FunctorParts(actions)) && Wakeup.Run(s.loop, FunctorParts(actions)) == s'.loop
            && Timers.CanRun(s.timers, TimerParts(actions)) && Timers.Run(s.timers, TimerParts(actions)) == s'.timers
    decreases |actions|
  {
    if actions != [] {
      var a := actions[0];
      StepParts(s, a);
      PartsRun(Step(s, a), actions[1..]);
      Wakeup.RunConcat(s.loop, FunctorPart(a), FunctorParts(actions[1..]));
      Timers.RunConcat(s.timers, TimerPart(a), TimerParts(actions[1..]));
    }
  }

  /** The step after which the loop looks, sleeps or is awake, and a thread is inside runAfter or runEvery or not. */
  lemma SleepsAndAdds(s: State, a: Action)
    requires Enabled(s, a)
    ensures var s' := Step(s, a);
            && (s'.sleep.Some? <==> a.Look? || (s.sleep.Some? && a != Functors(Wakeup.PollReturns)))
            && (Asleep(s') <==> a.Enter? || (Asleep(s) && a != Functors(Wakeup.PollReturns)))
            && (a.Enter? ==> s'.sleep.value.entered == Some(a.now))
            && (s'.adding <==> a.Add? || (s.adding && !a.Announce?))
  {
  }
}
