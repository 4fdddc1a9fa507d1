/** The timer half of the event loop: one-shot and periodic timers, cancellation through shared flags,
    and rounds that collect the expired timers under a lock and run them without it. Callbacks and other
    threads may add and cancel timers between any two steps. */
module Timers {
  import opened Bytes

  const NANOS_PER_MS: int := 1_000_000
  const POLL_TIMEOUT_MS: int := 10000

  /** Times are in nanoseconds of the steady clock. */
  datatype Timer = Timer(nextRun: int, interval: int)

  /** One call of a callback: of which timer, its how manyth (from 0), for which due time, and when. */
  datatype Firing = Firing(id: nat, k: nat, due: int, at: int)

  /** What a timer was created with. */
  datatype Plan = Plan(first: int, interval: int)

  /** tasks are the live timers: those queued in heap, those in batch, collected but yet to run, and the
      one in current, whose callback is running. tracked are the keys of timerFlags_, and cancelled the
      flags that have been set. clock is the latest reading of the steady clock, which never goes back.
      plans, fired and log are history: what the timers were created with, how often each has fired, and the
      single firings. */
  datatype State = State(
    tasks: map<nat, Timer>, heap: set<nat>, batch: seq<nat>, current: seq<nat>, tracked: set<nat>, cancelled: set<nat>,
    nextId: nat, clock: int, plans: map<nat, Plan>, fired: multiset<nat>, log: seq<Firing>)

  function Init(clock: int): State {
    State(map[], {}, [], [], {}, {}, 1, clock, map[], multiset{}, [])
  }

  /** Whole milliseconds, in nanoseconds: the duration_cast of both scheduling calls. */
  function WholeMs(seconds: real): int {
    (seconds * 1000.0).Floor * NANOS_PER_MS
  }

  function DelayOf(seconds: real): int {
    if seconds < 0.0 then 0 else WholeMs(seconds)
  }

  function IntervalOf(seconds: real): int {
    if seconds <= 0.0 then WholeMs(0.001) else WholeMs(seconds)
  }

  datatype Action =
    | RunAfter(now: int, seconds: real)
    | RunEvery(now: int, seconds: real)
    | Cancel(id: nat)
    | Collect(now: int, order: seq<nat>)  // processTimers under the lock; order in which the heap yields
    | Fire(now: int)                      // the callback of the next collected timer starts
    | Finish                              // it returns; a periodic timer goes back into the heap
    | Tick(now: int)                      // the clock is read for another purpose

  function Add(s: State, first: int, interval: int): State {
    var id := s.nextId;
    s.(tasks := s.tasks[id := Timer(first, interval)], heap := s.heap + {id}, tracked := s.tracked + {id},
       nextId := id + 1, plans := s.plans[id := Plan(first, interval)])
  }

  function Due(s: State, now: int): set<nat> {
    set id | id in s.heap && id in s.tasks && s.tasks[id].nextRun <= now
  }

  /** order lists the due timers, each once, earliest first. */
  ghost predicate HeapOrder(s: State, now: int, order: seq<nat>) {
    && NoRepeats(order)
    && (forall id :: id in order <==> id in Due(s, now))
    && (forall i, j :: 0 <= i < j < |order| ==>
          order[i] in s.tasks && order[j] in s.tasks && s.tasks[order[i]].nextRun <= s.tasks[order[j]].nextRun)
  }

  /** The timers to run, in order: those that have not been cancelled. */
  function Live(cancelled: set<nat>, order: seq<nat>): seq<nat> {
    if order == [] then []
    else (if order[0] in cancelled then [] else [order[0]]) + Live(cancelled, order[1..])
  }

  ghost predicate Enabled(s: State, a: Action) {
    match a
    case RunAfter(now, _) => s.clock <= now
    case RunEvery(now, _) => s.clock <= now
    case Cancel(_) => true
    case Collect(now, order) => s.clock <= now && s.batch == [] && s.current == [] && HeapOrder(s, now, order)
    case Fire(now) => s.clock <= now && s.batch != [] && s.current == [] && s.batch[0] in s.tasks
    case Finish => |s.current| == 1 && s.current[0] in s.tasks
    case Tick(now) => s.clock <= now
  }

  /** Under the lock: the due timers leave the heap, the cancelled ones for good; the flags of those and of
      the one-shot timers are forgotten. */
  function AfterCollect(s: State, now: int, order: seq<nat>): State {
    var due := Due(s, now);
    var gone := set id | id in due && (id in s.cancelled || s.tasks[id].interval == 0);
    s.(tasks := s.tasks - (due * s.cancelled), heap := s.heap - due, tracked := s.tracked - gone,
       batch := Live(s.cancelled, order), clock := now)
  }

  function AfterFire(s: State, now: int): State
    requires s.batch != [] && s.batch[0] in s.tasks
  {
    var id := s.batch[0];
    s.(batch := s.batch[1..], current := [id], clock := now, fired := s.fired + multiset{id},
       log := s.log + [Firing(id, s.fired[id], s.tasks[id].nextRun, now)])
  }

  function AfterFinish(s: State): State
    requires s.current != [] && s.current[0] in s.tasks
  {
    var id := s.current[0];
    var t := s.tasks[id];
    if t.interval > 0 then
      s.(current := [], heap := s.heap + {id}, tasks := s.tasks[id := t.(nextRun := t.nextRun + t.interval)])
    else
      s.(current := [], tasks := s.tasks - {id})
  }

  function AfterCancel(s: State, id: nat): State {
    if id in s.tracked then s.(cancelled := s.cancelled + {id}) else s
  }

  ghost function Step(s: State, a: Action): State
    requires Enabled(s, a)
  {
    match a
    case RunAfter(now, seconds) => Add(s, now + DelayOf(seconds), 0).(clock := now)
    case RunEvery(now, seconds) => Add(s, now + IntervalOf(seconds), IntervalOf(seconds)).(clock := now)
    case Cancel(id) => AfterCancel(s, id)
    case Collect(now, order) => AfterCollect(s, now, order)
    case Fire(now) => AfterFire(s, now)
    case Finish => AfterFinish(s)
    case Tick(now) => s.(clock := now)
  }

  ghost predicate CanRun(s: State, actions: seq<Action>)
    decreases |actions|
  {
    actions == [] || (Enabled(s, actions[0]) && CanRun(Step(s, actions[0]), actions[1..]))
  }

  ghost function Run(s: State, actions: seq<Action>): State
    requires CanRun(s, actions)
    decreases |actions|
  {
    if actions == [] then s else Run(Step(s, actions[0]), actions[1..])
  }

  // ---------- the invariant ----------

  /** The due time of the k-th firing, counted from 0. */
  function DueTime(p: Plan, k: nat): int {
    if k == 0 then p.first else DueTime(p, k - 1) + p.interval
  }

  /** t waits for the k-th firing of its plan; a one-shot timer has only one. */
  ghost predicate OnPlan(t: Timer, p: Plan, k: nat) {
    && t.interval == p.interval >= 0
    && (t.interval == 0 ==> k == 0) && t.nextRun == DueTime(p, k)
  }

  ghost predicate NoRepeats(ids: seq<nat>) {
    forall i, j :: 0 <= i < j < |ids| ==> ids[i] != ids[j]
  }

  /** A live timer is in one place, and timerFlags_ tracks exactly those that are in the heap or will be again. */
  ghost predicate Placed(s: State, id: nat) {
    && (id in s.tasks <==> id in s.heap || id in s.batch || id in s.current)
    && (id in s.heap ==> id !in s.batch && id !in s.current)
    && (id in s.batch ==> id !in s.current)
    && (id in s.tracked <==> id in s.tasks && (id in s.heap || s.tasks[id].interval > 0))
    && (id in s.plans ==> id < s.nextId)
  }

  /** A live timer waits for the firing that is next on its plan, or has just had it. */
  ghost predicate Scheduled(s: State, id: nat) {
    && (id in s.tasks ==>
          && id in s.plans
          && (if id in s.current then s.fired[id] > 0 && OnPlan(s.tasks[id], s.plans[id], s.fired[id] - 1)
              else OnPlan(s.tasks[id], s.plans[id], s.fired[id]))
          && (id in s.batch ==> s.tasks[id].nextRun <= s.clock))
    && (id in s.fired ==> id in s.plans && (s.plans[id].interval == 0 ==> s.fired[id] == 1))
  }

  /** The i-th firing was due by its timer's plan and not early. */
  ghost predicate Recorded(s: State, i: nat) {
    i < |s.log| ==>
      var f := s.log[i];
      && f.id in s.plans && f.k < s.fired[f.id]
      && f.due == DueTime(s.plans[f.id], f.k) <= f.at
  }

  /** Later firings of a timer have higher numbers. */
  ghost predicate Counted(s: State, i: nat, j: nat) {
    i < j < |s.log| && s.log[i].id == s.log[j].id ==> s.log[i].k < s.log[j].k
  }

  ghost predicate Inv(s: State) {
    && |s.current| <= 1 && NoRepeats(s.batch)
    && (forall id: nat :: Placed(s, id))
    && (forall id: nat :: Scheduled(s, id))
    && (forall i: nat :: Recorded(s, i))
    && (forall i: nat, j: nat :: Counted(s, i, j))
  }

  lemma InitInv(clock: int)
    ensures Inv(Init(clock))
  {
  }

  lemma AddInv(s: State, first: int, interval: int, now: int)
    requires Inv(s) && interval >= 0 && s.clock <= now
    ensures Inv(Add(s, first, interval).(clock := now))
  {
    var s' := Add(s, first, interval).(clock := now);
    assert Placed(s, s.nextId) && Scheduled(s, s.nextId);
    forall id: nat ensures Placed(s', id) && Scheduled(s', id) {
      assert Placed(s, id) && Scheduled(s, id);
    }
    forall i: nat ensures Recorded(s', i) {
      assert Recorded(s, i);
    }
    forall i: nat, j: nat ensures Counted(s', i, j) {
      assert Counted(s, i, j);
    }
  }

  lemma CancelInv(s: State, id: nat)
    requires Inv(s)
    ensures Inv(AfterCancel(s, id))
  {
    var s' := AfterCancel(s, id);
    forall x: nat ensures Placed(s', x) && Scheduled(s', x) && Recorded(s', x) {
      assert Placed(s, x) && Scheduled(s, x) && Recorded(s, x);
    }
    forall i: nat, j: nat ensures Counted(s', i, j) {
      assert Counted(s, i, j);
    }
  }

  lemma {:induction false} LiveHas(cancelled: set<nat>, order: seq<nat>)
    requires NoRepeats(order)
    ensures NoRepeats(Live(cancelled, order))
    ensures forall id :: id in Live(cancelled, order) <==> id in order && id !in cancelled
    decreases |order|
  {
    if order != [] {
      LiveHas(cancelled, order[1..]);
      assert order == [order[0]] + order[1..];
      assert order[0] !in order[1..];
    }
  }

  lemma CollectInv(s: State, now: int, order: seq<nat>)
    requires Inv(s) && Enabled(s, Collect(now, order))
    ensures Inv(AfterCollect(s, now, order))
  {
    LiveHas(s.cancelled, order);
    var s' := AfterCollect(s, now, order);
    forall id: nat ensures Placed(s', id) && Scheduled(s', id) && Recorded(s', id) {
      assert Placed(s, id) && Scheduled(s, id) && Recorded(s, id);
    }
    forall i: nat, j: nat ensures Counted(s', i, j) {
      assert Counted(s, i, j);
    }
  }

  lemma BatchSplit(batch: seq<nat>)
    requires NoRepeats(batch) && batch != []
    ensures NoRepeats(batch[1..]) && batch[0] !in batch[1..]
    ensures forall id :: id in batch <==> id == batch[0] || id in batch[1..]
  {
    assert batch == [batch[0]] + batch[1..];
  }

  lemma FireInv(s: State, now: int)
    requires Inv(s) && Enabled(s, Fire(now))
    ensures Inv(AfterFire(s, now))
  {
    var s' := AfterFire(s, now);
    BatchSplit(s.batch);
    assert Placed(s, s.batch[0]) && Scheduled(s, s.batch[0]);
    forall id: nat ensures Placed(s', id) && Scheduled(s', id) {
      assert Placed(s, id) && Scheduled(s, id);
    }
    FireHistory(s, now);
  }

  lemma FireHistory(s: State, now: int)
    requires Inv(s) && Enabled(s, Fire(now))
    ensures var s' := AfterFire(s, now);
            (forall i: nat :: Recorded(s', i)) && (forall i: nat, j: nat :: Counted(s', i, j))
  {
    var s' := AfterFire(s, now);
    assert s.batch[0] in s.batch && Placed(s, s.batch[0]) && Scheduled(s, s.batch[0]);
    forall i: nat ensures Recorded(s', i) {
      assert Recorded(s, i);
    }
    forall i: nat, j: nat ensures Counted(s', i, j) {
      assert Counted(s, i, j) && Recorded(s, i);
    }
  }

  /** There is no drift: the k-th due time is k intervals after the first, however late the callbacks run. */
  lemma {:induction false} NoDrift(p: Plan, k: nat)
    ensures DueTime(p, k) == p.first + k * p.interval
    decreases k
  {
    if k > 0 {
      NoDrift(p, k - 1);
      assert k * p.interval == (k - 1) * p.interval + p.interval;
    }
  }

  lemma FinishInv(s: State)
    requires Inv(s) && Enabled(s, Finish)
    ensures Inv(AfterFinish(s))
  {
    var s' := AfterFinish(s);
    var id := s.current[0];
    assert id in s.current && Placed(s, id) && Scheduled(s, id);
    assert DueTime(s.plans[id], s.fired[id]) == DueTime(s.plans[id], s.fired[id] - 1) + s.plans[id].interval;
    forall x: nat ensures Placed(s', x) && Scheduled(s', x) && Recorded(s', x) {
      assert Placed(s, x) && Scheduled(s, x) && Recorded(s, x);
    }
    forall i: nat, j: nat ensures Counted(s', i, j) {
      assert Counted(s, i, j);
    }
  }

  lemma TickInv(s: State, now: int)
    requires Inv(s) && s.clock <= now
    ensures Inv(s.(clock := now))
  {
    var s' := s.(clock := now);
    forall id: nat ensures Placed(s', id) && Scheduled(s', id) && Recorded(s', id) {
      assert Placed(s, id) && Scheduled(s, id) && Recorded(s, id);
    }
    forall i: nat, j: nat ensures Counted(s', i, j) {
      assert Counted(s, i, j);
    }
  }

  lemma IntervalPositive(seconds: real)
    ensures IntervalOf(seconds) >= 0
  {
  }

  /** Every step of every thread keeps the invariant. */
  lemma StepInv(s: State, a: Action)
    requires Inv(s) && Enabled(s, a)
    ensures Inv(Step(s, a))
  {
    match a
    case RunAfter(now, seconds) => AddInv(s, now + DelayOf(seconds), 0, now);
    case RunEvery(now, seconds) =>
      IntervalPositive(seconds);
      AddInv(s, now + IntervalOf(seconds), IntervalOf(seconds), now);
    case Cancel(id) => CancelInv(s, id);
    case Collect(now, order) => CollectInv(s, now, order);
    case Fire(now) => FireInv(s, now);
    case Finish => FinishInv(s);
    case Tick(now) => TickInv(s, now);
  }

  lemma {:induction false} RunInv(s: State, actions: seq<Action>)
    requires Inv(s) && CanRun(s, actions)
    ensures Inv(Run(s, actions))
    decreases |actions|
  {
    if actions != [] {
      StepInv(s, actions[0]);
      RunInv(Step(s, actions[0]), actions[1..]);
    }
  }

  // ---------- what every run guarantees ----------

  /** Between rounds the keys of timerFlags_ are exactly the timers in the heap. */
  lemma TrackedBetweenRounds(s: State)
    requires Inv(s) && s.batch == [] && s.current == []
    ensures s.tracked == s.heap == s.tasks.Keys
  {
    forall id: nat ensures (id in s.tracked <==> id in s.heap) && (id in s.heap <==> id in s.tasks) {
      assert Placed(s, id);
    }
  }

  /** Over every run from the start, in every interleaving of scheduling calls, cancellations and rounds:
      a timer that is not periodic fires at most once; no firing is early; the k-th firing of a timer is due
      k intervals after its first due time; and no two firings are the same one. */
  lemma FiringsOnPlan(clock: int, actions: seq<Action>)
    requires CanRun(Init(clock), actions)
    ensures var s := Run(Init(clock), actions);
            && (forall id :: id in s.plans && s.plans[id].interval == 0 ==> s.fired[id] <= 1)
            && (forall i :: 0 <= i < |s.log| ==>
                  var f := s.log[i];
                  && f.id in s.plans && f.k < s.fired[f.id]
                  && f.at >= f.due == s.plans[f.id].first + f.k * s.plans[f.id].interval)
            && (forall i, j :: 0 <= i < j < |s.log| && s.log[i].id == s.log[j].id ==> s.log[i].k < s.log[j].k)
  {
    InitInv(clock);
    RunInv(Init(clock), actions);
    var s := Run(Init(clock), actions);
    forall id | id in s.plans && s.plans[id].interval == 0 ensures s.fired[id] <= 1 {
      assert Scheduled(s, id);
    }
    forall i | 0 <= i < |s.log|
      ensures var f := s.log[i];
              && f.id in s.plans && f.k < s.fired[f.id]
              && f.at >= f.due == s.plans[f.id].first + f.k * s.plans[f.id].interval
    {
      assert Recorded(s, i);
      NoDrift(s.plans[s.log[i].id], s.log[i].k);
    }
    forall i, j | 0 <= i < j < |s.log| && s.log[i].id == s.log[j].id ensures s.log[i].k < s.log[j].k {
      assert Counted(s, i, j);
    }
  }

  // ---------- what goes on ----------

  /** A timer that has not been cancelled and has a firing to come is live. */
  ghost predicate GoesOn(s: State, id: nat) {
    id in s.plans && id !in s.cancelled && (s.plans[id].interval > 0 || s.fired[id] == 0) ==> id in s.tasks
  }

  lemma StepGoesOn(s: State, a: Action, id: nat)
    requires Inv(s) && Enabled(s, a) && GoesOn(s, id)
    ensures GoesOn(Step(s, a), id)
  {
    assert Placed(s, id) && Scheduled(s, id);
  }

  lemma {:induction false} RunGoesOn(s: State, actions: seq<Action>, id: nat)
    requires Inv(s) && CanRun(s, actions) && GoesOn(s, id)
    ensures GoesOn(Run(s, actions), id)
    decreases |actions|
  {
    if actions != [] {
      StepInv(s, actions[0]);
      StepGoesOn(s, actions[0], id);
      RunGoesOn(Step(s, actions[0]), actions[1..], id);
    }
  }

  /** Over every run: a timer that was not cancelled and is periodic, or has not fired, is still there, and between
      rounds it waits in the heap for the firing that is next on its plan. A one-shot timer that has not fired waits in
      the heap or in the batch. */
  lemma TimersGoOn(clock: int, actions: seq<Action>, id: nat)
    requires CanRun(Init(clock), actions)
    requires var s := Run(Init(clock), actions);
             id in s.plans && id !in s.cancelled && (s.plans[id].interval > 0 || s.fired[id] == 0)
    ensures var s := Run(Init(clock), actions);
            && id in s.tasks
            && (s.batch == [] && s.current == [] ==>
                  id in s.heap && s.tasks[id].nextRun == s.plans[id].first + s.fired[id] * s.plans[id].interval)
            && (s.plans[id].interval == 0 ==> id in s.heap || id in s.batch)
  {
    InitInv(clock);
    RunInv(Init(clock), actions);
    RunGoesOn(Init(clock), actions, id);
    var s := Run(Init(clock), actions);
    assert Placed(s, id) && Scheduled(s, id);
    NoDrift(s.plans[id], s.fired[id]);
  }

  /** The timer has fired more than n times, or is collected to fire. */
  ghost predicate Promised(s: State, id: nat, n: nat) {
    s.fired[id] > n || id in s.batch
  }

  lemma {:induction false} RunPromised(s: State, actions: seq<Action>, id: nat, n: nat)
    requires Inv(s) && CanRun(s, actions) && Promised(s, id, n) && s.fired[id] >= n
    ensures Promised(Run(s, actions), id, n)
    decreases |actions|
  {
    if actions != [] {
      var a := actions[0];
      if a.Fire? {
        BatchSplit(s.batch);
      }
      StepInv(s, a);
      RunPromised(Step(s, a), actions[1..], id, n);
    }
  }

  /** A timer that is due and not cancelled when a round collects has fired once more when the round is over, whatever
      the callbacks and the other threads do in between. */
  lemma DueFires(s: State, now: int, order: seq<nat>, round: seq<Action>, id: nat)
    requires Inv(s) && Enabled(s, Collect(now, order)) && CanRun(Step(s, Collect(now, order)), round)
    requires id in s.heap && id in s.tasks && id !in s.cancelled && s.tasks[id].nextRun <= now
    requires Run(Step(s, Collect(now, order)), round).batch == []
    ensures Run(Step(s, Collect(now, order)), round).fired[id] > s.fired[id]
  {
    assert Placed(s, id);
    LiveHas(s.cancelled, order);
    StepInv(s, Collect(now, order));
    RunPromised(Step(s, Collect(now, order)), round, id, s.fired[id]);
  }

  /** Only what the loop thread does when a round is under way. */
  ghost predicate OnlyRound(actions: seq<Action>) {
    forall i :: 0 <= i < |actions| ==> actions[i].Fire? || actions[i].Finish?
  }

  /** A round that has collected comes to its end by firing and finishing alone. */
  lemma {:induction false} RoundEnds(s: State, now: int) returns (actions: seq<Action>)
    requires Inv(s) && s.clock <= now
    ensures CanRun(s, actions) && OnlyRound(actions)
    ensures Run(s, actions).batch == [] && Run(s, actions).current == []
    decreases |s.batch|, |s.current|
  {
    if s.current != [] {
      assert Placed(s, s.current[0]);
      StepInv(s, Finish);
      actions := RoundEnds(Step(s, Finish), now);
      StepThen(s, Finish, actions);
      actions := [Finish] + actions;
    } else if s.batch != [] {
      assert Placed(s, s.batch[0]);
      StepInv(s, Fire(now));
      actions := RoundEnds(Step(s, Fire(now)), now);
      StepThen(s, Fire(now), actions);
      actions := [Fire(now)] + actions;
    } else {
      actions := [];
      assert Run(s, []) == s;
    }
  }

  lemma StepThen(s: State, a: Action, actions: seq<Action>)
    requires Enabled(s, a) && CanRun(Step(s, a), actions)
    ensures CanRun(s, [a] + actions) && Run(s, [a] + actions) == Run(Step(s, a), actions)
  {
    assert ([a] + actions)[1..] == actions;
  }

  /** The timers of the firings. */
  function Logged(log: seq<Firing>): multiset<nat> {
    if log == [] then multiset{} else Logged(log[..|log| - 1]) + multiset{log[|log| - 1].id}
  }

  /** No firing was after now, nor after a later one. */
  ghost predicate InOrder(log: seq<Firing>, clock: int) {
    && (forall i :: 0 <= i < |log| ==> log[i].at <= clock)
    && (forall i, j :: 0 <= i <= j < |log| ==> log[i].at <= log[j].at)
  }

  lemma LoggedSnoc(log: seq<Firing>, f: Firing, clock: int)
    requires InOrder(log, clock) && clock <= f.at
    ensures Logged(log + [f]) == Logged(log) + multiset{f.id} && InOrder(log + [f], f.at)
  {
    assert (log + [f])[..|log|] == log;
  }

  lemma StepLogged(s: State, a: Action)
    requires Enabled(s, a) && s.fired == Logged(s.log) && InOrder(s.log, s.clock)
    ensures var s' := Step(s, a);
            s'.fired == Logged(s'.log) && InOrder(s'.log, s'.clock)
  {
    if a.Fire? {
      LoggedSnoc(s.log, Step(s, a).log[|s.log|], s.clock);
    } else {
      QuietLogged(s, a);
    }
  }

  lemma QuietLogged(s: State, a: Action)
    requires Enabled(s, a) && !a.Fire?
    ensures Step(s, a).fired == s.fired && Step(s, a).log == s.log && Step(s, a).clock >= s.clock
  {
  }

  lemma {:induction false} RunLogged(s: State, actions: seq<Action>)
    requires CanRun(s, actions) && s.fired == Logged(s.log) && InOrder(s.log, s.clock)
    ensures var s' := Run(s, actions);
            s'.fired == Logged(s'.log) && InOrder(s'.log, s'.clock)
    decreases |actions|
  {
    if actions != [] {
      StepLogged(s, actions[0]);
      RunLogged(Step(s, actions[0]), actions[1..]);
    }
  }

  /** In every run every firing is recorded, once, and the record is in the order of time. */
  lemma FiringsRecorded(clock: int, actions: seq<Action>)
    requires CanRun(Init(clock), actions)
    ensures var s := Run(Init(clock), actions);
            s.fired == Logged(s.log) && InOrder(s.log, s.clock)
  {
    RunLogged(Init(clock), actions);
  }

  // ---------- what the calls ask for ----------

  /** The calls of runAfter and runEvery, in order. */
  function Requests(actions: seq<Action>): seq<Action> {
    if actions == [] then []
    else (if actions[0].RunAfter? || actions[0].RunEvery? then [actions[0]] else []) + Requests(actions[1..])
  }

  /** d nanoseconds are the seconds given, short of them by less than a millisecond. */
  ghost predicate Within(d: int, seconds: real) {
    d as real <= seconds * 1000000000.0 < d as real + 1000000.0
  }

  /** What the call asks for: runAfter one firing after that many seconds, none if they are negative; runEvery a firing
      every so many seconds, or every millisecond if they are not positive, the first after one interval. */
  ghost predicate Grants(a: Action, p: Plan) {
    match a
    case RunAfter(now, seconds) => p.interval == 0 && Within(p.first - now, if seconds < 0.0 then 0.0 else seconds)
    case RunEvery(now, seconds) =>
      && p.first == now + p.interval
      && (if seconds <= 0.0 then p.interval == 1000000 else Within(p.interval, seconds))
    case _ => false
  }

  lemma WholeMsWithin(seconds: real)
    ensures Within(WholeMs(seconds), seconds)
  {
    var n := (seconds * 1000.0).Floor;
    assert n as real <= seconds * 1000.0 < n as real + 1.0;
    assert WholeMs(seconds) as real == n as real * 1000000.0;
  }

  lemma AddGrants(s: State, a: Action)
    requires Enabled(s, a) && (a.RunAfter? || a.RunEvery?)
    ensures var s' := Step(s, a);
            && s'.nextId == s.nextId + 1 && s.nextId in s'.plans && Grants(a, s'.plans[s.nextId])
            && s'.plans == s.plans[s.nextId := s'.plans[s.nextId]]
  {
    WholeMsWithin(a.seconds);
    WholeMsWithin(0.0);
    assert WholeMs(0.001) == 1000000;
  }

  /** The i-th call has got the i-th id from the given one on, and the plan it asked for. */
  ghost predicate GrantedAt(plans: map<nat, Plan>, from: nat, calls: seq<Action>, i: nat) {
    i < |calls| ==> from + i in plans && Grants(calls[i], plans[from + i])
  }

  lemma GrantedLater(plans: map<nat, Plan>, from: nat, next: nat, a: Action, more: seq<Action>)
    requires next == from + 1 && from in plans && Grants(a, plans[from])
    requires forall i: nat :: GrantedAt(plans, next, more, i)
    ensures forall i: nat :: GrantedAt(plans, from, [a] + more, i)
  {
    forall i: nat ensures GrantedAt(plans, from, [a] + more, i) {
      if i > 0 {
        assert GrantedAt(plans, next, more, i - 1);
      }
    }
  }

  lemma {:induction false} RunGrants(s: State, actions: seq<Action>)
    requires CanRun(s, actions)
    ensures var s' := Run(s, actions);
            && s'.nextId == s.nextId + |Requests(actions)|
            && (forall i: nat :: GrantedAt(s'.plans, s.nextId, Requests(actions), i))
            && (forall id :: id in s.plans && id < s.nextId ==> id in s'.plans && s'.plans[id] == s.plans[id])
            && (forall id :: id in s'.plans ==> id in s.plans || s.nextId <= id < s'.nextId)
    decreases |actions|
  {
    if actions != [] {
      var a, s1 := actions[0], Step(s, actions[0]);
      RunGrants(s1, actions[1..]);
      if a.RunAfter? || a.RunEvery? {
        AddGrants(s, a);
        GrantedLater(Run(s, actions).plans, s.nextId, s1.nextId, a, Requests(actions[1..]));
      } else {
        assert [] + Requests(actions[1..]) == Requests(actions[1..]);
      }
    }
  }

  /** Over every run: the calls get the ids from 1 on in turn, each timer has the plan that its call asked for, and
      there are no others. */
  lemma PlansGranted(clock: int, actions: seq<Action>)
    requires CanRun(Init(clock), actions)
    ensures var s, calls := Run(Init(clock), actions), Requests(actions);
            && (forall id :: id in s.plans <==> 1 <= id <= |calls|)
            && (forall id :: id in s.plans ==> Grants(calls[id - 1], s.plans[id]))
  {
    RunGrants(Init(clock), actions);
    var s, calls := Run(Init(clock), actions), Requests(actions);
    forall id: nat ensures id in s.plans <==> 1 <= id <= |calls| {
      if 1 <= id <= |calls| {
        assert GrantedAt(s.plans, 1, calls, id - 1);
      }
    }
    forall id | id in s.plans ensures Grants(calls[id - 1], s.plans[id]) {
      assert GrantedAt(s.plans, 1, calls, id - 1);
    }
  }

  // ---------- cancellation ----------

  function Waits(s: State, id: nat): nat {
    if id in s.batch then 1 else 0
  }

  /** Nothing will put id into a batch again: it is not in the heap, and will not return to it, unless its
      flag is set. */
  ghost predicate Doomed(s: State, id: nat) {
    && id < s.nextId
    && (id in s.tasks && (id in s.heap || s.tasks[id].interval > 0) ==> id in s.cancelled)
  }

  lemma StepDoomed(s: State, a: Action, id: nat)
    requires Inv(s) && Enabled(s, a) && Doomed(s, id)
    ensures var s' := Step(s, a);
            Doomed(s', id) && s'.fired[id] + Waits(s', id) <= s.fired[id] + Waits(s, id)
  {
    assert Placed(s, id);
    match a
    case Collect(now, order) => LiveHas(s.cancelled, order);
    case Fire(now) => BatchSplit(s.batch);
    case _ =>
  }

  lemma {:induction false} RunDoomed(s: State, actions: seq<Action>, id: nat)
    requires Inv(s) && CanRun(s, actions) && Doomed(s, id)
    ensures Run(s, actions).fired[id] <= s.fired[id] + Waits(s, id)
    decreases |actions|
  {
    if actions != [] {
      StepInv(s, actions[0]);
      StepDoomed(s, actions[0], id);
      RunDoomed(Step(s, actions[0]), actions[1..], id);
    }
  }

  /** In every run the cancelled timers are timers that exist and that a call named. */
  lemma {:induction false} RunCancelled(s: State, actions: seq<Action>, id: nat)
    requires Inv(s) && CanRun(s, actions) && id in Run(s, actions).cancelled
    ensures id in s.cancelled || (id in Run(s, actions).plans && Cancel(id) in actions)
    decreases |actions|
  {
    if actions != [] {
      var a, s1 := actions[0], Step(s, actions[0]);
      assert actions == [a] + actions[1..];
      StepInv(s, a);
      RunCancelled(s1, actions[1..], id);
      if id in s1.cancelled && id !in s.cancelled {
        assert Placed(s, id) && Scheduled(s, id);
        RunPlans(s1, actions[1..], id);
      }
    }
  }

  lemma {:induction false} RunPlans(s: State, actions: seq<Action>, id: nat)
    requires CanRun(s, actions) && id in s.plans
    ensures id in Run(s, actions).plans
    decreases |actions|
  {
    if actions != [] {
      RunPlans(Step(s, actions[0]), actions[1..], id);
    }
  }

  /** A timer that no call has named while it existed is not cancelled: a cancelTimer for an id that is not given out
      yet, or no longer tracked, has no effect. */
  lemma OnlyCancelledByName(clock: int, before: seq<Action>, after: seq<Action>, id: nat)
    requires CanRun(Init(clock), before) && CanRun(Run(Init(clock), before), after)
    requires id !in Run(Init(clock), before).plans && Cancel(id) !in after
    ensures id !in Run(Run(Init(clock), before), after).cancelled
  {
    InitInv(clock);
    RunInv(Init(clock), before);
    var s := Run(Init(clock), before);
    if id in s.cancelled {
      RunCancelled(Init(clock), before, id);
    } else if id in Run(s, after).cancelled {
      RunCancelled(s, after, id);
    }
  }

  /** After cancelTimer on a timer that exists, whatever happens next, it fires at most once more, and not
      at all unless it had been collected into the running batch and was still waiting there. */
  lemma CancelStops(clock: int, before: seq<Action>, id: nat, after: seq<Action>)
    requires CanRun(Init(clock), before)
    requires var s := Run(Init(clock), before); id < s.nextId && CanRun(Step(s, Cancel(id)), after)
    ensures var s := Run(Init(clock), before);
            Run(Step(s, Cancel(id)), after).fired[id] <= s.fired[id] + (if id in s.batch then 1 else 0)
  {
    InitInv(clock);
    RunInv(Init(clock), before);
    var s := Run(Init(clock), before);
    CancelInv(s, id);
    assert Placed(s, id);
    RunDoomed(Step(s, Cancel(id)), after, id);
  }

  // ---------- how long to sleep ----------

  /** getNextTimerTimeoutMs, given the earliest due time if there is one. */
  function PollTimeout(earliest: int, now: int): int {
    if earliest <= now then 0
    else if (earliest - now) / NANOS_PER_MS > POLL_TIMEOUT_MS then POLL_TIMEOUT_MS
    else (earliest - now) / NANOS_PER_MS
  }

  /** A sleep of that length does not pass the earliest due time, and ends less than a millisecond before it
      unless it is cut off at the maximum. */
  lemma PollNeverOversleeps(earliest: int, now: int)
    ensures var ms := PollTimeout(earliest, now);
            && 0 <= ms <= POLL_TIMEOUT_MS
            && (earliest > now ==> now + ms * NANOS_PER_MS <= earliest)
            && (ms < POLL_TIMEOUT_MS ==> earliest < now + (ms + 1) * NANOS_PER_MS)
  {
  }

  /** After the collecting step no timer in the heap is due. */
  lemma NoneLeftDue(s: State, now: int, order: seq<nat>)
    requires Inv(s) && Enabled(s, Collect(now, order))
    ensures var s' := AfterCollect(s, now, order);
            forall id :: id in s'.heap ==> id in s'.tasks && s'.tasks[id].nextRun > now
  {
    var s' := AfterCollect(s, now, order);
    forall id | id in s'.heap ensures id in s'.tasks && s'.tasks[id].nextRun > now {
      assert Placed(s, id);
    }
  }

  /** runEvery makes a periodic timer exactly when the interval is at least a millisecond or is replaced by
      the one-millisecond default: between the two it is rounded down to zero, which means one-shot. */
  lemma PeriodicExactlyWhen(seconds: real)
    ensures IntervalOf(seconds) > 0 <==> seconds <= 0.0 || seconds >= 0.001
  {
    if seconds > 0.0 {
      var n := (seconds * 1000.0).Floor;
      assert n > 0 <==> seconds * 1000.0 >= 1.0;
    }
  }

  // ---------- the loop's own data ----------

  /** A scheduling call made from inside a callback, elapsed after the previous reading of the clock. */
  datatype Call = After(elapsed: nat, seconds: real) | Every(elapsed: nat, seconds: real) | Stop(id: nat)

  /** runEvery with half a millisecond: in every run the timer fires at most once. */
  lemma HalfMillisecondOnce(clock: int, actions: seq<Action>, id: nat)
    requires CanRun(Init(clock), actions) && id in Run(Init(clock), actions).plans
    requires Run(Init(clock), actions).plans[id].interval == IntervalOf(0.0005)
    ensures Run(Init(clock), actions).fired[id] <= 1
  {
    PeriodicExactlyWhen(0.0005);
    IntervalPositive(0.0005);
    FiringsOnPlan(clock, actions);
  }

  lemma {:induction false} RunConcat(s: State, a: seq<Action>, b: seq<Action>)
    requires CanRun(s, a) && CanRun(Run(s, a), b)
    ensures CanRun(s, a + b) && Run(s, a + b) == Run(Run(s, a), b)
    decreases |a|
  {
    if a == [] {
      assert a + b == b;
    } else {
      assert (a + b)[1..] == a[1..] + b;
      RunConcat(Step(s, a[0]), a[1..], b);
    }
  }

  lemma RunOne(s: State, a: Action)
    requires Enabled(s, a)
    ensures CanRun(s, [a]) && Run(s, [a]) == Step(s, a)
  {
    var s' := Step(s, a);
    assert [a][1..] == [] && CanRun(s', []) && Run(s', []) == s';
  }

  lemma Renewal(heap: map<nat, Timer>, out: map<nat, Timer>, id: nat, t: Timer)
    requires id in out && id !in heap
    ensures heap[id := t] + (out - {id}) == (heap + out)[id := t]
    ensures heap + (out - {id}) == (heap + out) - {id}
  {
  }

  lemma RunSnoc(s: State, actions: seq<Action>, a: Action)
    requires CanRun(s, actions) && Enabled(Run(s, actions), a)
    ensures CanRun(s, actions + [a]) && Run(s, actions + [a]) == Step(Run(s, actions), a)
  {
    RunOne(Run(s, actions), a);
    RunConcat(s, actions, [a]);
  }

  lemma {:induction false} LiveSnoc(cancelled: set<nat>, order: seq<nat>, id: nat)
    ensures Live(cancelled, order + [id]) == Live(cancelled, order) + (if id in cancelled then [] else [id])
    decreases |order|
  {
    if order == [] {
      assert order + [id] == [id];
    } else {
      assert (order + [id])[1..] == order[1..] + [id];
      LiveSnoc(cancelled, order[1..], id);
      Associate(if order[0] in cancelled then [] else [order[0]], Live(cancelled, order[1..]),
                if id in cancelled then [] else [id]);
    }
  }

  /** Where one task is, and that its id has been given out. */
  ghost predicate Housed(heap: map<nat, Timer>, out: map<nat, Timer>, batch: seq<nat>, current: seq<nat>, next: nat,
                         id: nat) {
    && !(id in heap && id in out)
    && (id in out <==> id in batch || id in current)
    && !(id in batch && id in current)
    && (id in heap || id in out ==> id < next)
  }

  ghost predicate AllHoused(heap: map<nat, Timer>, out: map<nat, Timer>, batch: seq<nat>, current: seq<nat>,
                            next: nat) {
    forall id: nat :: Housed(heap, out, batch, current, next, id)
  }

  lemma HousedPush(heap: map<nat, Timer>, out: map<nat, Timer>, batch: seq<nat>, current: seq<nat>, next: nat, t: Timer)
    requires AllHoused(heap, out, batch, current, next)
    ensures next !in heap && next !in out && AllHoused(heap[next := t], out, batch, current, next + 1)
  {
    assert Housed(heap, out, batch, current, next, next);
    var heap', next' := heap[next := t], next + 1;
    forall id: nat ensures Housed(heap', out, batch, current, next', id) {
      assert Housed(heap, out, batch, current, next, id);
    }
  }

  lemma HousedStart(heap: map<nat, Timer>, out: map<nat, Timer>, batch: seq<nat>, next: nat)
    requires AllHoused(heap, out, batch, [], next) && NoRepeats(batch) && batch != []
    ensures AllHoused(heap, out, batch[1..], [batch[0]], next) && NoRepeats(batch[1..])
    ensures batch[0] in out && batch[0] !in heap
  {
    BatchSplit(batch);
    assert Housed(heap, out, batch, [], next, batch[0]);
    forall id: nat ensures Housed(heap, out, batch[1..], [batch[0]], next, id) {
      assert Housed(heap, out, batch, [], next, id);
    }
  }

  lemma HousedFinish(heap: map<nat, Timer>, out: map<nat, Timer>, batch: seq<nat>, id: nat, next: nat, t: Timer)
    requires AllHoused(heap, out, batch, [id], next)
    ensures AllHoused(heap, out - {id}, batch, [], next) && AllHoused(heap[id := t], out - {id}, batch, [], next)
    ensures id in out && id !in heap
  {
    assert Housed(heap, out, batch, [id], next, id);
    forall x: nat ensures Housed(heap, out - {id}, batch, [], next, x) {
      assert Housed(heap, out, batch, [id], next, x);
    }
    var heap' := heap[id := t];
    forall x: nat ensures Housed(heap', out - {id}, batch, [], next, x) {
      assert Housed(heap, out, batch, [id], next, x);
    }
  }

  lemma HousedIdle(heap: map<nat, Timer>, out: map<nat, Timer>, next: nat)
    requires AllHoused(heap, out, [], [], next)
    ensures out == map[] && forall id :: id in heap ==> id < next
  {
    forall id: nat ensures id !in out && (id in heap ==> id < next) {
      assert Housed(heap, out, [], [], next, id);
    }
  }

  lemma HousedPark(full: map<nat, Timer>, flags: set<nat>, order: seq<nat>, heap: map<nat, Timer>, out: map<nat, Timer>,
                   next: nat)
    requires forall id :: id in full ==> id < next
    requires forall id :: id in heap <==> id in full && id !in order
    requires NoRepeats(order) && forall i :: 0 <= i < |order| ==> order[i] in full
    requires out == map id | id in Live(flags, order) && id in full :: full[id]
    ensures AllHoused(heap, out, Live(flags, order), [], next) && NoRepeats(Live(flags, order))
    ensures forall i :: 0 <= i < |Live(flags, order)| ==>
              Live(flags, order)[i] in out && out[Live(flags, order)[i]] == full[Live(flags, order)[i]]
  {
    LiveHas(flags, order);
    var batch := Live(flags, order);
    forall id: nat ensures Housed(heap, out, batch, [], next, id) {
      assert id in order ==> id in full;
      assert id in batch <==> id in order && id !in flags;
    }
    forall i | 0 <= i < |batch| ensures batch[i] in out && out[batch[i]] == full[batch[i]] {
      assert batch[i] in batch;
    }
  }

  class TimerQueue {
    var heap: map<nat, Timer>
    /** The keys of timerFlags_, and the shared flags that have been set. */
    var timerFlags: set<nat>
    var flags: set<nat>
    var nextTimerId: nat
    var clock: int
    /** The tasks that processTimers has taken out of the heap, and history. */
    ghost var out: map<nat, Timer>
    ghost var batch: seq<nat>
    ghost var current: seq<nat>
    ghost var plans: map<nat, Plan>
    ghost var fired: multiset<nat>
    ghost var log: seq<Firing>

    ghost function St(): State
      reads this
    {
      State(heap + out, heap.Keys, batch, current, timerFlags, flags, nextTimerId, clock, plans, fired, log)
    }

    /** The tasks taken out are those of the batch and the current one, and ids are never reused. */
    ghost predicate Valid()
      reads this
    {
      NoRepeats(batch) && |current| <= 1 && AllHoused(heap, out, batch, current, nextTimerId)
    }

    constructor (now: int)
      ensures Valid() && St() == Init(now)
    {
      heap, timerFlags, flags, nextTimerId, clock := map[], {}, {}, 1, now;
      out, batch, current, plans, fired, log := map[], [], [], map[], multiset{}, [];
    }

    method RunAfter(elapsed: nat, seconds: real) returns (id: nat)
      requires Valid()
      modifies this
      ensures Valid() && out == old(out) && id == old(nextTimerId)
      ensures St() == Step(old(St()), Action.RunAfter(old(clock) + elapsed, seconds))
    {
      clock := clock + elapsed;
      HousedPush(heap, out, batch, current, nextTimerId, Timer(clock + DelayOf(seconds), 0));
      id := Push(clock + DelayOf(seconds), 0);
    }

    method RunEvery(elapsed: nat, seconds: real) returns (id: nat)
      requires Valid()
      modifies this
      ensures Valid() && out == old(out) && id == old(nextTimerId)
      ensures St() == Step(old(St()), Action.RunEvery(old(clock) + elapsed, seconds))
    {
      clock := clock + elapsed;
      HousedPush(heap, out, batch, current, nextTimerId, Timer(clock + IntervalOf(seconds), IntervalOf(seconds)));
      id := Push(clock + IntervalOf(seconds), IntervalOf(seconds));
    }

    method Push(first: int, interval: int) returns (id: nat)
      requires nextTimerId !in out
      modifies this
      ensures out == old(out) && id == old(nextTimerId) && St() == Add(old(St()), first, interval)
      ensures heap == old(heap)[id := Timer(first, interval)] && batch == old(batch) && current == old(current)
    {
      id := nextTimerId;
      nextTimerId := nextTimerId + 1;
      timerFlags := timerFlags + {id};
      heap := heap[id := Timer(first, interval)];
      plans := plans[id := Plan(first, interval)];
      assert heap + out == (old(heap) + out)[id := Timer(first, interval)];
    }

    method CancelTimer(id: nat)
      requires Valid()
      modifies this`flags
      ensures Valid() && St() == Step(old(St()), Cancel(id))
    {
      if id in timerFlags {
        flags := flags + {id};
      }
    }

    /** The heap's top: some timer with the least due time. */
    method Top() returns (id: nat)
      requires heap != map[]
      ensures id in heap && forall x :: x in heap ==> heap[id].nextRun <= heap[x].nextRun
    {
      id :| id in heap;
      var left := heap.Keys - {id};
      while left != {}
        invariant id in heap && left <= heap.Keys
        invariant forall x :: x in heap && x !in left ==> heap[id].nextRun <= heap[x].nextRun
        decreases |left|
      {
        var x :| x in left;
        if heap[x].nextRun < heap[id].nextRun { id := x; }
        left := left - {x};
      }
    }

    /** A sleep of the returned length passes no timer's due time. */
    method NextTimerTimeoutMs(now: int) returns (ms: int)
      ensures heap == map[] ==> ms == POLL_TIMEOUT_MS
      ensures heap != map[] ==> exists id :: id in heap && ms == PollTimeout(heap[id].nextRun, now)
      ensures 0 <= ms <= POLL_TIMEOUT_MS
      ensures forall id :: id in heap && heap[id].nextRun > now ==> now + ms * NANOS_PER_MS <= heap[id].nextRun
      ensures (exists id :: id in heap && heap[id].nextRun <= now) ==> ms == 0
    {
      if heap == map[] { return POLL_TIMEOUT_MS; }
      var id := Top();
      PollNeverOversleeps(heap[id].nextRun, now);
      ms := PollTimeout(heap[id].nextRun, now);
    }

    /** The popping loop of processTimers, under the lock: takes the due timers off the heap, earliest
        first, and keeps those that have not been cancelled. */
    method PopExpired(now: int) returns (expired: seq<(nat, Timer)>, ghost order: seq<nat>)
      modifies this`heap, this`timerFlags
      ensures Popped(old(heap), flags, now, order, heap, old(timerFlags), timerFlags)
      ensures Taken(old(heap), expired, Live(flags, order))
      ensures forall id :: id in heap ==> heap[id].nextRun > now
    {
      ghost var full := heap;
      expired, order := [], [];
      var more := true;
      while more
        invariant Popped(full, flags, now, order, heap, old(timerFlags), timerFlags)
        invariant Taken(full, expired, Live(flags, order))
        invariant !more ==> forall id :: id in heap ==> heap[id].nextRun > now
        decreases more, |heap|
      {
        more, expired, order := PopNext(now, expired, full, order, old(timerFlags));
      }
    }

    /** One turn of the loop: stops when the heap's top is not due. */
    method PopNext(now: int, expired: seq<(nat, Timer)>, ghost full: map<nat, Timer>, ghost order: seq<nat>,
                   ghost tracked: set<nat>)
      returns (more: bool, expired': seq<(nat, Timer)>, ghost order': seq<nat>)
      requires Popped(full, flags, now, order, heap, tracked, timerFlags) && Taken(full, expired, Live(flags, order))
      modifies this`heap, this`timerFlags
      ensures Popped(full, flags, now, order', heap, tracked, timerFlags) && Taken(full, expired', Live(flags, order'))
      ensures more ==> |heap| < |old(heap)|
      ensures !more ==> forall id :: id in heap ==> heap[id].nextRun > now
    {
      more, expired', order' := false, expired, order;
      if heap == map[] { return; }
      var id := Top();
      if heap[id].nextRun > now { return; }
      PoppedStep(full, flags, now, order, heap, tracked, timerFlags, id);
      TakenStep(full, flags, expired, order, id);
      more, order' := true, order + [id];
      expired' := Pop(id, expired);
    }

    method Pop(id: nat, expired: seq<(nat, Timer)>) returns (expired': seq<(nat, Timer)>)
      requires id in heap
      modifies this`heap, this`timerFlags
      ensures heap == old(heap) - {id}
      ensures timerFlags == if id in flags || old(heap)[id].interval == 0 then old(timerFlags) - {id}
                            else old(timerFlags)
      ensures expired' == if id in flags then expired else expired + [(id, old(heap)[id])]
    {
      var t := heap[id];
      heap := heap - {id};
      if id in flags {
        timerFlags := timerFlags - {id};
        return expired;
      }
      if t.interval == 0 {
        timerFlags := timerFlags - {id};
      }
      expired' := expired + [(id, t)];
    }

    /** The part of processTimers under the lock. */
    method CollectExpired(now: int) returns (expired: seq<(nat, Timer)>, ghost order: seq<nat>)
      requires Valid() && clock <= now && batch == [] && current == []
      modifies this
      ensures Enabled(old(St()), Collect(now, order)) && St() == Step(old(St()), Collect(now, order))
      ensures Valid() && Holds(expired)
    {
      ghost var start := St();
      HousedIdle(heap, out, nextTimerId);
      assert start.tasks == heap;
      expired, order := PopExpired(now);
      clock := now;
      Park(start, now, order, expired);
    }

    ghost method Park(start: State, now: int, order: seq<nat>, expired: seq<(nat, Timer)>)
      requires St() == start.(tasks := heap + out, heap := heap.Keys, tracked := timerFlags, clock := now)
      requires out == map[] && batch == [] && current == [] && start.heap == start.tasks.Keys
      requires Popped(start.tasks, flags, now, order, heap, start.tracked, timerFlags)
      requires Taken(start.tasks, expired, Live(flags, order))
      requires forall id :: id in heap ==> heap[id].nextRun > now
      requires forall id :: id in start.tasks ==> id < nextTimerId
      modifies this`batch, this`out
      ensures HeapOrder(start, now, order) && St() == AfterCollect(start, now, order)
      ensures Valid() && Holds(expired)
    {
      batch, out := Parked(start, now, order, heap, timerFlags, expired, nextTimerId);
    }

    /** The callback of the next collected task starts. */
    method StartTask(elapsed: nat, ghost id: nat, ghost t: Timer)
      requires Valid() && batch != [] && current == [] && batch[0] == id && id in out && out[id] == t
      modifies this
      ensures Valid() && heap == old(heap) && out == old(out)
      ensures St() == AfterFire(old(St()), old(clock) + elapsed)
    {
      clock := clock + elapsed;
      HousedStart(heap, out, batch, nextTimerId);
      log := log + [Firing(id, fired[id], t.nextRun, clock)];
      fired := fired + multiset{id};
      batch, current := batch[1..], [id];
    }

    /** The callback has returned; a periodic task is renewed from its own due time. */
    method FinishTask(id: nat, t: Timer)
      requires Valid() && current == [id] && id in out && out[id] == t
      modifies this
      ensures Valid() && out == old(out) - {id}
      ensures St() == AfterFinish(old(St()))
    {
      ghost var renewed := t.(nextRun := t.nextRun + t.interval);
      HousedFinish(heap, out, batch, id, nextTimerId, renewed);
      Renewal(heap, out, id, renewed);
      if t.interval > 0 {
        heap := heap[id := t.(nextRun := t.nextRun + t.interval)];
      }
      out := out - {id};
      current := [];
    }

    /** A scheduling call from inside a callback. */
    method Perform(c: Call) returns (ghost a: Action)
      requires Valid()
      modifies this
      ensures Valid() && out == old(out) && Enabled(old(St()), a) && St() == Step(old(St()), a)
      ensures batch == old(batch) && current == old(current) && fired == old(fired)
    {
      match c
      case After(elapsed, seconds) =>
        a := Action.RunAfter(clock + elapsed, seconds);
        var id := RunAfter(elapsed, seconds);
      case Every(elapsed, seconds) =>
        a := Action.RunEvery(clock + elapsed, seconds);
        var id := RunEvery(elapsed, seconds);
      case Stop(id) =>
        a := Cancel(id);
        CancelTimer(id);
    }

    /** One collected task: its callback makes the calls in turn. */
    method RunTask(task: (nat, Timer), elapsed: nat, calls: seq<Call>, ghost left: seq<(nat, Timer)>)
      returns (ghost actions: seq<Action>)
      requires Valid() && current == [] && left != [] && left[0] == task && Holds(left)
      modifies this
      ensures Valid() && current == [] && batch == old(batch)[1..] && out == old(out) - {task.0}
      ensures fired == old(fired) + multiset{task.0}
      ensures CanRun(old(St()), actions) && St() == Run(old(St()), actions)
    {
      ghost var start := St();
      var id, t := task.0, task.1;
      actions := [Fire(clock + elapsed)];
      RunOne(start, Fire(clock + elapsed));
      StartTask(elapsed, id, t);
      for i := 0 to |calls|
        invariant Valid() && out == old(out) && batch == old(batch)[1..] && current == [id]
        invariant fired == old(fired) + multiset{id}
        invariant CanRun(start, actions) && St() == Run(start, actions)
      {
        var a := Perform(calls[i]);
        RunSnoc(start, actions, a);
        actions := actions + [a];
      }
      RunSnoc(start, actions, Finish);
      actions := actions + [Finish];
      FinishTask(id, t);
    }

    /** processTimers: collects the due timers, then runs those that were not cancelled, each once, without the lock.
        The whole call is a run of the steps above, so all that holds for every run holds for it. */
    method ProcessTimers(elapsed: nat, delays: nat -> nat, plan: nat -> seq<Call>)
      returns (ghost actions: seq<Action>, ghost order: seq<nat>)
      requires Valid() && batch == [] && current == []
      modifies this
      ensures Valid() && batch == [] && current == []
      ensures CanRun(old(St()), actions) && St() == Run(old(St()), actions)
      ensures actions != [] && actions[0] == Collect(old(clock) + elapsed, order)
      ensures HeapOrder(old(St()), old(clock) + elapsed, order)
      ensures fired == old(fired) + multiset(Live(old(flags), order))
    {
      ghost var start := St();
      var now := clock + elapsed;
      var expired;
      expired, order := CollectExpired(now);
      ghost var collect := Collect(now, order);
      RunOne(start, collect);
      ghost var more := RunBatch(expired, delays, plan);
      RunConcat(start, [collect], more);
      actions := [collect] + more;
    }

    /** Runs the collected tasks, each once. */
    method RunBatch(expired: seq<(nat, Timer)>, delays: nat -> nat, plan: nat -> seq<Call>)
      returns (ghost actions: seq<Action>)
      requires Valid() && current == [] && Holds(expired)
      modifies this
      ensures Valid() && batch == [] && current == []
      ensures CanRun(old(St()), actions) && St() == Run(old(St()), actions)
      ensures fired == old(fired) + multiset(old(batch))
    {
      ghost var start := St();
      actions := [];
      var i := 0;
      while i < |expired|
        invariant 0 <= i <= |expired|
        invariant Valid() && current == [] && Holds(expired[i..])
        invariant CanRun(start, actions) && St() == Run(start, actions)
        invariant fired + multiset(batch) == old(fired) + multiset(old(batch))
      {
        ghost var was, had := batch, out;
        var more := RunTask(expired[i], delays(i), plan(i), expired[i..]);
        RestHeld(expired[i..], was, had);
        FiredNext(fired - multiset{was[0]}, was, old(fired) + multiset(old(batch)));
        RunConcat(start, actions, more);
        actions := actions + more;
        assert expired[i..][1..] == expired[i + 1..];
        i := i + 1;
      }
    }

    /** The collected tasks are the batch, with their data. */
    ghost predicate Holds(expired: seq<(nat, Timer)>)
      reads this
    {
      Taken(out, expired, batch)
    }
  }

  /** In the middle of the popping loop. */
  ghost predicate Popped(full: map<nat, Timer>, flags: set<nat>, now: int, order: seq<nat>, heap: map<nat, Timer>,
                         tracked0: set<nat>, tracked: set<nat>)
  {
    && (forall i :: 0 <= i < |order| ==> order[i] in full && full[order[i]].nextRun <= now)
    && NoRepeats(order)
    && (forall i, j :: 0 <= i < j < |order| ==> full[order[i]].nextRun <= full[order[j]].nextRun)
    && (forall id :: id in heap <==> id in full && id !in order)
    && (forall id :: id in heap ==> heap[id] == full[id])
    && (forall i, id :: 0 <= i < |order| && id in heap ==> full[order[i]].nextRun <= heap[id].nextRun)
    && (forall id :: id in tracked <==>
          id in tracked0 && !(id in order && id in full && (id in flags || full[id].interval == 0)))
  }

  lemma FiredNext(fired: multiset<nat>, batch: seq<nat>, all: multiset<nat>)
    requires batch != [] && fired + multiset(batch) == all
    ensures fired + multiset{batch[0]} + multiset(batch[1..]) == all
  {
    assert batch == [batch[0]] + batch[1..];
  }

  lemma RestHeld(left: seq<(nat, Timer)>, batch: seq<nat>, out: map<nat, Timer>)
    requires Taken(out, left, batch) && NoRepeats(batch) && batch != []
    ensures Taken(out - {left[0].0}, left[1..], batch[1..])
  {
    BatchSplit(batch);
  }

  ghost predicate Taken(full: map<nat, Timer>, expired: seq<(nat, Timer)>, live: seq<nat>) {
    && |expired| == |live|
    && forall i :: 0 <= i < |live| ==> expired[i].0 == live[i] && live[i] in full && expired[i].1 == full[live[i]]
  }

  lemma PoppedStep(full: map<nat, Timer>, flags: set<nat>, now: int, order: seq<nat>, heap: map<nat, Timer>,
                   tracked0: set<nat>, tracked: set<nat>, id: nat)
    requires Popped(full, flags, now, order, heap, tracked0, tracked)
    requires id in heap && heap[id].nextRun <= now && forall x :: x in heap ==> heap[id].nextRun <= heap[x].nextRun
    ensures Popped(full, flags, now, order + [id], heap - {id}, tracked0,
                   if id in flags || heap[id].interval == 0 then tracked - {id} else tracked)
  {
    assert id in full && full[id] == heap[id] && id !in order;
  }

  lemma TakenStep(full: map<nat, Timer>, flags: set<nat>, expired: seq<(nat, Timer)>, order: seq<nat>, id: nat)
    requires Taken(full, expired, Live(flags, order)) && id in full
    ensures Taken(full, if id in flags then expired else expired + [(id, full[id])], Live(flags, order + [id]))
  {
    LiveSnoc(flags, order, id);
  }

  lemma PoppedAreDue(start: State, now: int, order: seq<nat>, heap: map<nat, Timer>, tracked: set<nat>)
    requires start.heap == start.tasks.Keys
    requires Popped(start.tasks, start.cancelled, now, order, heap, start.tracked, tracked)
    requires forall id :: id in heap ==> heap[id].nextRun > now
    ensures HeapOrder(start, now, order)
    ensures start.heap - Due(start, now) == heap.Keys
  {
  }

  lemma TasksSplit(full: map<nat, Timer>, gone: set<nat>, kept: set<nat>, heap: map<nat, Timer>, out: map<nat, Timer>)
    requires forall id :: id in heap <==> id in full && id !in gone && id !in kept
    requires forall id :: id in heap ==> heap[id] == full[id]
    requires forall id :: id in out <==> id in full && id in kept
    requires forall id :: id in out ==> out[id] == full[id]
    requires gone !! kept
    ensures full - gone == heap + out
  {
  }

  lemma CollectedTasks(start: State, now: int, order: seq<nat>, heap: map<nat, Timer>, tracked: set<nat>,
                       out: map<nat, Timer>)
    requires start.heap == start.tasks.Keys
    requires Popped(start.tasks, start.cancelled, now, order, heap, start.tracked, tracked)
    requires forall id :: id in heap ==> heap[id].nextRun > now
    requires out == map id | id in Live(start.cancelled, order) && id in start.tasks :: start.tasks[id]
    ensures AfterCollect(start, now, order).tasks == heap + out
  {
    PoppedAreDue(start, now, order, heap, tracked);
    LiveHas(start.cancelled, order);
    var due := Due(start, now);
    TasksSplit(start.tasks, due * start.cancelled, due - start.cancelled, heap, out);
  }

  lemma CollectedTracked(start: State, now: int, order: seq<nat>, heap: map<nat, Timer>, tracked: set<nat>)
    requires start.heap == start.tasks.Keys
    requires Popped(start.tasks, start.cancelled, now, order, heap, start.tracked, tracked)
    requires forall id :: id in heap ==> heap[id].nextRun > now
    ensures AfterCollect(start, now, order).tracked == tracked
  {
    PoppedAreDue(start, now, order, heap, tracked);
    assert forall id :: id in Due(start, now) <==> id in order;
  }

  lemma CollectedState(start: State, now: int, order: seq<nat>, heap: map<nat, Timer>, tracked: set<nat>,
                       out: map<nat, Timer>)
    requires start.heap == start.tasks.Keys
    requires Popped(start.tasks, start.cancelled, now, order, heap, start.tracked, tracked)
    requires forall id :: id in heap ==> heap[id].nextRun > now
    requires out == map id | id in Live(start.cancelled, order) && id in start.tasks :: start.tasks[id]
    ensures HeapOrder(start, now, order)
    ensures AfterCollect(start, now, order)
         == start.(tasks := heap + out, heap := heap.Keys, tracked := tracked,
                   batch := Live(start.cancelled, order), clock := now)
  {
    PoppedAreDue(start, now, order, heap, tracked);
    CollectedTasks(start, now, order, heap, tracked, out);
    CollectedTracked(start, now, order, heap, tracked);
  }

  /** What becomes of the collected timers: they are put aside, and the state is that after collecting. */
  lemma Parked(start: State, now: int, order: seq<nat>, heap: map<nat, Timer>, tracked: set<nat>,
               expired: seq<(nat, Timer)>, next: nat) returns (batch: seq<nat>, out: map<nat, Timer>)
    requires start.heap == start.tasks.Keys
    requires Popped(start.tasks, start.cancelled, now, order, heap, start.tracked, tracked)
    requires Taken(start.tasks, expired, Live(start.cancelled, order))
    requires forall id :: id in heap ==> heap[id].nextRun > now
    requires forall id :: id in start.tasks ==> id < next
    ensures HeapOrder(start, now, order)
    ensures AfterCollect(start, now, order)
         == start.(tasks := heap + out, heap := heap.Keys, tracked := tracked, batch := batch, clock := now)
    ensures AllHoused(heap, out, batch, [], next) && NoRepeats(batch) && Taken(out, expired, batch)
  {
    batch := Live(start.cancelled, order);
    out := map id | id in batch && id in start.tasks :: start.tasks[id];
    HousedPark(start.tasks, start.cancelled, order, heap, out, next);
    CollectedState(start, now, order, heap, tracked, out);
  }
}
