/** The hand-over of functors to an event loop: other threads push under a lock and then write to an
    eventfd; the loop polls, reads the eventfd, runs timers, swaps the queue out and runs it. Every
    interleaving of the single steps is a run of the machine below. */
module Wakeup {
  /** A queued functor, numbered in order of queueing. foreign: queued by another thread, which goes on
      to write to the eventfd; the loop thread itself does not. */
  datatype Functor = Functor(id: nat, foreign: bool)

  /** Where the loop thread is: in epoll_wait, handling the reported events, in processTimers, or in
      doPendingFunctors after the swap. */
  datatype Phase = Waiting | Dispatching | InTimers | Running

  /** started: a functor of the current batch has run or is running. unwritten are the foreign functors whose
      thread has pushed but not yet written to the eventfd. The rest is history: queued and ran are everything
      pushed, and everything run, in order; swapped is how much had been queued at the last swap. */
  datatype State = State(
    phase: Phase, pending: seq<Functor>, batch: seq<Functor>, started: bool, counter: nat, unwritten: set<nat>,
    rounds: nat, queued: seq<Functor>, ran: seq<Functor>, swapped: nat)

  datatype Action =
    | Push                 // another thread: pendingFunctors_.push_back
    | Write(id: nat)       // that thread: write(wakeupFd_, 1)
    | Wake                 // another thread wakes the loop for a timer or for quit
    | LoopPush             // the loop thread queues, from inside an event handler, a timer or a functor
    | PollReturns          // epoll_wait returns, for whatever reason
    | ReadEventFd          // handleRead
    | EventsDone
    | Swap                 // timers done; pendingFunctors_ swapped out
    | RunNext              // one functor of the batch runs
    | RoundDone            // the batch is empty; back to epoll_wait

  /** The eventfd counter: a write that would pass the maximum fails and leaves the counter as it is. */
  const MAX_COUNTER: nat := 0xFFFF_FFFF_FFFF_FFFE

  function Bump(counter: nat): nat {
    if counter >= MAX_COUNTER then counter else counter + 1
  }

  function Init(): State {
    State(Waiting, [], [], false, 0, {}, 0, [], [], 0)
  }

  predicate Enabled(s: State, a: Action) {
    match a
    case Push => true
    case Write(id) => id in s.unwritten
    case Wake => true
    case LoopPush => s.phase == Dispatching || s.phase == InTimers || (s.phase == Running && s.started)
    case PollReturns => s.phase == Waiting
    case ReadEventFd => s.phase == Dispatching
    case EventsDone => s.phase == Dispatching
    case Swap => s.phase == InTimers
    case RunNext => s.phase == Running && s.batch != []
    case RoundDone => s.phase == Running && s.batch == []
  }

  function Queue(s: State, foreign: bool): State {
    var f := Functor(|s.queued|, foreign);
    s.(pending := s.pending + [f], queued := s.queued + [f])
  }

  function Step(s: State, a: Action): State
    requires Enabled(s, a)
  {
    match a
    case Push => Queue(s, true).(unwritten := s.unwritten + {|s.queued|})
    case Write(id) => s.(counter := Bump(s.counter), unwritten := s.unwritten - {id})
    case Wake => s.(counter := Bump(s.counter))
    case LoopPush => Queue(s, false)
    case PollReturns => s.(phase := Dispatching)
    case ReadEventFd => s.(counter := 0)
    case EventsDone => s.(phase := InTimers)
    case Swap => s.(phase := Running, batch := s.pending, pending := [], started := false, swapped := |s.queued|)
    case RunNext => s.(ran := s.ran + [s.batch[0]], batch := s.batch[1..], started := true)
    case RoundDone => s.(phase := Waiting, rounds := s.rounds + 1)
  }

  /** The states after each prefix of the actions exist: every action was possible in its turn. */
  predicate CanRun(s: State, actions: seq<Action>)
    decreases |actions|
  {
    actions == [] || (Enabled(s, actions[0]) && CanRun(Step(s, actions[0]), actions[1..]))
  }

  function Run(s: State, actions: seq<Action>): State
    requires CanRun(s, actions)
    decreases |actions|
  {
    if actions == [] then s else Run(Step(s, actions[0]), actions[1..])
  }

  /** A foreign functor whose wakeup has been written. */
  ghost predicate Announced(s: State, f: Functor) {
    f.foreign && f.id !in s.unwritten
  }

  ghost predicate Inv(s: State) {
    // nothing is lost, duplicated or reordered
    && s.queued == s.ran + s.batch + s.pending
    && (forall i :: 0 <= i < |s.queued| ==> s.queued[i].id == i)
    && (s.batch != [] ==> s.phase == Running)
    && |s.ran| + |s.batch| == s.swapped
    && (forall id :: id in s.unwritten ==> id < |s.queued|)
    // after the swap and until the eventfd is read again, an announced functor keeps the eventfd readable
    && (s.phase == Waiting || s.phase == Running ==>
          forall i :: 0 <= i < |s.pending| && Announced(s, s.pending[i]) ==> s.counter > 0)
  }

  lemma InitInv()
    ensures Inv(Init())
  {
  }

  lemma QueueInv(s: State, foreign: bool)
    requires Inv(s)
    ensures var s' := Queue(s, foreign);
            && s'.queued == s'.ran + s'.batch + s'.pending
            && forall i :: 0 <= i < |s'.queued| ==> s'.queued[i].id == i
  {
    var f := Functor(|s.queued|, foreign);
    assert s.ran + s.batch + s.pending + [f] == s.ran + s.batch + (s.pending + [f]);
  }

  /** Every single step of every thread keeps the invariant. */
  lemma StepInv(s: State, a: Action)
    requires Inv(s) && Enabled(s, a)
    ensures Inv(Step(s, a))
  {
    var s' := Step(s, a);
    match a
    case Push =>
      QueueInv(s, true);
      assert forall i :: 0 <= i < |s.pending| ==> s'.pending[i] == s.pending[i];
    case LoopPush =>
      QueueInv(s, false);
      assert forall i :: 0 <= i < |s.pending| ==> s'.pending[i] == s.pending[i];
    case Swap =>
      assert s.ran + [] + s.pending == s.ran + s.pending + [];
    case RunNext =>
      assert s.batch == [s.batch[0]] + s.batch[1..];
      assert s.ran + ([s.batch[0]] + s.batch[1..]) + s.pending == s.ran + [s.batch[0]] + s.batch[1..] + s.pending;
    case _ =>
  }

  lemma {:induction false} RunInv(s: State, actions: seq<Action>)
    requires Inv(s) && CanRun(s, actions)
    ensures Inv(Run(s, actions))
    decreases |actions|
  {
    if actions != [] {
      StepInv(s, actions[0]);
      RunInv(Step(s, actions[0]), actions[1..]);
    }
  }

  /** No lost wakeup. In every interleaving, when the loop is in epoll_wait with nothing to read from the
      eventfd, every functor that another thread has pushed and announced has run. */
  lemma NoLostWakeup(actions: seq<Action>)
    requires CanRun(Init(), actions)
    ensures var s := Run(Init(), actions);
            s.phase == Waiting && s.counter == 0 ==>
              forall f :: f in s.queued && Announced(s, f) ==> f in s.ran
  {
    InitInv();
    RunInv(Init(), actions);
    var s := Run(Init(), actions);
    if s.phase == Waiting && s.counter == 0 {
      forall f | f in s.queued && Announced(s, f) ensures f in s.ran {
        assert s.batch == [];
      }
    }
  }

  /** Functors run in the order in which they were queued, each at most once. */
  lemma RunsInOrderOnce(actions: seq<Action>)
    requires CanRun(Init(), actions)
    ensures var s := Run(Init(), actions);
            && s.ran <= s.queued
            && forall i, j :: 0 <= i < j < |s.ran| ==> s.ran[i] != s.ran[j]
  {
    InitInv();
    RunInv(Init(), actions);
    var s := Run(Init(), actions);
    assert s.queued[..|s.ran|] == s.ran;
    forall i, j | 0 <= i < j < |s.ran| ensures s.ran[i] != s.ran[j] {
      assert s.ran[i] == s.queued[i] && s.ran[j] == s.queued[j];
    }
  }

  /** How far the round that started with n functors queued has come. */
  ghost predicate Progress(s: State, rounds: nat, n: nat) {
    && rounds <= s.rounds && n <= |s.queued|
    && (s.phase == Running ==> s.rounds > rounds || n <= |s.ran| + |s.batch|)
    && (s.rounds > rounds ==> n <= |s.ran|)
  }

  lemma {:induction false} ProgressKept(s: State, actions: seq<Action>, rounds: nat, n: nat)
    requires Inv(s) && CanRun(s, actions) && Progress(s, rounds, n)
    ensures Progress(Run(s, actions), rounds, n)
    decreases |actions|
  {
    if actions != [] {
      StepInv(s, actions[0]);
      ProgressKept(Step(s, actions[0]), actions[1..], rounds, n);
    }
  }

  /** However the threads interleave, one full round runs everything that was queued when it began,
      functors of the loop thread included. */
  lemma OneRoundRunsAll(before: seq<Action>, round: seq<Action>)
    requires CanRun(Init(), before)
    requires var s := Run(Init(), before); s.phase == Waiting && CanRun(s, round)
    ensures var s := Run(Init(), before);
            var s' := Run(s, round);
            s'.rounds > s.rounds ==> |s'.ran| >= |s.queued| && s'.ran[..|s.queued|] == s.queued
  {
    InitInv();
    RunInv(Init(), before);
    var s := Run(Init(), before);
    ProgressKept(s, round, s.rounds, |s.queued|);
    RunInv(s, round);
    QueuedGrows(s, round);
    var s' := Run(s, round);
    if s'.rounds > s.rounds {
      assert s'.queued[..|s.queued|] == s.queued;
      assert s'.queued[..|s'.ran|] == s'.ran;
    }
  }

  lemma {:induction false} QueuedGrows(s: State, actions: seq<Action>)
    requires CanRun(s, actions)
    ensures s.queued <= Run(s, actions).queued
    decreases |actions|
  {
    if actions != [] {
      QueuedGrows(Step(s, actions[0]), actions[1..]);
    }
  }

  // ---------- what is left behind ----------

  /** What the loop leaves behind when it goes to sleep is exactly what was queued after the last swap. If there
      is nothing to read from the eventfd, each such functor is the loop thread's own, queued by a functor of
      that round, or one whose thread has yet to write. */
  lemma LeftBehindExactlyWhen(actions: seq<Action>, i: nat)
    requires CanRun(Init(), actions)
    requires Run(Init(), actions).phase == Waiting && i < |Run(Init(), actions).queued|
    ensures var s := Run(Init(), actions);
            && (s.queued[i] !in s.ran <==> i >= s.swapped)
            && (s.counter == 0 && i >= s.swapped ==> !s.queued[i].foreign || i in s.unwritten)
  {
    InitInv();
    RunInv(Init(), actions);
    var s := Run(Init(), actions);
    assert s.queued == s.ran + s.pending;
    if i >= s.swapped {
      assert s.queued[i] == s.pending[i - s.swapped];
      forall k | 0 <= k < |s.ran| ensures s.ran[k] != s.queued[i] {
        assert s.ran[k] == s.queued[k];
      }
    } else {
      assert s.ran[i] == s.queued[i];
    }
  }

  lemma RunCons(s: State, a: Action, rest: seq<Action>)
    requires Enabled(s, a) && CanRun(Step(s, a), rest)
    ensures CanRun(s, [a] + rest) && Run(s, [a] + rest) == Run(Step(s, a), rest)
  {
    assert ([a] + rest)[1..] == rest;
  }

  /** Asleep with nothing to read, and a functor of the loop thread's own left behind. */
  ghost predicate Stranded(s: State) {
    s.phase == Waiting && s.counter == 0 && s.unwritten == {} && s.pending == [Functor(1, false)]
  }

  lemma StrandedEnd() returns (s: State, actions: seq<Action>)
    ensures s == Step(Step(Init(), Push), Write(0)).(phase := InTimers, counter := 0)
    ensures CanRun(s, actions) && Stranded(Run(s, actions))
  {
    s := Step(Step(Init(), Push), Write(0)).(phase := InTimers, counter := 0);
    var s1 := Step(s, Swap);
    var s2 := Step(s1, RunNext);
    var s3 := Step(s2, LoopPush);
    var s4 := Step(s3, RoundDone);
    assert CanRun(s4, []) && Run(s4, []) == s4;
    RunCons(s3, RoundDone, []);
    RunCons(s2, LoopPush, [RoundDone] + []);
    RunCons(s1, RunNext, [LoopPush] + ([RoundDone] + []));
    RunCons(s, Swap, [RunNext] + ([LoopPush] + ([RoundDone] + [])));
    actions := [Swap] + ([RunNext] + ([LoopPush] + ([RoundDone] + [])));
  }

  /** The guarantee is for other threads only. A functor is pushed and announced, the loop wakes up, reads the
      eventfd and runs it; it queues another, which stays behind without a wakeup. */
  lemma LoopThreadGetsNoWakeup() returns (actions: seq<Action>)
    ensures CanRun(Init(), actions) && Stranded(Run(Init(), actions))
  {
    var s1 := Step(Init(), Push);
    var s2 := Step(s1, Write(0));
    var s3 := Step(s2, PollReturns);
    var s4 := Step(s3, ReadEventFd);
    var s5, rest := StrandedEnd();
    assert s5 == Step(s4, EventsDone);
    RunCons(s4, EventsDone, rest);
    actions := [EventsDone] + rest;
    RunCons(s3, ReadEventFd, actions);
    actions := [ReadEventFd] + actions;
    RunCons(s2, PollReturns, actions);
    actions := [PollReturns] + actions;
    RunCons(s1, Write(0), actions);
    actions := [Write(0)] + actions;
    RunCons(Init(), Push, actions);
    actions := [Push] + actions;
  }

  lemma RunOne(s: State, a: Action)
    requires Enabled(s, a)
    ensures CanRun(s, [a]) && Run(s, [a]) == Step(s, a)
  {
    var s' := Step(s, a);
    assert [a][1..] == [] && CanRun(s', []) && Run(s', []) == s';
  }

  lemma {:induction false} RunConcat(s: State, a: seq<Action>, b: seq<Action>)
    requires CanRun(s, a) && CanRun(Run(s, a), b)
    ensures CanRun(s, a + b) && Run(s, a + b) == Run(Run(s, a), b)
    decreases |a|
  {
    if a == [] {
      assert a + b == b;
    } else {
      assert (a + b)[1..] == a[1..] + b;
      RunConcat(Step(s, a[0]), a[1..], b);
    }
  }

  // ---------- the counters ----------

  /** The rounds that the actions complete. */
  function RoundsIn(actions: seq<Action>): nat {
    if actions == [] then 0 else (if actions[0].RoundDone? then 1 else 0) + RoundsIn(actions[1..])
  }

  /** The counter after the actions: the writes since the eventfd was last read, up to the maximum. */
  function CounterAfter(counter: nat, actions: seq<Action>): nat
    decreases |actions|
  {
    if actions == [] then counter
    else
      CounterAfter(if actions[0].ReadEventFd? then 0
                   else if (actions[0].Write? || actions[0].Wake?) && counter < 0xFFFF_FFFF_FFFF_FFFE then counter + 1
                   else counter, actions[1..])
  }

  /** In every run the counter of the eventfd holds the writes since the last read, and the rounds are counted. */
  lemma {:induction false} CountersAre(s: State, actions: seq<Action>)
    requires CanRun(s, actions) && s.counter <= MAX_COUNTER
    ensures Run(s, actions).counter == CounterAfter(s.counter, actions)
    ensures Run(s, actions).rounds == s.rounds + RoundsIn(actions)
    decreases |actions|
  {
    if actions != [] {
      CountersAre(Step(s, actions[0]), actions[1..]);
    }
  }

  /** Behind the swap the loop thread queues nothing until the first functor of the batch runs. */
  lemma {:induction false} NoPushBeforeFirst(s: State, actions: seq<Action>)
    requires s.phase == Running && !s.started && CanRun(s, actions)
    requires forall i :: 0 <= i < |actions| ==> !actions[i].RunNext? && !actions[i].RoundDone?
    ensures forall i :: 0 <= i < |actions| ==> !actions[i].LoopPush?
    decreases |actions|
  {
    if actions != [] {
      NoPushBeforeFirst(Step(s, actions[0]), actions[1..]);
      assert actions == [actions[0]] + actions[1..];
    }
  }

  lemma NothingFromTheSwap(s: State, actions: seq<Action>)
    requires Enabled(s, Swap) && CanRun(Step(s, Swap), actions)
    requires forall i :: 0 <= i < |actions| ==> !actions[i].RunNext? && !actions[i].RoundDone?
    ensures forall i :: 0 <= i < |actions| ==> !actions[i].LoopPush?
  {
    NoPushBeforeFirst(Step(s, Swap), actions);
  }
}
