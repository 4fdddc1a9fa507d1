/** The multi-threaded client: callers register requests in two tables, loop threads complete them with
    responses and timeouts, and the destructor completes what is left. Every section under the lock, and
    every access to an atomic, is one step; the steps of all threads interleave. */
module AsyncClient {
  import opened Bytes
  import opened ByteBuffer
  import opened Codec
  import opened Framing
  import opened DrainLoop

  /** How a request ends; Refused is the answer of the interceptor chain itself. */
  datatype Outcome<+R> = Response(response: R) | TimedOut | Destroyed | Refused

  datatype Completion<+R> = Completion(id: nat, outcome: Outcome<R>)

  /** The shared tables, with the promises set and callbacks run so far. */
  datatype Tables<R> = Tables(nextReqId: nat, promises: set<nat>, callbacks: set<nat>, destroyed: bool,
                              log: seq<Completion<R>>)

  function Empty<R>(): Tables<R> { Tables(1, {}, {}, false, []) }

  /** A blocking call (a future, or any call through a chain) registers a promise; other calls a callback. */
  function AfterRegister<R>(t: Tables<R>, id: nat, blocking: bool): Tables<R> {
    if blocking then t.(promises := t.promises + {id}) else t.(callbacks := t.callbacks + {id})
  }

  /** The locked section of handleTimeout and handleResponse. */
  function AfterComplete<R>(t: Tables<R>, id: nat, outcome: Outcome<R>): Tables<R> {
    if id in t.promises then t.(promises := t.promises - {id}, log := t.log + [Completion(id, outcome)])
    else if id in t.callbacks then t.(callbacks := t.callbacks - {id}, log := t.log + [Completion(id, outcome)])
    else t
  }

  function AllDestroyed<R>(order: seq<nat>): seq<Completion<R>> {
    if order == [] then [] else [Completion(order[0], Destroyed)] + AllDestroyed(order[1..])
  }

  /** The end of the destructor: the promises in some order, then the callbacks in some order. */
  function AfterDrain<R>(t: Tables<R>, promises: seq<nat>, callbacks: seq<nat>): Tables<R> {
    t.(promises := {}, callbacks := {}, log := t.log + AllDestroyed(promises) + AllDestroyed(callbacks))
  }

  // ---------- the threads ----------

  /** Where the thread that makes a call is. */
  datatype Stage =
    | Allocated     // it has its id, and is still in the interceptor chain, if there is one
    | Registered    // its entry is in a table
    | Timed         // the timer, if any, is set
    | Failing       // encoding or sending failed, and handleTimeout is called next
    | Through       // nothing left to do but wait

  datatype Call = Call(blocking: bool, chained: bool, stage: Stage)

  /** timers are the requests whose timers are still to fire; expiring are the calls of handleTimeout that have
      passed its check of the destroyed flag and wait for the lock. */
  datatype State<R> = State(tables: Tables<R>, calls: map<nat, Call>, timers: set<nat>, expiring: multiset<nat>,
                            finished: bool)

  datatype Action<R> =
    | Start(blocking: bool, chained: bool)      // asyncCall: takes the next id
    | Refuse(id: nat)                           // an interceptor rejects the request
    | Register(id: nat)
    | Arm(id: nat, timed: bool)
    | Send(id: nat, ok: bool)
    | Fail(id: nat)                             // handleTimeout in the calling thread, up to the lock
    | Fire(id: nat)                             // handleTimeout in the loop thread, up to the lock
    | Expire(id: nat)                           // handleTimeout, under the lock
    | Respond(id: nat, response: R)             // handleResponse, for any id the network brings
    | Destroy                                   // the destructor raises the flag
    | Finish(promises: seq<nat>, callbacks: seq<nat>)

  function Init<R>(): State<R> { State(Empty(), map[], {}, multiset{}, false) }

  predicate At<R>(s: State<R>, id: nat, stage: Stage) { id in s.calls && s.calls[id].stage == stage }

  /** The destructor ends the life of the object: nothing is enabled after it. */
  ghost predicate Enabled<R>(s: State<R>, a: Action<R>) {
    !s.finished &&
    match a
    case Start(blocking, chained) => chained ==> blocking
    case Refuse(id) => At(s, id, Allocated) && s.calls[id].chained
    case Register(id) => At(s, id, Allocated)
    case Arm(id, _) => At(s, id, Registered)
    case Send(id, _) => At(s, id, Timed)
    case Fail(id) => At(s, id, Failing)
    case Fire(id) => id in s.timers
    case Expire(id) => id in s.expiring
    case Respond(_, _) => true
    case Destroy => !s.tables.destroyed
    case Finish(ps, cs) => s.tables.destroyed && Lists(ps, s.tables.promises) && Lists(cs, s.tables.callbacks)
  }

  function Move<R>(s: State<R>, id: nat, stage: Stage): State<R>
    requires id in s.calls
  {
    s.(calls := s.calls[id := s.calls[id].(stage := stage)])
  }

  function AfterCheck<R>(s: State<R>, id: nat): State<R> {
    if s.tables.destroyed then s else s.(expiring := s.expiring + multiset{id})
  }

  ghost function Step<R>(s: State<R>, a: Action<R>): State<R>
    requires Enabled(s, a)
  {
    var t := s.tables;
    match a
    case Start(blocking, chained) =>
      s.(tables := t.(nextReqId := t.nextReqId + 1),
         calls := s.calls[t.nextReqId := Call(blocking, chained, Allocated)])
    case Refuse(id) => Move(s, id, Through).(tables := t.(log := t.log + [Completion(id, Refused)]))
    case Register(id) => Move(s, id, Registered).(tables := AfterRegister(t, id, s.calls[id].blocking))
    case Arm(id, timed) => Move(s, id, Timed).(timers := if timed then s.timers + {id} else s.timers)
    case Send(id, ok) => Move(s, id, if ok then Through else Failing)
    case Fail(id) => AfterCheck(Move(s, id, Through), id)
    case Fire(id) => AfterCheck(s.(timers := s.timers - {id}), id)
    case Expire(id) => s.(tables := AfterComplete(t, id, TimedOut), expiring := s.expiring - multiset{id})
    case Respond(id, r) => s.(tables := AfterComplete(t, id, Response(r)))
    case Destroy => s.(tables := t.(destroyed := true))
    case Finish(ps, cs) => s.(tables := AfterDrain(t, ps, cs), finished := true)
  }

  ghost predicate CanRun<R>(actions: seq<Action<R>>)
    decreases |actions|, 0
  {
    actions == [] ||
    var before := actions[..|actions| - 1];
    CanRun(before) && Enabled(Run(before), actions[|actions| - 1])
  }

  ghost function Run<R>(actions: seq<Action<R>>): State<R>
    requires CanRun(actions)
    decreases |actions|, 1
  {
    if actions == [] then Init() else Step(Run(actions[..|actions| - 1]), actions[|actions| - 1])
  }

  // ---------- one request, followed through the actions alone ----------

  /** Not issued; issued but in no table; in a table; completed. */
  datatype Progress<+R> = Unissued | Held | Pending | Done(outcome: Outcome<R>)

  function Starts<R>(actions: seq<Action<R>>): nat {
    if actions == [] then 0
    else Starts(actions[..|actions| - 1]) + (if actions[|actions| - 1].Start? then 1 else 0)
  }

  /** The k-th call gets id k. What completes a registered request is the first response, locked timeout or end of
      the destructor that comes after its registration. */
  function Track<R>(actions: seq<Action<R>>, id: nat): Progress<R> {
    if actions == [] then Unissued
    else
      var before := actions[..|actions| - 1];
      Advance(Track(before, id), actions[|actions| - 1], id, Starts(before))
  }

  function Advance<R>(p: Progress<R>, a: Action<R>, id: nat, starts: nat): Progress<R> {
    match a
    case Start(_, _) => if id == starts + 1 then Held else p
    case Refuse(i) => if i == id then Done(Refused) else p
    case Register(i) => if i == id then Pending else p
    case Expire(i) => if i == id && p.Pending? then Done(TimedOut) else p
    case Respond(i, r) => if i == id && p.Pending? then Done(Response(r)) else p
    case Finish(_, _) => if p.Pending? then Done(Destroyed) else p
    case _ => p
  }

  /** What the caller of one request has seen. */
  function Outcomes<R>(log: seq<Completion<R>>, id: nat): seq<Outcome<R>> {
    if log == [] then []
    else Outcomes(log[..|log| - 1], id) + (if log[|log| - 1].id == id then [log[|log| - 1].outcome] else [])
  }

  ghost predicate InTables<R>(t: Tables<R>, id: nat, p: Progress<R>) {
    && (p.Pending? <==> id in t.promises || id in t.callbacks)
    && !(id in t.promises && id in t.callbacks)
    && Outcomes(t.log, id) == (if p.Done? then [p.outcome] else [])
  }

  ghost predicate Matches<R>(s: State<R>, id: nat, p: Progress<R>) {
    && (p.Unissued? <==> id !in s.calls)
    && (p.Held? <==> At(s, id, Allocated))
    && InTables(s.tables, id, p)
  }

  lemma OutcomesSnoc<R>(log: seq<Completion<R>>, c: Completion<R>, id: nat)
    ensures Outcomes(log + [c], id) == Outcomes(log, id) + (if c.id == id then [c.outcome] else [])
  {
    assert (log + [c])[..|log|] == log;
  }

  lemma {:induction false} OutcomesConcat<R>(a: seq<Completion<R>>, b: seq<Completion<R>>, id: nat)
    ensures Outcomes(a + b, id) == Outcomes(a, id) + Outcomes(b, id)
    decreases |b|
  {
    if b == [] {
      assert a + b == a;
    } else {
      var b0, c := b[..|b| - 1], b[|b| - 1];
      assert a + b == (a + b0) + [c] && b == b0 + [c];
      OutcomesSnoc(a + b0, c, id);
      OutcomesSnoc(b0, c, id);
      OutcomesConcat(a, b0, id);
    }
  }

  /** The drain completes each listed request once. */
  lemma {:induction false} DrainOutcomes<R>(order: seq<nat>, ids: set<nat>, id: nat)
    requires Lists(order, ids)
    ensures Outcomes(AllDestroyed<R>(order), id) == if id in ids then [Destroyed] else []
    decreases |order|
  {
    if order != [] {
      ListsTail(order, ids);
      DrainOutcomes<R>(order[1..], ids - {order[0]}, id);
      var head := [Completion(order[0], Destroyed)];
      OutcomesConcat(head, AllDestroyed<R>(order[1..]), id);
      assert head == [] + head;
      OutcomesSnoc<R>([], head[0], id);
      assert order[0] in order;
    } else {
      assert id !in order;
    }
  }

  lemma DrainInTables<R>(t: Tables<R>, promises: seq<nat>, callbacks: seq<nat>, id: nat, p: Progress<R>)
    requires InTables(t, id, p) && Lists(promises, t.promises) && Lists(callbacks, t.callbacks)
    ensures InTables(AfterDrain(t, promises, callbacks), id, if p.Pending? then Done(Destroyed) else p)
  {
    DrainOutcomes<R>(promises, t.promises, id);
    DrainOutcomes<R>(callbacks, t.callbacks, id);
    OutcomesConcat(t.log, AllDestroyed(promises), id);
    OutcomesConcat(t.log + AllDestroyed(promises), AllDestroyed(callbacks), id);
  }

  lemma CompleteInTables<R>(t: Tables<R>, i: nat, outcome: Outcome<R>, id: nat, p: Progress<R>)
    requires InTables(t, id, p)
    ensures InTables(AfterComplete(t, i, outcome), id, if i == id && p.Pending? then Done(outcome) else p)
  {
    OutcomesSnoc(t.log, Completion(i, outcome), id);
  }

  lemma CallMatches<R>(s: State<R>, a: Action<R>, id: nat, p: Progress<R>, starts: nat)
    requires Enabled(s, a) && Matches(s, id, p) && s.tables.nextReqId == starts + 1
    requires (a.Start? || a.Refuse? || a.Register?) && (id > starts ==> p.Unissued?)
    ensures Matches(Step(s, a), id, Advance(p, a, id, starts))
  {
    if a.Refuse? {
      OutcomesSnoc(s.tables.log, Completion(a.id, Refused), id);
      RefuseMatches(s, a.id, id, p);
    } else if a.Register? {
      RegisterMatches(s, a.id, id, p);
    }
  }

  lemma RefuseMatches<R>(s: State<R>, i: nat, id: nat, p: Progress<R>)
    requires Enabled(s, Refuse(i)) && Matches(s, id, p)
    requires Outcomes(s.tables.log + [Completion(i, Refused)], id)
          == Outcomes(s.tables.log, id) + (if i == id then [Refused] else [])
    ensures Matches(Step(s, Refuse(i)), id, if i == id then Done(Refused) else p)
  {
  }

  lemma RegisterMatches<R>(s: State<R>, i: nat, id: nat, p: Progress<R>)
    requires Enabled(s, Register(i)) && Matches(s, id, p)
    ensures Matches(Step(s, Register(i)), id, if i == id then Pending else p)
  {
  }

  /** These steps touch no table. */
  lemma QuietMatches<R>(s: State<R>, a: Action<R>, id: nat, p: Progress<R>, starts: nat)
    requires Enabled(s, a) && Matches(s, id, p) && (a.Arm? || a.Send? || a.Fail? || a.Fire? || a.Destroy?)
    ensures Matches(Step(s, a), id, Advance(p, a, id, starts))
  {
  }

  lemma TableMatches<R>(s: State<R>, a: Action<R>, id: nat, p: Progress<R>, starts: nat)
    requires Enabled(s, a) && Matches(s, id, p) && (a.Expire? || a.Respond? || a.Finish?)
    ensures Matches(Step(s, a), id, Advance(p, a, id, starts))
  {
    match a {
      case Expire(i) => CompleteInTables(s.tables, i, TimedOut, id, p);
      case Respond(i, r) => CompleteInTables(s.tables, i, Response(r), id, p);
      case Finish(ps, cs) => DrainInTables(s.tables, ps, cs, id, p);
    }
  }

  lemma StepMatches<R>(s: State<R>, a: Action<R>, id: nat, p: Progress<R>, starts: nat)
    requires Enabled(s, a) && Matches(s, id, p) && s.tables.nextReqId == starts + 1
    requires id > starts ==> p.Unissued?
    ensures Matches(Step(s, a), id, Advance(p, a, id, starts))
  {
    if a.Start? || a.Refuse? || a.Register? {
      CallMatches(s, a, id, p, starts);
    } else if a.Expire? || a.Respond? || a.Finish? {
      TableMatches(s, a, id, p, starts);
    } else {
      QuietMatches(s, a, id, p, starts);
    }
  }

  /** Over every interleaving, the tables and the log agree with what the actions say of each request: it is in at
      most one table, and its caller has seen nothing or exactly one outcome. */
  lemma {:induction false} RunMatches<R>(actions: seq<Action<R>>, id: nat)
    requires CanRun(actions)
    ensures Matches(Run(actions), id, Track(actions, id))
    ensures Run(actions).tables.nextReqId == Starts(actions) + 1
    ensures id > Starts(actions) ==> Track(actions, id).Unissued?
    decreases |actions|
  {
    if actions != [] {
      var before := actions[..|actions| - 1];
      RunMatches(before, id);
      StepMatches(Run(before), actions[|actions| - 1], id, Track(before, id), Starts(before));
    }
  }

  // ---------- the destructor leaves no registered request behind ----------

  /** The request was put in a table, or answered by the chain. */
  ghost predicate Taken<R>(actions: seq<Action<R>>, id: nat) {
    exists k :: 0 <= k < |actions| && Takes(actions[k], id)
  }

  predicate Takes<R>(a: Action<R>, id: nat) { (a.Register? || a.Refuse?) && a.id == id }

  lemma AdvanceTaken<R>(s: State<R>, a: Action<R>, id: nat, p: Progress<R>, starts: nat)
    requires Enabled(s, a) && Matches(s, id, p)
    requires id > starts ==> p.Unissued?
    ensures var q := Advance(p, a, id, starts);
            q.Pending? || q.Done? <==> p.Pending? || p.Done? || Takes(a, id)
  {
  }

  lemma {:induction false} TakenTrack<R>(actions: seq<Action<R>>, id: nat)
    requires CanRun(actions)
    ensures Taken(actions, id) <==> Track(actions, id).Pending? || Track(actions, id).Done?
    decreases |actions|
  {
    if actions != [] {
      var before, a := actions[..|actions| - 1], actions[|actions| - 1];
      TakenTrack(before, id);
      RunMatches(before, id);
      AdvanceTaken(Run(before), a, id, Track(before, id), Starts(before));
      TakenLast(actions, id);
    }
  }

  lemma TakenLast<R>(actions: seq<Action<R>>, id: nat)
    requires actions != []
    ensures Taken(actions, id) <==> Taken(actions[..|actions| - 1], id) || Takes(actions[|actions| - 1], id)
  {
    var before := actions[..|actions| - 1];
    if Taken(before, id) {
      var k :| 0 <= k < |before| && Takes(before[k], id);
      assert Takes(actions[k], id);
    }
    if Taken(actions, id) {
      var k :| 0 <= k < |actions| && Takes(actions[k], id);
      assert k < |before| ==> Takes(before[k], id);
    }
  }

  lemma FinishedEmpty<R>(actions: seq<Action<R>>)
    requires CanRun(actions) && Run(actions).finished
    ensures Run(actions).tables.promises == {} && Run(actions).tables.callbacks == {}
  {
  }

  /** When the destructor has returned, a request has exactly one outcome if it was registered or refused by then;
      only a call caught between taking its id and registering has none. */
  lemma DestructorCompletes<R>(actions: seq<Action<R>>, id: nat)
    requires CanRun(actions) && Run(actions).finished
    ensures |Outcomes(Run(actions).tables.log, id)| == if Taken(actions, id) then 1 else 0
    ensures id in Run(actions).calls && !Taken(actions, id) ==> At(Run(actions), id, Allocated)
  {
    RunMatches(actions, id);
    TakenTrack(actions, id);
    FinishedEmpty(actions);
  }

  /** Such a run: the call takes its id, and the destructor comes and goes. */
  lemma CallForgotten<R>() returns (actions: seq<Action<R>>)
    ensures CanRun(actions) && Run(actions).finished
    ensures 1 in Run(actions).calls && Outcomes(Run(actions).tables.log, 1) == []
  {
    var a1: seq<Action<R>> := [Start(true, false)];
    var a2: seq<Action<R>> := [Start(true, false), Destroy];
    actions := [Start(true, false), Destroy, Finish([], [])];
    assert a1[..0] == [] && a2[..1] == a1 && actions[..2] == a2;
    assert CanRun(a1[..0]) && Run(a1[..0]) == Init();
    assert CanRun(a1) && CanRun(a2) && CanRun(actions);
  }

  /** No caller sees two outcomes, at any point of any run. */
  lemma AtMostOnce<R>(actions: seq<Action<R>>, id: nat)
    requires CanRun(actions)
    ensures |Outcomes(Run(actions).tables.log, id)| <= 1
    ensures !(id in Run(actions).tables.promises && id in Run(actions).tables.callbacks)
  {
    RunMatches(actions, id);
  }

  // ---------- a timeout that gets the lock settles its request ----------

  /** A timeout under way belongs to a request that has been registered. */
  ghost predicate Due<R>(s: State<R>, id: nat) {
    id in s.timers || id in s.expiring ==> id in s.calls && s.calls[id].stage != Allocated
  }

  lemma StepDue<R>(s: State<R>, a: Action<R>, id: nat)
    requires Enabled(s, a) && Due(s, id) && (a.Start? ==> s.tables.nextReqId !in s.calls)
    ensures Due(Step(s, a), id)
  {
  }

  lemma {:induction false} RunDue<R>(actions: seq<Action<R>>, id: nat)
    requires CanRun(actions)
    ensures Due(Run(actions), id)
    decreases |actions|
  {
    if actions != [] {
      var before := actions[..|actions| - 1];
      RunDue(before, id);
      RunMatches(before, Starts(before) + 1);
      StepDue(Run(before), actions[|actions| - 1], id);
    }
  }

  lemma ExpirySettles<R>(actions: seq<Action<R>>, id: nat)
    requires CanRun(actions) && Enabled(Run(actions), Expire(id))
    ensures CanRun(actions + [Expire(id)])
    ensures |Outcomes(Run(actions + [Expire(id)]).tables.log, id)| == 1
  {
    var all := actions + [Expire(id)];
    assert all[..|actions|] == actions;
    RunDue(actions, id);
    RunMatches(actions, id);
    RunMatches(all, id);
  }

  // ---------- no request waits for nothing ----------

  /** The request has got a timer, or could not be sent. */
  function Alarmed<R>(actions: seq<Action<R>>, id: nat): bool {
    actions != [] &&
    var a := actions[|actions| - 1];
    (a == Arm(id, true) || a == Send(id, false) || Alarmed(actions[..|actions| - 1], id))
  }

  /** Its timeout is still to come: the timer is to fire, the caller is about to give up, or handleTimeout waits for the
      lock. */
  predicate Watched<R>(s: State<R>, id: nat) {
    id in s.timers || At(s, id, Failing) || id in s.expiring
  }

  ghost predicate Guarded<R>(s: State<R>, id: nat, alarmed: bool, p: Progress<R>) {
    alarmed ==>
      && id in s.calls && s.calls[id].stage != Allocated && s.calls[id].stage != Registered
      && (p.Pending? ==> s.tables.destroyed || Watched(s, id))
  }

  lemma StepGuarded<R>(s: State<R>, a: Action<R>, id: nat, alarmed: bool, p: Progress<R>, starts: nat)
    requires Enabled(s, a) && Matches(s, id, p) && Guarded(s, id, alarmed, p)
    requires s.tables.nextReqId == starts + 1 && starts + 1 !in s.calls
    ensures Guarded(Step(s, a), id, a == Arm(id, true) || a == Send(id, false) || alarmed, Advance(p, a, id, starts))
  {
  }

  lemma {:induction false} RunGuarded<R>(actions: seq<Action<R>>, id: nat)
    requires CanRun(actions)
    ensures Guarded(Run(actions), id, Alarmed(actions, id), Track(actions, id))
    decreases |actions|
  {
    if actions != [] {
      var before := actions[..|actions| - 1];
      RunGuarded(before, id);
      RunMatches(before, id);
      RunMatches(before, Starts(before) + 1);
      StepGuarded(Run(before), actions[|actions| - 1], id, Alarmed(before, id), Track(before, id), Starts(before));
    }
  }

  /** In every run a request that has got a timer, or that could not be sent, and that is still pending, has its timeout
      to come, unless the destructor has begun. Then one or two steps answer it. */
  lemma AlarmRings<R>(actions: seq<Action<R>>, id: nat) returns (more: seq<Action<R>>)
    requires CanRun(actions) && Alarmed(actions, id) && Track(actions, id).Pending?
    requires !Run(actions).finished && !Run(actions).tables.destroyed
    ensures CanRun(actions + more) && |more| <= 2 && Track(actions + more, id) == Done(TimedOut)
  {
    RunGuarded(actions, id);
    RunMatches(actions, id);
    var s := Run(actions);
    if id in s.expiring {
      RunSnoc(actions, Expire(id));
      more := [Expire(id)];
      assert (actions + more)[..|actions|] == actions;
    } else {
      var a: Action<R> := if id in s.timers then Fire(id) else Fail(id);
      RunSnoc(actions, a);
      RunSnoc(actions + [a], Expire(id));
      more := [a, Expire(id)];
      assert actions + more == actions + [a] + [Expire(id)];
      assert (actions + more)[..|actions| + 1] == actions + [a] && (actions + [a])[..|actions|] == actions;
    }
  }

  /** How many alarms a request has got: one for its timer, one for a failed send. */
  function Alarms<R>(actions: seq<Action<R>>, id: nat): nat {
    if actions == [] then 0
    else
      var a := actions[|actions| - 1];
      Alarms(actions[..|actions| - 1], id) + (if a == Arm(id, true) || a == Send(id, false) then 1 else 0)
  }

  /** How many of them have been dealt with under the lock. */
  function Expiries<R>(actions: seq<Action<R>>, id: nat): nat {
    if actions == [] then 0
    else
      var a := actions[|actions| - 1];
      Expiries(actions[..|actions| - 1], id) + (if a == Expire(id) then 1 else 0)
  }

  /** The alarms that are still to be dealt with. */
  function Ringing<R>(s: State<R>, id: nat): nat {
    (if id in s.timers then 1 else 0) + (if At(s, id, Failing) then 1 else 0) + s.expiring[id]
  }

  /** In every run a timeout is handled only for a timer that was set or a send that failed, and once for each: a
      request that was sent and has no timer never times out. */
  lemma {:induction false} NoFalseAlarm<R>(actions: seq<Action<R>>, id: nat)
    requires CanRun(actions)
    ensures Ringing(Run(actions), id) + Expiries(actions, id) <= Alarms(actions, id)
    ensures Track(actions, id) == Done(TimedOut) ==> Expiries(actions, id) > 0
    ensures id !in Run(actions).calls ==> Ringing(Run(actions), id) == 0
    decreases |actions|
  {
    if actions != [] {
      var before := actions[..|actions| - 1];
      NoFalseAlarm(before, id);
      RunMatches(before, Starts(before) + 1);
      StepAlarms(Run(before), actions[|actions| - 1], id);
    }
  }

  lemma StepAlarms<R>(s: State<R>, a: Action<R>, id: nat)
    requires Enabled(s, a) && s.tables.nextReqId !in s.calls && (id !in s.calls ==> Ringing(s, id) == 0)
    ensures Ringing(Step(s, a), id) + (if a == Expire(id) then 1 else 0)
         <= Ringing(s, id) + (if a == Arm(id, true) || a == Send(id, false) then 1 else 0)
    ensures id !in Step(s, a).calls ==> Ringing(Step(s, a), id) == 0
  {
  }

  /** Promises belong to blocking calls, callbacks to the others. */
  ghost predicate OfKind<R>(s: State<R>, id: nat) {
    && (id in s.tables.promises ==> id in s.calls && s.calls[id].blocking)
    && (id in s.tables.callbacks ==> id in s.calls && !s.calls[id].blocking)
  }

  /** In every run each entry is in the table of its kind. */
  lemma {:induction false} RunOfKind<R>(actions: seq<Action<R>>, id: nat)
    requires CanRun(actions)
    ensures OfKind(Run(actions), id)
    decreases |actions|
  {
    if actions != [] {
      var before := actions[..|actions| - 1];
      RunOfKind(before, id);
      RunMatches(before, Starts(before) + 1);
      StepOfKind(Run(before), actions[|actions| - 1], id);
    }
  }

  lemma StepOfKind<R>(s: State<R>, a: Action<R>, id: nat)
    requires Enabled(s, a) && OfKind(s, id) && s.tables.nextReqId !in s.calls
    ensures OfKind(Step(s, a), id)
  {
    StepEnters(s, a, id);
    if id in s.calls {
      StepKeepsKinds(s, a, id);
    }
  }

  /** No step changes the kind of a call. */
  lemma StepKeepsKinds<R>(s: State<R>, a: Action<R>, id: nat)
    requires Enabled(s, a) && s.tables.nextReqId !in s.calls && id in s.calls
    ensures id in Step(s, a).calls && Step(s, a).calls[id].blocking == s.calls[id].blocking
  {
  }

  /** What a step puts into a table is of its kind. */
  lemma StepEnters<R>(s: State<R>, a: Action<R>, id: nat)
    requires Enabled(s, a)
    ensures var t, t' := s.tables, Step(s, a).tables;
            && (id in t'.promises ==> id in t.promises || (a == Register(id) && s.calls[id].blocking))
            && (id in t'.callbacks ==> id in t.callbacks || (a == Register(id) && !s.calls[id].blocking))
  {
    if !a.Register? {
      EntersNothing(s, a);
    }
  }

  lemma EntersNothing<R>(s: State<R>, a: Action<R>)
    requires Enabled(s, a) && !a.Register?
    ensures Step(s, a).tables.promises <= s.tables.promises && Step(s, a).tables.callbacks <= s.tables.callbacks
  {
  }

  // ---------- the class ----------

  function AfterTimeout<R>(t: Tables<R>, id: nat): Tables<R> {
    if t.destroyed then t else AfterComplete(t, id, TimedOut)
  }

  /** What decides the course of one call: whether it blocks, goes through a chain, is refused there, sets a timer,
      and whether its packet reaches a connection. */
  datatype Course = Course(blocking: bool, chained: bool, refused: bool, timed: bool, sent: bool)

  ghost predicate Possible(c: Course) { (c.chained ==> c.blocking) && (c.refused ==> c.chained) }

  /** The first half of a call that is not refused: an id, an entry and perhaps a timer. */
  ghost function Entered<R>(s: State<R>, c: Course): State<R>
    requires !s.finished && Possible(c)
  {
    var id := s.tables.nextReqId;
    Step(Step(Step(s, Start(c.blocking, c.chained)), Register(id)), Arm(id, c.timed))
  }

  lemma EnteredIs<R>(s: State<R>, c: Course)
    requires !s.finished && Possible(c)
    ensures var id := s.tables.nextReqId;
            Entered(s, c) ==
              s.(tables := AfterRegister(s.tables.(nextReqId := id + 1), id, c.blocking),
                 calls := s.calls[id := Call(c.blocking, c.chained, Timed)],
                 timers := if c.timed then s.timers + {id} else s.timers)
  {
    Overwritten(s.calls, s.tables.nextReqId, Call(c.blocking, c.chained, Allocated),
                Call(c.blocking, c.chained, Registered));
    Overwritten(s.calls, s.tables.nextReqId, Call(c.blocking, c.chained, Registered),
                Call(c.blocking, c.chained, Timed));
  }

  lemma Overwritten(calls: map<nat, Call>, id: nat, a: Call, b: Call)
    ensures calls[id := a][id := b] == calls[id := b]
  {
  }

  /** The second half: the packet is sent, or the request is completed by the calling thread itself. */
  ghost function SentOff<R>(s: State<R>, id: nat, sent: bool): State<R>
    requires !s.finished && At(s, id, Timed)
  {
    if sent then Step(s, Send(id, true))
    else
      var s1 := Step(Step(s, Send(id, false)), Fail(id));
      if s.tables.destroyed then s1 else Step(s1, Expire(id))
  }

  lemma SentOffIs<R>(s: State<R>, id: nat, sent: bool)
    requires !s.finished && At(s, id, Timed)
    ensures SentOff(s, id, sent) ==
              s.(tables := if sent then s.tables else AfterTimeout(s.tables, id),
                 calls := s.calls[id := s.calls[id].(stage := Through)])
  {
    Overwritten(s.calls, id, s.calls[id].(stage := Failing), s.calls[id].(stage := Through));
    assert s.expiring + multiset{id} - multiset{id} == s.expiring;
  }

  /** One call, run without interruption up to the point where it waits, as steps of the machine above. */
  ghost function AfterCall<R>(s: State<R>, c: Course): State<R>
    requires !s.finished && Possible(c)
  {
    var id := s.tables.nextReqId;
    if c.refused then Step(Step(s, Start(c.blocking, c.chained)), Refuse(id))
    else
      EnteredIs(s, c);
      SentOff(Entered(s, c), id, c.sent)
  }

  /** The same, in terms of the tables. */
  function CallOutcome<R>(s: State<R>, c: Course): State<R> {
    var id := s.tables.nextReqId;
    var t := s.tables.(nextReqId := id + 1);
    var calls := s.calls[id := Call(c.blocking, c.chained, Through)];
    if c.refused then s.(tables := t.(log := t.log + [Completion(id, Refused)]), calls := calls)
    else
      var t1 := AfterRegister(t, id, c.blocking);
      s.(tables := if c.sent then t1 else AfterTimeout(t1, id), calls := calls,
         timers := if c.timed then s.timers + {id} else s.timers)
  }

  lemma CallResult<R>(s: State<R>, c: Course)
    requires !s.finished && Possible(c)
    ensures AfterCall(s, c) == CallOutcome(s, c)
  {
    var id := s.tables.nextReqId;
    var call := Call(c.blocking, c.chained, Through);
    if c.refused {
      Overwritten(s.calls, id, Call(c.blocking, c.chained, Allocated), call);
    } else {
      EnteredIs(s, c);
      SentOffIs(Entered(s, c), id, c.sent);
      Overwritten(s.calls, id, Call(c.blocking, c.chained, Timed), call);
    }
  }

  function AfterPackets<Q, R>(t: Tables<R>, packets: seq<Packet<Q, R>>): Tables<R> {
    if packets == [] then t
    else AfterPacket(AfterPackets(t, packets[..|packets| - 1]), packets[|packets| - 1])
  }

  function AfterPacket<Q, R>(t: Tables<R>, p: Packet<Q, R>): Tables<R> {
    if p.msgType == RESPONSE then AfterComplete(t, p.reqId, Response(p.response)) else t
  }

  // ---------- whole methods as runs ----------

  lemma RunSnoc<R>(actions: seq<Action<R>>, a: Action<R>)
    requires CanRun(actions) && Enabled(Run(actions), a)
    ensures CanRun(actions + [a]) && Run(actions + [a]) == Step(Run(actions), a)
  {
    var whole := actions + [a];
    assert whole[..|whole| - 1] == actions && whole[|whole| - 1] == a;
    assert CanRun(whole);
  }

  /** The run goes on with more and ends in s. */
  ghost predicate Leads<R>(actions: seq<Action<R>>, more: seq<Action<R>>, s: State<R>) {
    CanRun(actions + more) && Run(actions + more) == s
  }

  lemma LeadsOn<R>(actions: seq<Action<R>>, more: seq<Action<R>>, s: State<R>, a: Action<R>)
    requires Leads(actions, more, s) && Enabled(s, a)
    ensures Leads(actions, more + [a], Step(s, a))
  {
    RunSnoc(actions + more, a);
    Associate(actions, more, [a]);
  }

  /** handleTimeout in the loop thread: a timer fires, and unless the flag is up the lock is taken. */
  lemma TimeoutIsRun<R>(actions: seq<Action<R>>, id: nat) returns (more: seq<Action<R>>)
    requires CanRun(actions) && !Run(actions).finished && id in Run(actions).timers
    ensures var s := Run(actions);
            Leads(actions, more, s.(tables := AfterTimeout(s.tables, id), timers := s.timers - {id}))
  {
    var s := Run(actions);
    assert actions + [] == actions;
    LeadsOn(actions, [], s, Fire(id));
    more := [] + [Fire(id)];
    if !s.tables.destroyed {
      var s1 := Step(s, Fire(id));
      assert s1.expiring - multiset{id} == s.expiring;
      LeadsOn(actions, more, s1, Expire(id));
      more := more + [Expire(id)];
    }
  }

  /** onMessage: the responses among the drained packets, one locked section each. */
  lemma {:induction false} PacketsAreRun<Q, R>(actions: seq<Action<R>>, packets: seq<Packet<Q, R>>)
    returns (more: seq<Action<R>>)
    requires CanRun(actions) && !Run(actions).finished
    ensures var s := Run(actions);
            Leads(actions, more, s.(tables := AfterPackets(s.tables, packets)))
    decreases |packets|
  {
    var s := Run(actions);
    if packets == [] {
      more := [];
      assert actions + [] == actions;
    } else {
      var before, p := packets[..|packets| - 1], packets[|packets| - 1];
      more := PacketsAreRun(actions, before);
      if p.msgType == RESPONSE {
        LeadsOn(actions, more, s.(tables := AfterPackets(s.tables, before)), Respond(p.reqId, p.response));
        more := more + [Respond(p.reqId, p.response)];
      }
    }
  }

  /** The destructor: the flag, and then the tables. */
  lemma DestructIsRun<R>(actions: seq<Action<R>>, promises: seq<nat>, callbacks: seq<nat>)
    requires CanRun(actions) && !Run(actions).finished && !Run(actions).tables.destroyed
    requires Lists(promises, Run(actions).tables.promises) && Lists(callbacks, Run(actions).tables.callbacks)
    ensures var s := Run(actions);
            Leads(actions, [] + [Destroy] + [Finish(promises, callbacks)],
                  s.(tables := AfterDrain(s.tables.(destroyed := true), promises, callbacks), finished := true))
  {
    var s := Run(actions);
    assert actions + [] == actions;
    LeadsOn(actions, [], s, Destroy);
    LeadsOn(actions, [] + [Destroy], Step(s, Destroy), Finish(promises, callbacks));
  }

  lemma EnterIsRun<R>(actions: seq<Action<R>>, s: State<R>, c: Course) returns (more: seq<Action<R>>)
    requires Leads(actions, [], s) && !s.finished && Possible(c)
    ensures Leads(actions, more, Entered(s, c))
  {
    var id := s.tables.nextReqId;
    var s1 := Step(s, Start(c.blocking, c.chained));
    var s2 := Step(s1, Register(id));
    LeadsOn(actions, [], s, Start(c.blocking, c.chained));
    more := [] + [Start(c.blocking, c.chained)];
    LeadsOn(actions, more, s1, Register(id));
    more := more + [Register(id)];
    LeadsOn(actions, more, s2, Arm(id, c.timed));
    more := more + [Arm(id, c.timed)];
  }

  lemma RefuseIsRun<R>(actions: seq<Action<R>>, s: State<R>, c: Course) returns (more: seq<Action<R>>)
    requires Leads(actions, [], s) && !s.finished && Possible(c) && c.refused
    ensures Leads(actions, more, AfterCall(s, c))
  {
    var id := s.tables.nextReqId;
    LeadsOn(actions, [], s, Start(c.blocking, c.chained));
    more := [] + [Start(c.blocking, c.chained)];
    LeadsOn(actions, more, Step(s, Start(c.blocking, c.chained)), Refuse(id));
    more := more + [Refuse(id)];
  }

  /** asyncCall up to the point where the caller waits. */
  lemma CallIsRun<R>(actions: seq<Action<R>>, c: Course) returns (more: seq<Action<R>>)
    requires CanRun(actions) && !Run(actions).finished && Possible(c)
    ensures Leads(actions, more, CallOutcome(Run(actions), c))
  {
    var s := Run(actions);
    CallResult(s, c);
    assert actions + [] == actions;
    if c.refused {
      more := RefuseIsRun(actions, s, c);
    } else {
      more := EnterIsRun(actions, s, c);
      EnteredIs(s, c);
      more := SendIsRun(actions, more, Entered(s, c), s.tables.nextReqId, c.sent);
    }
  }

  lemma SendIsRun<R>(actions: seq<Action<R>>, so: seq<Action<R>>, s: State<R>, id: nat, sent: bool)
    returns (more: seq<Action<R>>)
    requires Leads(actions, so, s) && !s.finished && At(s, id, Timed)
    ensures Leads(actions, more, SentOff(s, id, sent))
  {
    LeadsOn(actions, so, s, Send(id, sent));
    more := so + [Send(id, sent)];
    if !sent {
      var s1 := Step(s, Send(id, false));
      LeadsOn(actions, more, s1, Fail(id));
      more := more + [Fail(id)];
      if !s.tables.destroyed {
        LeadsOn(actions, more, Step(s1, Fail(id)), Expire(id));
        more := more + [Expire(id)];
      }
    }
  }

  class RpcAsyncClient<!Q, !R(!new)> {
    const schema: Schema<Q, R>
    var nextReqId: nat
    var pendingPromises: set<nat>
    var pendingCallbacks: set<nat>
    var destroyed: bool
    /** The requests whose timers are set, and where the calls are. */
    ghost var timers: set<nat>
    ghost var calls: map<nat, Call>
    ghost var log: seq<Completion<R>>

    ghost function St(): State<R>
      reads this
    {
      State(T(), calls, timers, multiset{}, false)
    }

    ghost function T(): Tables<R>
      reads this
    {
      Tables(nextReqId, pendingPromises, pendingCallbacks, destroyed, log)
    }

    constructor (schema: Schema<Q, R>)
      ensures this.schema == schema && St() == Init()
    {
      this.schema := schema;
      nextReqId, pendingPromises, pendingCallbacks, destroyed := 1, {}, {}, false;
      timers, calls, log := {}, map[], [];
    }

    method Register(id: nat, blocking: bool)
      modifies `pendingPromises, `pendingCallbacks
      ensures T() == AfterRegister(old(T()), id, blocking)
    {
      if blocking {
        pendingPromises := pendingPromises + {id};
      } else {
        pendingCallbacks := pendingCallbacks + {id};
      }
    }

    /** The locked section: the first table that has the id gives it up, and its caller gets the outcome. */
    method Complete(id: nat, outcome: Outcome<R>)
      modifies `pendingPromises, `pendingCallbacks, `log
      ensures T() == AfterComplete(old(T()), id, outcome)
    {
      if id in pendingPromises {
        pendingPromises := pendingPromises - {id};
        log := log + [Completion(id, outcome)];
        return;
      }
      if id in pendingCallbacks {
        pendingCallbacks := pendingCallbacks - {id};
        log := log + [Completion(id, outcome)];
      }
    }

    method HandleTimeout(id: nat)
      modifies `pendingPromises, `pendingCallbacks, `log
      ensures T() == AfterTimeout(old(T()), id)
    {
      if destroyed { return; }
      Complete(id, TimedOut);
    }

    /** Whether a connection takes the packet is the network's choice. */
    method SendRequest(id: nat, connected: bool)
      modifies `pendingPromises, `pendingCallbacks, `log
      ensures T() == if connected then old(T()) else AfterTimeout(old(T()), id)
    {
      if !connected {
        HandleTimeout(id);
      }
    }

    method AsyncCall(c: Course, encodes: bool, connected: bool) returns (id: nat)
      requires Possible(c) && c.sent == (encodes && connected)
      modifies this
      ensures id == old(nextReqId) && St() == CallOutcome(old(St()), c)
    {
      id := nextReqId;
      nextReqId := nextReqId + 1;
      calls := calls[id := Call(c.blocking, c.chained, Through)];
      if c.refused {
        log := log + [Completion(id, Refused)];
        return;
      }
      Register(id, c.blocking);
      if c.timed { timers := timers + {id}; }
      if !encodes {
        HandleTimeout(id);
      } else {
        SendRequest(id, connected);
      }
    }

    method HandleResponse(p: Packet<Q, R>)
      modifies `pendingPromises, `pendingCallbacks, `log
      ensures T() == AfterComplete(old(T()), p.reqId, Response(p.response))
    {
      Complete(p.reqId, Response(p.response));
    }

    method OnPacket(p: Packet<Q, R>, ghost start: Tables<R>, ghost done: seq<Packet<Q, R>>)
      requires T() == AfterPackets(start, done)
      modifies `pendingPromises, `pendingCallbacks, `log
      ensures T() == AfterPackets(start, done + [p])
    {
      assert (done + [p])[..|done|] == done;
      if p.msgType == RESPONSE {
        HandleResponse(p);
      }
    }

    /** The message callback completes the requests answered by the drained packets. */
    method OnMessage(buf: Buffer, blank: Packet<Q, R>)
      requires buf.Valid()
      modifies this, buf
      ensures buf.Valid() && buf.store == old(buf.store)
      ensures var d := Drain(schema, old(buf.Contents()), blank);
              buf.Contents() == d.rest && T() == AfterPackets(old(T()), d.packets)
    {
      ghost var data := buf.Contents();
      ghost var done: seq<Packet<Q, R>> := [];
      StartDrain(schema, data, blank);
      var p := blank;
      var ok := true;
      while ok
        invariant buf.Valid() && buf.store == old(buf.store)
        invariant Continues(schema, data, blank, done, ok, buf.Contents(), p)
        invariant T() == AfterPackets(old(T()), done)
        decreases ok, |buf.Contents()|
      {
        ok, p := Next(schema, buf, p, data, blank, done);
        if ok {
          OnPacket(p, old(T()), done);
          done := done + [p];
        }
      }
    }

    /** Gives every entry of a table the destructor's answer. */
    method AnswerAll(ids: set<nat>) returns (ghost order: seq<nat>)
      modifies `log
      ensures Lists(order, ids) && log == old(log) + AllDestroyed(order)
    {
      order := [];
      var left := ids;
      while left != {}
        invariant left <= ids && Lists(order, ids - left)
        invariant log == old(log) + AllDestroyed(order)
        decreases |left|
      {
        var id :| id in left;
        DestroyedSnoc<R>(order, id);
        log := log + [Completion(id, Destroyed)];
        order := order + [id];
        left := left - {id};
      }
      assert ids - left == ids;
    }

    /** The destructor: every entry of both tables gets its answer, and no other request does. */
    method Destruct() returns (ghost promises: seq<nat>, ghost callbacks: seq<nat>)
      modifies this
      ensures Lists(promises, old(pendingPromises)) && Lists(callbacks, old(pendingCallbacks))
      ensures T() == AfterDrain(old(T()).(destroyed := true), promises, callbacks)
    {
      destroyed := true;
      promises := AnswerAll(pendingPromises);
      pendingPromises := {};
      callbacks := AnswerAll(pendingCallbacks);
      pendingCallbacks := {};
    }
  }

  lemma {:induction false} DestroyedSnoc<R>(order: seq<nat>, id: nat)
    ensures AllDestroyed<R>(order + [id]) == AllDestroyed(order) + [Completion(id, Destroyed)]
    decreases |order|
  {
    if order != [] {
      assert (order + [id])[1..] == order[1..] + [id];
      DestroyedSnoc<R>(order[1..], id);
    }
  }
}
