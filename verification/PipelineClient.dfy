/** The single-threaded pipelining client: many requests in flight, matched to responses by id, each
    completed once by its response or by a sweep after its deadline. */
module PipelineClient {
  import opened Bytes
  import opened ByteBuffer
  import opened Codec
  import opened Framing
  import opened DrainLoop

  const NANOS_PER_MS: int := 1_000_000
  const DEFAULT_TIMEOUT_MS: int := 3000
  const MAX_WAIT_MS: int := 3600 * 1000
  const IDLE_WAIT_MS: int := 1000

  /** Times are in nanoseconds of the steady clock. */
  datatype Pending = Pending(sentAt: int, deadline: int)

  datatype Outcome<+R> = Response(response: R) | TimedOut

  datatype Completion<+R> = Completion(id: nat, outcome: Outcome<R>)

  /** A call of submit: whether a connection is up, whether the request encodes, the timeout and the time. */
  datatype Submission = Submission(connected: bool, encodes: bool, timeoutMs: int, now: int)

  /** The client's tables, with three history variables: the ids for which submit returned true, the ids of the
      packets handed to the connection, in order, and the callbacks that have run. */
  datatype State<R> = State(
    pending: map<nat, Pending>, nextId: nat, completions: nat, issued: set<nat>, sent: seq<nat>,
    log: seq<Completion<R>>)

  function Init<R>(): State<R> {
    State(map[], 1, 0, {}, [], [])
  }

  // ---------- one step at a time ----------

  function AfterSubmit<R>(s: State<R>, c: Submission): State<R> {
    if !c.connected then s
    else if !c.encodes then s.(nextId := s.nextId + 1)
    else
      var timeout := if c.timeoutMs > 0 then c.timeoutMs else DEFAULT_TIMEOUT_MS;
      s.(nextId := s.nextId + 1,
         pending := s.pending[s.nextId := Pending(c.now, c.now + timeout * NANOS_PER_MS)],
         issued := s.issued + {s.nextId}, sent := s.sent + [s.nextId])
  }

  function AfterSubmits<R>(s: State<R>, calls: seq<Submission>): State<R>
    decreases |calls|
  {
    if calls == [] then s else AfterSubmits(AfterSubmit(s, calls[0]), calls[1..])
  }

  /** A callback runs and is counted. The callback of request id makes the submissions plan(id). */
  function AfterCallback<R>(plan: nat -> seq<Submission>, s: State<R>, id: nat, outcome: Outcome<R>): State<R> {
    var s1 := AfterSubmits(s.(log := s.log + [Completion(id, outcome)]), plan(id));
    s1.(completions := s1.completions + 1)
  }

  /** The body of the decode loop. */
  function AfterPacket<Q, R>(plan: nat -> seq<Submission>, s: State<R>, p: Packet<Q, R>): State<R> {
    if p.msgType != RESPONSE || p.reqId !in s.pending then s
    else AfterCallback(plan, s.(pending := s.pending - {p.reqId}), p.reqId, Response(p.response))
  }

  function AfterPackets<Q, R>(plan: nat -> seq<Submission>, s: State<R>, packets: seq<Packet<Q, R>>): State<R>
    decreases |packets|
  {
    if packets == [] then s else AfterPackets(plan, AfterPacket(plan, s, packets[0]), packets[1..])
  }

  function Expired(pending: map<nat, Pending>, now: int): set<nat> {
    set id | id in pending && pending[id].deadline <= now
  }

  function AfterTimeouts<R>(plan: nat -> seq<Submission>, s: State<R>, ids: seq<nat>): State<R>
    decreases |ids|
  {
    if ids == [] then s else AfterTimeouts(plan, AfterCallback(plan, s, ids[0], TimedOut), ids[1..])
  }

  /** A sweep: all expired requests leave the table, then their callbacks run in the order found. */
  function AfterSweep<R>(plan: nat -> seq<Submission>, s: State<R>, now: int, order: seq<nat>): State<R> {
    AfterTimeouts(plan, s.(pending := s.pending - Expired(s.pending, now)), order)
  }

  // ---------- every id is pending or completed, never both ----------

  ghost predicate Logged<R>(log: seq<Completion<R>>, id: nat) {
    exists i :: 0 <= i < |log| && log[i].id == id
  }

  /** No callback has run twice. */
  ghost predicate Once<R>(log: seq<Completion<R>>) {
    forall i, j :: 0 <= i < j < |log| ==> log[i].id != log[j].id
  }

  /** owed are requests already taken out of the table whose callbacks have yet to run. */
  ghost predicate InvOwing<R>(s: State<R>, owed: set<nat>) {
    && Once(s.log)
    && (forall id :: id in s.issued ==> id < s.nextId)
    && (forall id :: id in s.issued <==> id in s.sent)
    && (forall i, j :: 0 <= i < j < |s.sent| ==> s.sent[i] < s.sent[j])
    && (forall id :: id in s.issued <==> id in s.pending || id in owed || Logged(s.log, id))
    && (forall id :: id in s.pending ==> id !in owed && !Logged(s.log, id))
    && (forall id :: id in owed ==> !Logged(s.log, id))
  }

  /** The issued ids are the disjoint union of the pending and the completed ones, and each of them was sent once,
      in order. */
  ghost predicate Inv<R>(s: State<R>) {
    InvOwing(s, {})
  }

  lemma InitInv<R>()
    ensures Inv(Init<R>())
  {
  }

  lemma SubmitInv<R>(s: State<R>, c: Submission, owed: set<nat>)
    requires InvOwing(s, owed)
    ensures InvOwing(AfterSubmit(s, c), owed)
  {
    if c.connected && c.encodes {
      var sent := AfterSubmit(s, c).sent;
      forall i, j | 0 <= i < j < |sent| ensures sent[i] < sent[j] {
        assert s.sent[i] in s.sent;
      }
    }
  }

  lemma {:induction false} SubmitsInv<R>(s: State<R>, calls: seq<Submission>, owed: set<nat>)
    requires InvOwing(s, owed)
    ensures InvOwing(AfterSubmits(s, calls), owed)
    decreases |calls|
  {
    if calls != [] {
      SubmitInv(s, calls[0], owed);
      SubmitsInv(AfterSubmit(s, calls[0]), calls[1..], owed);
    }
  }

  lemma CallbackInv<R>(plan: nat -> seq<Submission>, s: State<R>, id: nat, outcome: Outcome<R>, owed: set<nat>)
    requires InvOwing(s, owed) && id in owed
    ensures InvOwing(AfterCallback(plan, s, id, outcome), owed - {id})
  {
    var s1 := s.(log := s.log + [Completion(id, outcome)]);
    assert InvOwing(s1, owed - {id}) by {
      forall x ensures Logged(s1.log, x) <==> Logged(s.log, x) || x == id {
        if Logged(s.log, x) {
          var i :| 0 <= i < |s.log| && s.log[i].id == x;
          assert s1.log[i].id == x;
        }
        if x == id {
          assert s1.log[|s.log|].id == x;
        }
      }
    }
    SubmitsInv(s1, plan(id), owed - {id});
  }

  lemma PacketInv<Q, R>(plan: nat -> seq<Submission>, s: State<R>, p: Packet<Q, R>)
    requires Inv(s)
    ensures Inv(AfterPacket(plan, s, p))
  {
    if p.msgType == RESPONSE && p.reqId in s.pending {
      var taken := s.(pending := s.pending - {p.reqId});
      assert InvOwing(taken, {p.reqId});
      CallbackInv(plan, taken, p.reqId, Response(p.response), {p.reqId});
      assert {p.reqId} - {p.reqId} == {};
    }
  }

  lemma {:induction false} TimeoutsInv<R>(plan: nat -> seq<Submission>, s: State<R>, ids: seq<nat>, owed: set<nat>)
    requires InvOwing(s, owed) && Lists(ids, owed)
    ensures Inv(AfterTimeouts(plan, s, ids))
    decreases |ids|
  {
    if ids == [] {
      assert owed == {};
    } else {
      CallbackInv(plan, s, ids[0], TimedOut, owed);
      ListsTail(ids, owed);
      TimeoutsInv(plan, AfterCallback(plan, s, ids[0], TimedOut), ids[1..], owed - {ids[0]});
    }
  }

  lemma SweepInv<R>(plan: nat -> seq<Submission>, s: State<R>, now: int, order: seq<nat>)
    requires Inv(s) && Lists(order, Expired(s.pending, now))
    ensures Inv(AfterSweep(plan, s, now, order))
  {
    var expired := Expired(s.pending, now);
    var taken := s.(pending := s.pending - expired);
    assert InvOwing(taken, expired);
    TimeoutsInv(plan, taken, order, expired);
  }

  // ---------- whole runs ----------

  /** What happens to a client: calls from outside, packets one by one, and sweeps. Calls from inside callbacks are
      part of the plan. */
  datatype Event<Q, R> = Call(call: Submission) | Arrive(packet: Packet<Q, R>) | SweepAt(now: int, order: seq<nat>)

  function Step<Q, R>(plan: nat -> seq<Submission>, s: State<R>, e: Event<Q, R>): State<R> {
    match e
    case Call(c) => AfterSubmit(s, c)
    case Arrive(p) => AfterPacket(plan, s, p)
    case SweepAt(now, order) => AfterSweep(plan, s, now, order)
  }

  function Run<Q, R>(plan: nat -> seq<Submission>, s: State<R>, events: seq<Event<Q, R>>): State<R>
    decreases |events|
  {
    if events == [] then s else Run(plan, Step(plan, s, events[0]), events[1..])
  }

  /** Every sweep finds exactly the requests that have expired by then, in some order. */
  ghost predicate Possible<Q, R>(plan: nat -> seq<Submission>, s: State<R>, events: seq<Event<Q, R>>)
    decreases |events|
  {
    events == [] ||
    (&& (events[0].SweepAt? ==> Lists(events[0].order, Expired(s.pending, events[0].now)))
     && Possible(plan, Step(plan, s, events[0]), events[1..]))
  }

  lemma StepInv<Q, R>(plan: nat -> seq<Submission>, s: State<R>, e: Event<Q, R>)
    requires Inv(s) && (e.SweepAt? ==> Lists(e.order, Expired(s.pending, e.now)))
    ensures Inv(Step(plan, s, e))
  {
    match e
    case Call(c) => SubmitInv(s, c, {});
    case Arrive(p) => PacketInv(plan, s, p);
    case SweepAt(now, order) => SweepInv(plan, s, now, order);
  }

  /** In every run the issued ids are the disjoint union of the pending and the completed ones, and no
      callback runs twice. */
  lemma {:induction false} ExactlyOnce<Q, R>(plan: nat -> seq<Submission>, s: State<R>, events: seq<Event<Q, R>>)
    requires Inv(s) && Possible(plan, s, events)
    ensures Inv(Run(plan, s, events))
    decreases |events|
  {
    if events != [] {
      StepInv(plan, s, events[0]);
      ExactlyOnce(plan, Step(plan, s, events[0]), events[1..]);
    }
  }

  // ---------- what completes a request ----------

  /** The outcome that one event brings about for a request with the given deadline. */
  function EventFate<Q, R>(e: Event<Q, R>, id: nat, deadline: int): Option<Outcome<R>> {
    match e
    case Call(_) => None
    case Arrive(p) => if p.msgType == RESPONSE && p.reqId == id then Some(Response(p.response)) else None
    case SweepAt(now, _) => if deadline <= now then Some(TimedOut) else None
  }

  /** Whichever comes first: a response to the request, or a sweep at or after its deadline. */
  function Fate<Q, R>(events: seq<Event<Q, R>>, id: nat, deadline: int): Option<Outcome<R>> {
    if events == [] then None
    else
      var first := EventFate(events[0], id, deadline);
      if first.Some? then first else Fate(events[1..], id, deadline)
  }

  /** id is still waiting under the same terms, or has been completed with the outcome. */
  ghost predicate Settled<R>(s: State<R>, id: nat, was: Pending, outcome: Option<Outcome<R>>) {
    match outcome
    case None => id in s.pending && s.pending[id] == was
    case Some(o) => id !in s.pending && Completion(id, o) in s.log
  }

  /** Steps that do not concern id: the table entry stays, or it is gone for good and the log keeps it. */
  lemma SubmitKeeps<R>(s: State<R>, c: Submission, id: nat, was: Pending, o: Option<Outcome<R>>)
    requires id < s.nextId && Settled(s, id, was, o)
    ensures id < AfterSubmit(s, c).nextId && Settled(AfterSubmit(s, c), id, was, o)
  {
  }

  lemma {:induction false} SubmitsKeep<R>(s: State<R>, calls: seq<Submission>, id: nat, was: Pending,
                                          o: Option<Outcome<R>>)
    requires id < s.nextId && Settled(s, id, was, o)
    ensures id < AfterSubmits(s, calls).nextId && Settled(AfterSubmits(s, calls), id, was, o)
    decreases |calls|
  {
    if calls != [] {
      SubmitKeeps(s, calls[0], id, was, o);
      SubmitsKeep(AfterSubmit(s, calls[0]), calls[1..], id, was, o);
    }
  }

  lemma CallbackKeeps<R>(plan: nat -> seq<Submission>, s: State<R>, other: nat, outcome: Outcome<R>,
                         id: nat, was: Pending, o: Option<Outcome<R>>)
    requires id < s.nextId && Settled(s, id, was, o)
    ensures var s' := AfterCallback(plan, s, other, outcome);
            id < s'.nextId && Settled(s', id, was, o)
  {
    var s1 := s.(log := s.log + [Completion(other, outcome)]);
    assert Settled(s1, id, was, o);
    SubmitsKeep(s1, plan(other), id, was, o);
  }

  lemma CallbackSettles<R>(plan: nat -> seq<Submission>, s: State<R>, id: nat, outcome: Outcome<R>, was: Pending)
    requires id < s.nextId && id !in s.pending
    ensures var s' := AfterCallback(plan, s, id, outcome);
            id < s'.nextId && Settled(s', id, was, Some(outcome))
  {
    var s1 := s.(log := s.log + [Completion(id, outcome)]);
    assert s1.log[|s.log|] == Completion(id, outcome);
    SubmitsKeep(s1, plan(id), id, was, Some(outcome));
  }

  lemma PacketSettles<Q, R>(plan: nat -> seq<Submission>, s: State<R>, p: Packet<Q, R>, id: nat, was: Pending,
                            o: Option<Outcome<R>>)
    requires id < s.nextId && Settled(s, id, was, o)
    ensures var s' := AfterPacket(plan, s, p);
            && id < s'.nextId
            && Settled(s', id, was, if o.Some? then o else EventFate(Arrive(p), id, was.deadline))
  {
    if p.msgType == RESPONSE && p.reqId in s.pending {
      var taken := s.(pending := s.pending - {p.reqId});
      if p.reqId == id {
        CallbackSettles(plan, taken, id, Response(p.response), was);
      } else {
        CallbackKeeps(plan, taken, p.reqId, Response(p.response), id, was, o);
      }
    }
  }

  lemma {:induction false} TimeoutsKeep<R>(plan: nat -> seq<Submission>, s: State<R>, ids: seq<nat>,
                                              id: nat, was: Pending, o: Option<Outcome<R>>)
    requires id < s.nextId && Settled(s, id, was, o)
    ensures var s' := AfterTimeouts(plan, s, ids);
            id < s'.nextId && Settled(s', id, was, o)
    decreases |ids|
  {
    if ids != [] {
      CallbackKeeps(plan, s, ids[0], TimedOut, id, was, o);
      TimeoutsKeep(plan, AfterCallback(plan, s, ids[0], TimedOut), ids[1..], id, was, o);
    }
  }

  lemma {:induction false} TimeoutsSettle<R>(plan: nat -> seq<Submission>, s: State<R>, ids: seq<nat>, id: nat,
                                             was: Pending)
    requires id < s.nextId && id !in s.pending && id in ids
    ensures var s' := AfterTimeouts(plan, s, ids);
            id < s'.nextId && Settled(s', id, was, Some(TimedOut))
    decreases |ids|
  {
    var next := AfterCallback(plan, s, ids[0], TimedOut);
    if ids[0] == id {
      CallbackSettles(plan, s, id, TimedOut, was);
      TimeoutsKeep(plan, next, ids[1..], id, was, Some(TimedOut));
    } else {
      AbsentKept(s.(log := s.log + [Completion(ids[0], TimedOut)]), plan(ids[0]), id);
      TimeoutsSettle(plan, next, ids[1..], id, was);
    }
  }

  lemma {:induction false} AbsentKept<R>(s: State<R>, calls: seq<Submission>, id: nat)
    requires id < s.nextId && id !in s.pending
    ensures id < AfterSubmits(s, calls).nextId && id !in AfterSubmits(s, calls).pending
    decreases |calls|
  {
    if calls != [] {
      AbsentKept(AfterSubmit(s, calls[0]), calls[1..], id);
    }
  }

  lemma StepSettles<Q, R>(plan: nat -> seq<Submission>, s: State<R>, e: Event<Q, R>, id: nat, was: Pending,
                          o: Option<Outcome<R>>)
    requires id < s.nextId && Settled(s, id, was, o)
    requires e.SweepAt? ==> Lists(e.order, Expired(s.pending, e.now))
    ensures var s' := Step(plan, s, e);
            id < s'.nextId && Settled(s', id, was, if o.Some? then o else EventFate(e, id, was.deadline))
  {
    match e
    case Call(c) => SubmitKeeps(s, c, id, was, o);
    case Arrive(p) => PacketSettles(plan, s, p, id, was, o);
    case SweepAt(now, order) =>
      var taken := s.(pending := s.pending - Expired(s.pending, now));
      if o.None? && was.deadline <= now {
        assert id in order;
        TimeoutsSettle(plan, taken, order, id, was);
      } else {
        TimeoutsKeep(plan, taken, order, id, was, o);
      }
  }

  /** In every run a pending request is completed by the first response to it or by the first sweep at
      or after its deadline, whichever comes first, and by nothing else. */
  lemma {:induction false} RunSettles<Q, R>(plan: nat -> seq<Submission>, s: State<R>, events: seq<Event<Q, R>>,
                                            id: nat, was: Pending, o: Option<Outcome<R>>)
    requires id < s.nextId && Settled(s, id, was, o) && Possible(plan, s, events)
    ensures Settled(Run(plan, s, events), id, was, if o.Some? then o else Fate(events, id, was.deadline))
    decreases |events|
  {
    if events != [] {
      StepSettles(plan, s, events[0], id, was, o);
      var o' := if o.Some? then o else EventFate(events[0], id, was.deadline);
      RunSettles(plan, Step(plan, s, events[0]), events[1..], id, was, o');
    }
  }

  // ---------- which submission issued a request, and on what terms ----------

  /** The terms that a submission asks for: the deadline is its timeout after it, or three seconds if it gives none. */
  function Terms(c: Submission): Pending {
    Pending(c.now, if c.timeoutMs > 0 then c.now + c.timeoutMs * 1_000_000 else c.now + 3_000_000_000)
  }

  /** How many of the submissions take an id: those made on a connection that is up. */
  function Numbered(calls: seq<Submission>): nat {
    if calls == [] then 0 else Numbered(calls[..|calls| - 1]) + (if calls[|calls| - 1].connected then 1 else 0)
  }

  /** What the callbacks of the requests submit, one after the other. */
  function Planned(plan: nat -> seq<Submission>, ids: seq<nat>): seq<Submission> {
    if ids == [] then [] else plan(ids[0]) + Planned(plan, ids[1..])
  }

  /** The submissions that an event makes, from outside or in the callbacks that it runs. */
  function Made<Q, R>(plan: nat -> seq<Submission>, s: State<R>, e: Event<Q, R>): seq<Submission> {
    match e
    case Call(c) => [c]
    case Arrive(p) => if p.msgType == RESPONSE && p.reqId in s.pending then plan(p.reqId) else []
    case SweepAt(_, order) => Planned(plan, order)
  }

  /** The i-th of the submissions is accepted and gets the id. */
  ghost predicate Issues(calls: seq<Submission>, i: nat, from: nat, id: nat) {
    i < |calls| && calls[i].connected && calls[i].encodes && id == from + Numbered(calls[..i])
  }

  lemma {:induction false} NumberedHead(calls: seq<Submission>)
    requires calls != []
    ensures Numbered(calls) == (if calls[0].connected then 1 else 0) + Numbered(calls[1..])
    decreases |calls|
  {
    var front := calls[..|calls| - 1];
    if front == [] {
      assert Numbered(calls[1..]) == 0 && Numbered(front) == 0;
    } else {
      NumberedHead(front);
      assert calls[1..][..|calls| - 2] == front[1..];
    }
  }

  lemma IssuesLater(calls: seq<Submission>, i: nat, from: nat, id: nat)
    requires calls != []
    ensures Issues(calls[1..], i, from + (if calls[0].connected then 1 else 0), id) <==> Issues(calls, i + 1, from, id)
  {
    if i + 1 < |calls| {
      assert calls[..i + 1][1..] == calls[1..][..i];
      NumberedHead(calls[..i + 1]);
    }
  }

  /** A request that is issued by a series of submissions is issued by one of them, on the terms of that one. */
  lemma {:induction false} SubmitsIssue<R>(s: State<R>, calls: seq<Submission>, id: nat) returns (i: nat)
    requires id !in s.issued && id in AfterSubmits(s, calls).issued
    ensures Issues(calls, i, s.nextId, id) && id < AfterSubmits(s, calls).nextId
    ensures id in AfterSubmits(s, calls).pending && AfterSubmits(s, calls).pending[id] == Terms(calls[i])
    decreases |calls|
  {
    var s1 := AfterSubmit(s, calls[0]);
    if id in s1.issued {
      i := 0;
      assert Numbered(calls[..0]) == 0;
      SubmitsKeep(s1, calls[1..], id, Terms(calls[0]), None);
    } else {
      i := SubmitsIssue(s1, calls[1..], id);
      IssuesLater(calls, i, s.nextId, id);
      i := i + 1;
    }
  }

  lemma {:induction false} IssuedStays<R>(s: State<R>, calls: seq<Submission>, id: nat)
    requires id in s.issued
    ensures id in AfterSubmits(s, calls).issued
    decreases |calls|
  {
    if calls != [] {
      IssuedStays(AfterSubmit(s, calls[0]), calls[1..], id);
    }
  }

  /** And every submission that is accepted issues a request. */
  lemma {:induction false} SubmissionIssues<R>(s: State<R>, calls: seq<Submission>, i: nat, id: nat)
    requires Issues(calls, i, s.nextId, id)
    ensures id in AfterSubmits(s, calls).issued
    decreases |calls|
  {
    if i == 0 {
      assert Numbered(calls[..0]) == 0;
      IssuedStays(AfterSubmit(s, calls[0]), calls[1..], id);
    } else {
      IssuesLater(calls, i - 1, s.nextId, id);
      SubmissionIssues(AfterSubmit(s, calls[0]), calls[1..], i - 1, id);
    }
  }

  /** The two states agree in all that submissions look at and change. */
  ghost predicate Agree<R>(s: State<R>, t: State<R>) {
    s.pending == t.pending && s.nextId == t.nextId && s.issued == t.issued && s.sent == t.sent
  }

  lemma {:induction false} SubmitsAgree<R>(s: State<R>, t: State<R>, calls: seq<Submission>)
    requires Agree(s, t)
    ensures Agree(AfterSubmits(s, calls), AfterSubmits(t, calls))
    decreases |calls|
  {
    if calls != [] {
      SubmitsAgree(AfterSubmit(s, calls[0]), AfterSubmit(t, calls[0]), calls[1..]);
    }
  }

  lemma {:induction false} SubmitsConcat<R>(s: State<R>, a: seq<Submission>, b: seq<Submission>)
    ensures AfterSubmits(s, a + b) == AfterSubmits(AfterSubmits(s, a), b)
    decreases |a|
  {
    if a == [] {
      assert a + b == b;
    } else {
      assert (a + b)[1..] == a[1..] + b;
      SubmitsConcat(AfterSubmit(s, a[0]), a[1..], b);
    }
  }

  lemma CallbackSubmits<R>(plan: nat -> seq<Submission>, s: State<R>, id: nat, outcome: Outcome<R>)
    ensures Agree(AfterCallback(plan, s, id, outcome), AfterSubmits(s, plan(id)))
  {
    SubmitsAgree(s.(log := s.log + [Completion(id, outcome)]), s, plan(id));
  }

  lemma {:induction false} TimeoutsSubmit<R>(plan: nat -> seq<Submission>, s: State<R>, ids: seq<nat>)
    ensures Agree(AfterTimeouts(plan, s, ids), AfterSubmits(s, Planned(plan, ids)))
    decreases |ids|
  {
    if ids != [] {
      var s1 := AfterCallback(plan, s, ids[0], TimedOut);
      CallbackSubmits(plan, s, ids[0], TimedOut);
      TimeoutsSubmit(plan, s1, ids[1..]);
      SubmitsAgree(s1, AfterSubmits(s, plan(ids[0])), Planned(plan, ids[1..]));
      SubmitsConcat(s, plan(ids[0]), Planned(plan, ids[1..]));
    }
  }

  /** What an event does to the numbering and the terms is what its submissions do, once the completed requests have
      left the table. */
  lemma StepSubmits<Q, R>(plan: nat -> seq<Submission>, s: State<R>, e: Event<Q, R>) returns (taken: State<R>)
    ensures taken == s.(pending := taken.pending)
    ensures Agree(Step(plan, s, e), AfterSubmits(taken, Made(plan, s, e)))
  {
    taken := s;
    match e
    case Call(c) =>
      assert AfterSubmits(AfterSubmit(s, c), [c][1..]) == AfterSubmit(s, c);
    case Arrive(p) =>
      if p.msgType == RESPONSE && p.reqId in s.pending {
        taken := s.(pending := s.pending - {p.reqId});
        CallbackSubmits(plan, taken, p.reqId, Response(p.response));
      }
    case SweepAt(now, order) =>
      taken := s.(pending := s.pending - Expired(s.pending, now));
      TimeoutsSubmit(plan, taken, order);
  }

  /** The request comes from submission c, which the k-th event makes, and waits on its terms from then on. */
  ghost predicate IssuedBy<Q, R>(plan: nat -> seq<Submission>, s: State<R>, events: seq<Event<Q, R>>, k: nat, i: nat,
                                 id: nat, c: Submission)
    requires k < |events|
  {
    var before, after := Run(plan, s, events[..k]), Run(plan, s, events[..k + 1]);
    var calls := Made(plan, before, events[k]);
    && id !in before.issued && Issues(calls, i, before.nextId, id) && calls[i] == c
    && id in after.pending && after.pending[id] == Terms(c)
  }

  lemma IssuedByLater<Q, R>(plan: nat -> seq<Submission>, s: State<R>, events: seq<Event<Q, R>>, k: nat, i: nat,
                            id: nat, c: Submission)
    requires k + 1 < |events| && IssuedBy(plan, Step(plan, s, events[0]), events[1..], k, i, id, c)
    ensures IssuedBy(plan, s, events, k + 1, i, id, c)
  {
    assert events[..k + 1][1..] == events[1..][..k] && events[..k + 2][1..] == events[1..][..k + 1];
  }

  lemma IssuedNow<Q, R>(plan: nat -> seq<Submission>, s: State<R>, events: seq<Event<Q, R>>, id: nat)
    returns (i: nat, c: Submission)
    requires events != [] && id !in s.issued && id in Step(plan, s, events[0]).issued
    ensures var s1 := Step(plan, s, events[0]);
            id < s1.nextId && id in s1.pending && s1.pending[id] == Terms(c)
    ensures IssuedBy(plan, s, events, 0, i, id, c)
  {
    var taken := StepSubmits(plan, s, events[0]);
    i := SubmitsIssue(taken, Made(plan, s, events[0]), id);
    c := Made(plan, s, events[0])[i];
    assert events[..0] == [] && events[..1] == [events[0]] && [events[0]][1..] == [];
    assert Run(plan, s, [events[0]]) == Step(plan, s, events[0]);
  }

  /** In every run every issued request comes from one accepted submission. From then on it is completed by the first
      response to it or by the first sweep at or after the deadline that the submission asked for, whichever comes
      first, and by nothing else; without either it is still pending. */
  lemma {:induction false} IssuedSettles<Q, R>(plan: nat -> seq<Submission>, s: State<R>, events: seq<Event<Q, R>>,
                                               id: nat)
    returns (k: nat, i: nat, c: Submission)
    requires Inv(s) && Possible(plan, s, events) && id !in s.issued && id in Run(plan, s, events).issued
    ensures k < |events| && IssuedBy(plan, s, events, k, i, id, c)
    ensures Settled(Run(plan, s, events), id, Terms(c), Fate(events[k + 1..], id, Terms(c).deadline))
    decreases |events|
  {
    var s1 := Step(plan, s, events[0]);
    StepInv(plan, s, events[0]);
    if id in s1.issued {
      k := 0;
      i, c := IssuedNow(plan, s, events, id);
      RunSettles(plan, s1, events[1..], id, Terms(c), None);
    } else {
      k, i, c := IssuedSettles(plan, s1, events[1..], id);
      IssuedByLater(plan, s, events, k, i, id, c);
      assert events[1..][k + 1..] == events[k + 2..];
      k := k + 1;
    }
  }

  /** In every run every accepted submission issues a request, under the next number of its kind. */
  lemma {:induction false} AcceptedIsIssued<Q, R>(plan: nat -> seq<Submission>, s: State<R>, events: seq<Event<Q, R>>,
                                                  k: nat, i: nat, id: nat)
    requires k < |events|
    requires var before := Run(plan, s, events[..k]); Issues(Made(plan, before, events[k]), i, before.nextId, id)
    ensures id in Run(plan, s, events).issued
    decreases |events|
  {
    var s1 := Step(plan, s, events[0]);
    if k == 0 {
      assert events[..0] == [];
      var taken := StepSubmits(plan, s, events[0]);
      SubmissionIssues(taken, Made(plan, s, events[0]), i, id);
      RunIssued(plan, s1, events[1..], id);
    } else {
      assert events[..k][1..] == events[1..][..k - 1];
      AcceptedIsIssued(plan, s1, events[1..], k - 1, i, id);
    }
  }

  lemma {:induction false} RunIssued<Q, R>(plan: nat -> seq<Submission>, s: State<R>, events: seq<Event<Q, R>>, id: nat)
    requires id in s.issued
    ensures id in Run(plan, s, events).issued
    decreases |events|
  {
    if events != [] {
      var taken := StepSubmits(plan, s, events[0]);
      IssuedStays(taken, Made(plan, s, events[0]), id);
      RunIssued(plan, Step(plan, s, events[0]), events[1..], id);
    }
  }

  /** The destructor runs no callback. So of the requests issued in the life of a client exactly those never get one
      that were neither answered nor swept after their deadline: those that are pending at the end. */
  lemma NeverCompletedExactlyWhen<Q, R>(plan: nat -> seq<Submission>, events: seq<Event<Q, R>>, id: nat)
    returns (k: nat, i: nat, c: Submission)
    requires Possible(plan, Init(), events) && id in Run(plan, Init(), events).issued
    ensures k < |events| && IssuedBy(plan, Init(), events, k, i, id, c)
    ensures var s := Run(plan, Init(), events);
            && (!Logged(s.log, id) <==> id in s.pending)
            && (!Logged(s.log, id) <==> Fate(events[k + 1..], id, Terms(c).deadline) == None)
  {
    InitInv<R>();
    ExactlyOnce(plan, Init(), events);
    k, i, c := IssuedSettles(plan, Init(), events, id);
  }

  /** A request that is submitted and then destroyed with its client: its callback never runs. */
  lemma CallbackNeverRuns<Q, R>(plan: nat -> seq<Submission>, c: Submission) returns (events: seq<Event<Q, R>>)
    requires c.connected && c.encodes
    ensures Possible(plan, Init<R>(), events)
    ensures var s := Run(plan, Init<R>(), events); s.issued == {Init<R>().nextId} && s.log == []
  {
    events := [Call(c)];
    assert events[1..] == [];
    assert Run(plan, AfterSubmit(Init<R>(), c), events[1..]) == AfterSubmit(Init<R>(), c);
  }

  /** The packets of a message callback, one by one. */
  function Arrivals<Q, R>(packets: seq<Packet<Q, R>>): seq<Event<Q, R>> {
    if packets == [] then [] else [Arrive(packets[0])] + Arrivals(packets[1..])
  }

  /** A round of packets and a sweep is a run of single events, so what holds of runs holds of it. */
  lemma {:induction false} RoundIsRun<Q, R>(plan: nat -> seq<Submission>, s: State<R>, packets: seq<Packet<Q, R>>,
                                            now: int, order: seq<nat>)
    requires Lists(order, Expired(AfterPackets(plan, s, packets).pending, now))
    ensures var events := Arrivals(packets) + [SweepAt(now, order)];
            && Possible(plan, s, events)
            && Run(plan, s, events) == AfterSweep(plan, AfterPackets(plan, s, packets), now, order)
    decreases |packets|
  {
    var events := Arrivals(packets) + [SweepAt(now, order)];
    if packets == [] {
      assert events == [SweepAt(now, order)] && events[1..] == [];
      assert Run(plan, Step(plan, s, events[0]), events[1..]) == AfterSweep(plan, s, now, order);
    } else {
      assert events[1..] == Arrivals(packets[1..]) + [SweepAt(now, order)];
      RoundIsRun(plan, AfterPacket(plan, s, packets[0]), packets[1..], now, order);
    }
  }

  // ---------- counting ----------

  lemma {:induction false} SubmitsCount<R>(s: State<R>, calls: seq<Submission>)
    ensures AfterSubmits(s, calls).completions == s.completions && AfterSubmits(s, calls).log == s.log
    decreases |calls|
  {
    if calls != [] {
      SubmitsCount(AfterSubmit(s, calls[0]), calls[1..]);
    }
  }

  /** The counter moves with the callbacks. */
  ghost predicate InStep<R>(s: State<R>, s': State<R>) {
    |s'.log| - |s.log| == s'.completions - s.completions
  }

  lemma CallbackCounts<R>(plan: nat -> seq<Submission>, s: State<R>, id: nat, outcome: Outcome<R>)
    ensures InStep(s, AfterCallback(plan, s, id, outcome))
    ensures AfterCallback(plan, s, id, outcome).log == s.log + [Completion(id, outcome)]
  {
    SubmitsCount(s.(log := s.log + [Completion(id, outcome)]), plan(id));
  }

  lemma {:induction false} PacketsCount<Q, R>(plan: nat -> seq<Submission>, s: State<R>, packets: seq<Packet<Q, R>>)
    ensures InStep(s, AfterPackets(plan, s, packets))
    decreases |packets|
  {
    if packets != [] {
      var p := packets[0];
      if p.msgType == RESPONSE && p.reqId in s.pending {
        CallbackCounts(plan, s.(pending := s.pending - {p.reqId}), p.reqId, Response(p.response));
      }
      PacketsCount(plan, AfterPacket(plan, s, p), packets[1..]);
    }
  }

  lemma {:induction false} TimeoutsCount<R>(plan: nat -> seq<Submission>, s: State<R>, ids: seq<nat>)
    ensures InStep(s, AfterTimeouts(plan, s, ids)) && |AfterTimeouts(plan, s, ids).log| == |s.log| + |ids|
    decreases |ids|
  {
    if ids != [] {
      CallbackCounts(plan, s, ids[0], TimedOut);
      TimeoutsCount(plan, AfterCallback(plan, s, ids[0], TimedOut), ids[1..]);
    }
  }

  // ---------- waiting ----------

  /** msUntil: whole milliseconds left, none once the deadline has passed, at most an hour. */
  function MsUntil(deadline: int, now: int): int {
    var remain := (deadline - now) / NANOS_PER_MS;
    if deadline <= now || remain <= 0 then 0 else if remain > MAX_WAIT_MS then MAX_WAIT_MS else remain
  }

  lemma MsUntilNeverLate(deadline: int, now: int)
    ensures 0 <= MsUntil(deadline, now) <= MAX_WAIT_MS
    ensures MsUntil(deadline, now) > 0 ==> now + MsUntil(deadline, now) * NANOS_PER_MS <= deadline
    ensures MsUntil(deadline, now) < MAX_WAIT_MS ==> deadline < now + (MsUntil(deadline, now) + 1) * NANOS_PER_MS
  {
  }

  lemma {:induction false} PacketsConcat<Q, R>(plan: nat -> seq<Submission>, s: State<R>,
                                               a: seq<Packet<Q, R>>, b: seq<Packet<Q, R>>)
    ensures AfterPackets(plan, s, a + b) == AfterPackets(plan, AfterPackets(plan, s, a), b)
    decreases |a|
  {
    if a == [] {
      assert a + b == b;
    } else {
      assert (a + b)[1..] == a[1..] + b;
      PacketsConcat(plan, AfterPacket(plan, s, a[0]), a[1..], b);
    }
  }

  lemma PacketsSnoc<Q, R>(plan: nat -> seq<Submission>, s: State<R>, a: seq<Packet<Q, R>>, p: Packet<Q, R>)
    ensures AfterPackets(plan, s, a + [p]) == AfterPacket(plan, AfterPackets(plan, s, a), p)
  {
    PacketsConcat(plan, s, a, [p]);
    assert AfterPackets(plan, AfterPacket(plan, AfterPackets(plan, s, a), p), [p][1..])
        == AfterPacket(plan, AfterPackets(plan, s, a), p);
  }

  // ---------- the client ----------

  class InlinePipelineClient<!Q, !R(!new)> {
    const schema: Schema<Q, R>
    /** What the callback of each request submits in turn. */
    const plan: nat -> seq<Submission>
    var pending: map<nat, Pending>
    var nextId: nat
    var completions: nat
    ghost var issued: set<nat>
    ghost var sent: seq<nat>
    ghost var log: seq<Completion<R>>

    ghost function St(): State<R>
      reads this
    {
      State(pending, nextId, completions, issued, sent, log)
    }

    constructor (schema: Schema<Q, R>, plan: nat -> seq<Submission>)
      ensures this.schema == schema && this.plan == plan && St() == Init() && Inv(St())
    {
      this.schema, this.plan := schema, plan;
      pending, nextId, completions := map[], 1, 0;
      issued, sent, log := {}, [], [];
      new;
      InitInv<R>();
    }

    method Submit(c: Submission) returns (ok: bool)
      modifies this
      ensures St() == AfterSubmit(old(St()), c)
      ensures ok == (c.connected && c.encodes)
    {
      ok := false;
      if !c.connected { return; }
      var id := nextId;
      nextId := nextId + 1;
      if !c.encodes { return; }
      var timeout := if c.timeoutMs > 0 then c.timeoutMs else DEFAULT_TIMEOUT_MS;
      pending := pending[id := Pending(c.now, c.now + timeout * NANOS_PER_MS)];
      issued, sent := issued + {id}, sent + [id];
      ok := true;
    }

    /** Runs the callback of a request that has been taken out of the table, and counts it. */
    method Finish(id: nat, outcome: Outcome<R>)
      modifies this
      ensures St() == AfterCallback(plan, old(St()), id, outcome)
    {
      log := log + [Completion(id, outcome)];
      ghost var start := St();
      var calls := plan(id);
      for i := 0 to |calls|
        invariant AfterSubmits(St(), calls[i..]) == AfterSubmits(start, calls)
      {
        assert calls[i..][1..] == calls[i + 1..];
        var ok := Submit(calls[i]);
      }
      completions := completions + 1;
    }

    /** One packet of the decode loop. */
    method OnPacket(p: Packet<Q, R>, ghost start: State<R>, ghost done: seq<Packet<Q, R>>)
      requires St() == AfterPackets(plan, start, done)
      modifies this
      ensures St() == AfterPacket(plan, old(St()), p) == AfterPackets(plan, start, done + [p])
    {
      PacketsSnoc(plan, start, done, p);
      if p.msgType != RESPONSE { return; }
      if p.reqId !in pending { return; }
      pending := pending - {p.reqId};
      Finish(p.reqId, Response(p.response));
    }

    /** The message callback completes the requests answered by the drained packets. */
    method OnMessage(buf: Buffer, blank: Packet<Q, R>)
      requires buf.Valid()
      modifies this, buf
      ensures buf.Valid() && buf.store == old(buf.store)
      ensures var d := Drain(schema, old(buf.Contents()), blank);
              buf.Contents() == d.rest && St() == AfterPackets(plan, old(St()), d.packets)
    {
      ghost var data := buf.Contents();
      ghost var done: seq<Packet<Q, R>> := [];
      StartDrain(schema, data, blank);
      var p := blank;
      var ok := true;
      while ok
        invariant buf.Valid() && buf.store == old(buf.store)
        invariant Continues(schema, data, blank, done, ok, buf.Contents(), p)
        invariant St() == AfterPackets(plan, old(St()), done)
        decreases ok, |buf.Contents()|
      {
        ok, p := Next(schema, buf, p, data, blank, done);
        if ok {
          OnPacket(p, old(St()), done);
          done := done + [p];
        }
      }
    }

    /** The least deadline decides how long the loop may sleep. */
    method NextWaitMs(now: int) returns (ms: int)
      ensures pending == map[] ==> ms == IDLE_WAIT_MS
      ensures pending != map[] ==> exists id :: id in pending && ms == MsUntil(pending[id].deadline, now)
      ensures forall id :: id in pending ==> 0 <= ms && (ms > 0 ==> now + ms * NANOS_PER_MS <= pending[id].deadline)
    {
      if pending == map[] { return IDLE_WAIT_MS; }
      var first :| first in pending;
      var left := pending.Keys - {first};
      while left != {}
        invariant first in pending && left <= pending.Keys
        invariant forall id :: id in pending && id !in left ==> pending[first].deadline <= pending[id].deadline
        decreases |left|
      {
        var id :| id in left;
        if pending[id].deadline < pending[first].deadline { first := id; }
        left := left - {id};
      }
      ms := MsUntil(pending[first].deadline, now);
      MsUntilNeverLate(pending[first].deadline, now);
    }

    /** The erase-while-iterating loop: takes the expired requests out, in the order in which it finds them. */
    method TakeExpired(now: int) returns (expired: seq<nat>)
      modifies this`pending
      ensures Lists(expired, Expired(old(pending), now))
      ensures pending == old(pending) - Expired(old(pending), now)
    {
      expired := [];
      var left := pending.Keys;
      while left != {}
        invariant left <= pending.Keys
        invariant Lists(expired, Expired(old(pending), now) - left)
        invariant pending == old(pending) - (Expired(old(pending), now) - left)
        decreases |left|
      {
        var id :| id in left;
        if pending[id].deadline <= now {
          expired := expired + [id];
          pending := pending - {id};
        }
        left := left - {id};
      }
      assert Expired(old(pending), now) - left == Expired(old(pending), now);
    }

    method SweepTimeouts(now: int) returns (n: nat, ghost order: seq<nat>)
      modifies this
      ensures Lists(order, Expired(old(pending), now)) && n == |order|
      ensures St() == AfterSweep(plan, old(St()), now, order)
    {
      var expired := TakeExpired(now);
      ghost var start := St();
      for i := 0 to |expired|
        invariant AfterTimeouts(plan, St(), expired[i..]) == AfterTimeouts(plan, start, expired)
      {
        assert expired[i..][1..] == expired[i + 1..];
        Finish(expired[i], TimedOut);
      }
      n, order := |expired|, expired;
    }

    /** One round, begun at the given time: the loop may wait so long that no deadline passes; then come the chunks
        that have arrived, then a sweep. The result counts the callbacks of the round. */
    method PumpOnce(now: int, buf: Buffer, chunks: seq<seq<byte>>, blank: Packet<Q, R>, sweepAt: int)
      returns (done: nat, wait: int, ghost order: seq<nat>)
      requires buf.Valid()
      modifies this, buf, buf.store
      ensures buf.Valid()
      ensures var r := Receive(schema, old(buf.Contents()), chunks, blank);
              var mid := AfterPackets(plan, old(St()).(completions := 0), r.packets);
              && buf.Contents() == r.rest
              && Lists(order, Expired(mid.pending, sweepAt))
              && St() == AfterSweep(plan, mid, sweepAt, order).(completions := 0)
      ensures done == |log| - |old(log)|
      ensures old(pending) == map[] ==> wait == IDLE_WAIT_MS
      ensures forall id :: id in old(pending) ==>
                0 <= wait && (wait > 0 ==> now + wait * NANOS_PER_MS <= old(pending)[id].deadline)
    {
      completions := 0;
      wait := NextWaitMs(now);
      ghost var start := St();
      ghost var r := Receive(schema, buf.Contents(), chunks, blank);
      ReceiveChunks(buf, chunks, blank);
      PacketsCount(plan, start, r.packets);
      ghost var mid := St();
      var n;
      n, order := SweepTimeouts(sweepAt);
      TimeoutsCount(plan, mid.(pending := mid.pending - Expired(mid.pending, sweepAt)), order);
      done := completions;
      completions := 0;
    }

    method ReceiveChunks(buf: Buffer, chunks: seq<seq<byte>>, blank: Packet<Q, R>)
      requires buf.Valid()
      modifies this, buf, buf.store
      ensures buf.Valid()
      ensures var r := Receive(schema, old(buf.Contents()), chunks, blank);
              buf.Contents() == r.rest && St() == AfterPackets(plan, old(St()), r.packets)
      decreases |chunks|
    {
      if chunks == [] { return; }
      ghost var d := Drain(schema, buf.Contents() + chunks[0], blank);
      ghost var r := Receive(schema, d.rest, chunks[1..], blank);
      PacketsConcat(plan, St(), d.packets, r.packets);
      buf.Append(chunks[0]);
      OnMessage(buf, blank);
      ReceiveChunks(buf, chunks[1..], blank);
    }
  }
}
