/** A pipelining client and a server on one connection: what becomes of a submitted request, from its submission over
    the handler on the other side to the callback. */
module Session {
  import opened Bytes
  import opened Codec
  import opened RoundTrip
  import opened Framing
  import opened Server
  import Client = PipelineClient

  type Events<Q, R> = seq<Client.Event<Q, R>>

  /** The packets that come in during the events. */
  function Received<Q, R>(events: Events<Q, R>): seq<Packet<Q, R>> {
    if events == [] then [] else (if events[0].Arrive? then [events[0].packet] else []) + Received(events[1..])
  }

  /** The event in which the n-th packet comes in, or the end if there is none. */
  function ArrivalOf<Q, R>(events: Events<Q, R>, n: nat): (j: nat)
    ensures j <= |events|
  {
    if events == [] || (events[0].Arrive? && n == 0) then 0
    else 1 + ArrivalOf(events[1..], if events[0].Arrive? then n - 1 else n)
  }

  /** There is a sweep at or after the deadline. */
  ghost predicate Swept<Q, R>(events: Events<Q, R>, from: nat, to: nat, deadline: int) {
    exists i :: from <= i < to && i < |events| && events[i].SweepAt? && deadline <= events[i].now
  }

  /** Timed out if there is a sweep at or after the deadline before the answer comes in, else the answer r if it comes
      in at all. */
  ghost function Verdict<Q, R>(events: Events<Q, R>, from: nat, to: nat, deadline: int,
                               r: R): Option<Client.Outcome<R>> {
    if Swept(events, from, to, deadline) then Some(Client.TimedOut)
    else if to < |events| then Some(Client.Response(r))
    else None
  }

  ghost predicate Answering<Q, R>(p: Packet<Q, R>, id: nat) {
    p.msgType == RESPONSE && p.reqId == id
  }

  /** Up to and including each event, no more packets have come in than requests had been sent before it. */
  ghost predicate Causal<Q, R>(plan: nat -> seq<Client.Submission>, events: Events<Q, R>) {
    forall j :: 0 <= j < |events| ==> |Received(events[..j + 1])| <= |Client.Run(plan, Client.Init(), events[..j]).sent|
  }

  // ---------- cutting runs ----------

  lemma {:induction false} ReceivedConcat<Q, R>(a: Events<Q, R>, b: Events<Q, R>)
    ensures Received(a + b) == Received(a) + Received(b)
    decreases |a|
  {
    if a == [] {
      assert a + b == b;
    } else {
      assert (a + b)[1..] == a[1..] + b;
      ReceivedConcat(a[1..], b);
      Associate(if a[0].Arrive? then [a[0].packet] else [], Received(a[1..]), Received(b));
    }
  }

  lemma {:induction false} ArrivalLater<Q, R>(a: Events<Q, R>, b: Events<Q, R>, n: nat)
    requires |Received(a)| <= n
    ensures ArrivalOf(a + b, n) == |a| + ArrivalOf(b, n - |Received(a)|)
    decreases |a|
  {
    if a == [] {
      assert a + b == b;
    } else {
      assert (a + b)[1..] == a[1..] + b;
      ArrivalLater(a[1..], b, if a[0].Arrive? then n - 1 else n);
    }
  }

  lemma {:induction false} RunCut<Q, R>(plan: nat -> seq<Client.Submission>, s: Client.State<R>, a: Events<Q, R>,
                                        b: Events<Q, R>)
    ensures Client.Run(plan, s, a + b) == Client.Run(plan, Client.Run(plan, s, a), b)
    ensures Client.Possible(plan, s, a + b) ==> Client.Possible(plan, s, a)
    decreases |a|
  {
    if a == [] {
      assert a + b == b;
    } else {
      assert (a + b)[1..] == a[1..] + b;
      RunCut(plan, Client.Step(plan, s, a[0]), a[1..], b);
    }
  }

  lemma {:induction false} SubmitsAppend<R>(s: Client.State<R>, calls: seq<Client.Submission>)
    ensures s.sent <= Client.AfterSubmits(s, calls).sent
    decreases |calls|
  {
    if calls != [] {
      SubmitsAppend(Client.AfterSubmit(s, calls[0]), calls[1..]);
    }
  }

  lemma {:induction false} TimeoutsAppend<R>(plan: nat -> seq<Client.Submission>, s: Client.State<R>, ids: seq<nat>)
    ensures s.sent <= Client.AfterTimeouts(plan, s, ids).sent
    decreases |ids|
  {
    if ids != [] {
      SubmitsAppend(s.(log := s.log + [Client.Completion(ids[0], Client.TimedOut)]), plan(ids[0]));
      TimeoutsAppend(plan, Client.AfterCallback(plan, s, ids[0], Client.TimedOut), ids[1..]);
    }
  }

  lemma StepAppends<Q, R>(plan: nat -> seq<Client.Submission>, s: Client.State<R>, e: Client.Event<Q, R>)
    ensures s.sent <= Client.Step(plan, s, e).sent
  {
    match e
    case Call(c) =>
    case Arrive(p) =>
      if p.msgType == RESPONSE && p.reqId in s.pending {
        var taken := s.(pending := s.pending - {p.reqId});
        SubmitsAppend(taken.(log := s.log + [Client.Completion(p.reqId, Client.Response(p.response))]), plan(p.reqId));
      }
    case SweepAt(now, order) =>
      TimeoutsAppend(plan, s.(pending := s.pending - Client.Expired(s.pending, now)), order);
  }

  /** Requests once sent stay sent, in their places. */
  lemma {:induction false} RunAppends<Q, R>(plan: nat -> seq<Client.Submission>, s: Client.State<R>,
                                            events: Events<Q, R>)
    ensures s.sent <= Client.Run(plan, s, events).sent
    decreases |events|
  {
    if events != [] {
      StepAppends(plan, s, events[0]);
      RunAppends(plan, Client.Step(plan, s, events[0]), events[1..]);
    }
  }

  // ---------- the answer decides ----------

  lemma SweptLater<Q, R>(events: Events<Q, R>, to: nat, deadline: int)
    requires events != [] && !(events[0].SweepAt? && deadline <= events[0].now)
    ensures Swept(events, 0, to + 1, deadline) <==> Swept(events[1..], 0, to, deadline)
  {
    if Swept(events, 0, to + 1, deadline) {
      var i :| 0 <= i < to + 1 && i < |events| && events[i].SweepAt? && deadline <= events[i].now;
      assert events[1..][i - 1] == events[i];
    }
    if Swept(events[1..], 0, to, deadline) {
      var i :| 0 <= i < to && i < |events[1..]| && events[1..][i].SweepAt? && deadline <= events[1..][i].now;
      assert events[i + 1] == events[1..][i];
    }
  }

  lemma SweptFrom<Q, R>(events: Events<Q, R>, k: nat, to: nat, deadline: int)
    requires k <= |events|
    ensures Swept(events, k, k + to, deadline) <==> Swept(events[k..], 0, to, deadline)
  {
    if Swept(events, k, k + to, deadline) {
      var i :| k <= i < k + to && i < |events| && events[i].SweepAt? && deadline <= events[i].now;
      assert events[k..][i - k] == events[i];
    }
    if Swept(events[k..], 0, to, deadline) {
      var i :| 0 <= i < to && i < |events[k..]| && events[k..][i].SweepAt? && deadline <= events[k..][i].now;
      assert events[k + i] == events[k..][i];
    }
  }

  /** Only the n-th packet answers the request. */
  ghost predicate OnlyAnswer<Q, R>(packets: seq<Packet<Q, R>>, n: nat, id: nat, r: R) {
    forall i :: 0 <= i < |packets| ==>
      if i == n then Answering(packets[i], id) && packets[i].response == r else !Answering(packets[i], id)
  }

  /** The fate of the request is then the verdict. */
  lemma {:induction false} FateIsVerdict<Q, R>(events: Events<Q, R>, n: nat, id: nat, deadline: int, r: R)
    requires OnlyAnswer(Received(events), n, id, r)
    ensures Client.Fate(events, id, deadline) == Verdict(events, 0, ArrivalOf(events, n), deadline, r)
    decreases |events|
  {
    if events != [] {
      var e, rest := events[0], Received(events[1..]);
      if e.Arrive? {
        assert Received(events) == [e.packet] + rest;
        assert Received(events)[0] == e.packet;
        if n > 0 {
          forall i | 0 <= i < |rest|
            ensures if i == n - 1 then Answering(rest[i], id) && rest[i].response == r else !Answering(rest[i], id)
          {
            assert Received(events)[i + 1] == rest[i];
          }
          FateIsVerdict(events[1..], n - 1, id, deadline, r);
          SweptLater(events, ArrivalOf(events[1..], n - 1), deadline);
        }
      } else {
        assert Received(events) == [] + rest == rest;
        if e.SweepAt? && deadline <= e.now {
          assert Swept(events, 0, ArrivalOf(events, n), deadline);
        } else {
          FateIsVerdict(events[1..], n, id, deadline, r);
          SweptLater(events, ArrivalOf(events[1..], n), deadline);
        }
      }
    }
  }

  lemma OnlyAnswerLater<Q, R>(a: seq<Packet<Q, R>>, b: seq<Packet<Q, R>>, n: nat, id: nat, r: R)
    requires OnlyAnswer(a + b, n, id, r) && |a| <= n
    ensures OnlyAnswer(b, n - |a|, id, r)
  {
    forall i | 0 <= i < |b|
      ensures if i == n - |a| then Answering(b[i], id) && b[i].response == r else !Answering(b[i], id)
    {
      assert (a + b)[|a| + i] == b[i];
    }
  }

  /** When a request is issued its answer is still to come. */
  lemma AnswerToCome<Q, R>(plan: nat -> seq<Client.Submission>, events: Events<Q, R>, k: nat, i: nat, n: nat, id: nat,
                           c: Client.Submission)
    requires Client.Possible(plan, Client.Init(), events) && Causal(plan, events)
    requires k < |events| && Client.IssuedBy(plan, Client.Init(), events, k, i, id, c)
    requires n < |Client.Run(plan, Client.Init(), events).sent| && Client.Run(plan, Client.Init(), events).sent[n] == id
    ensures |Received(events[..k + 1])| <= n
  {
    var before := Client.Run(plan, Client.Init(), events[..k]);
    assert events[..k] + events[k..] == events;
    RunCut(plan, Client.Init(), events[..k], events[k..]);
    RunAppends(plan, before, events[k..]);
    assert n < |before.sent| ==> id in before.sent;
    Client.InitInv<R>();
    Client.ExactlyOnce(plan, Client.Init(), events[..k]);
  }

  lemma VerdictFrom<Q, R>(events: Events<Q, R>, k: nat, n: nat, id: nat, deadline: int, r: R)
    requires k <= |events| && OnlyAnswer(Received(events), n, id, r) && |Received(events[..k])| <= n
    ensures Client.Fate(events[k..], id, deadline) == Verdict(events, k, ArrivalOf(events, n), deadline, r)
  {
    var a, b := events[..k], events[k..];
    assert a + b == events;
    ReceivedConcat(a, b);
    OnlyAnswerLater(Received(a), Received(b), n, id, r);
    FateIsVerdict(b, n - |Received(a)|, id, deadline, r);
    ArrivalLater(a, b, n);
    SweptFrom(events, k, ArrivalOf(b, n - |Received(a)|), deadline);
  }

  lemma OneAnswerEach<Q, R>(sent: seq<nat>, packets: seq<Packet<Q, R>>, received: seq<Packet<Q, R>>, n: nat, r: R)
    requires forall i, j :: 0 <= i < j < |sent| ==> sent[i] < sent[j]
    requires n < |packets| == |sent| && received <= packets && packets[n].response == r
    requires forall i :: 0 <= i < |sent| ==> Answering(packets[i], sent[i])
    ensures OnlyAnswer(received, n, sent[n], r)
  {
    forall i | 0 <= i < |received|
      ensures if i == n then Answering(received[i], sent[n]) && received[i].response == r
              else !Answering(received[i], sent[n])
    {
      assert received[i] == packets[i] && Answering(packets[i], sent[i]);
    }
  }

  /** If the packets answer the requests one by one in the order in which they were sent, every request is completed
      by its answer unless a sweep comes first. */
  lemma Completes<Q, R>(plan: nat -> seq<Client.Submission>, events: Events<Q, R>, packets: seq<Packet<Q, R>>, n: nat)
    returns (k: nat, i: nat, c: Client.Submission)
    requires Client.Possible(plan, Client.Init(), events) && Causal(plan, events) && Received(events) <= packets
    requires n < |packets| == |Client.Run(plan, Client.Init(), events).sent|
    requires var sent := Client.Run(plan, Client.Init(), events).sent;
             forall i :: 0 <= i < |sent| ==> Answering(packets[i], sent[i])
    ensures var s := Client.Run(plan, Client.Init(), events);
            && Client.Inv(s) && k < |events| && Client.IssuedBy(plan, Client.Init(), events, k, i, s.sent[n], c)
            && Client.Settled(s, s.sent[n], Client.Terms(c),
                              Verdict(events, k + 1, ArrivalOf(events, n), Client.Terms(c).deadline,
                                      packets[n].response))
  {
    var s := Client.Run(plan, Client.Init(), events);
    Client.InitInv<R>();
    Client.ExactlyOnce(plan, Client.Init(), events);
    var id := s.sent[n];
    assert id in s.sent;
    k, i, c := Client.IssuedSettles(plan, Client.Init(), events, id);
    AnswerToCome(plan, events, k, i, n, id, c);
    OneAnswerEach(s.sent, packets, Received(events), n, packets[n].response);
    VerdictFrom(events, k + 1, n, id, Client.Terms(c).deadline, packets[n].response);
  }

  // ---------- over the wire ----------

  /** What the server makes of a request that comes n-th. */
  function Result<Q, R>(services: Services<Q, R>, m: Message<Q, R>, n: nat): R
    requires m.RequestMsg?
  {
    if m.service in services.names then services.call(n, m.service, m.name, m.request) else services.notFound(m.service)
  }

  lemma {:induction false} AllAnswerable<Q, R>(msgs: seq<Message<Q, R>>, i: nat)
    requires forall m :: m in msgs ==> m.RequestMsg?
    ensures |Answerable(msgs, i)| == |msgs|
    ensures forall n :: 0 <= n < |msgs| ==> Answerable(msgs, i)[n] == Asked(msgs[n], i + n)
    decreases |msgs|
  {
    if msgs != [] {
      assert msgs[0] in msgs;
      AllAnswerable(msgs[1..], i + 1);
    }
  }

  lemma AnswersHeard<Q, R>(services: Services<Q, R>, p: Packet<Q, R>, m: Message<Q, R>, n: nat, time: int,
                           extra: map<seq<byte>, seq<byte>>)
    requires m.RequestMsg? && Heard(services, p, Asked(m, n), time, extra)
    ensures Answering(p, m.id) && p.response == Result(services, m, n)
  {
  }

  /** The requests cross the wire in the chunks, the answers to them in back, all within the size limits. */
  ghost predicate Crosses<Q(!new), R(!new)>(schema: Schema<Q, R>, services: Services<Q, R>, msgs: seq<Message<Q, R>>,
                                            chunks: seq<seq<byte>>, back: seq<seq<byte>>, blank: Packet<Q, R>,
                                            clock: nat -> int)
  {
    var replies := Replies(services, Receive(schema, [], chunks, blank).packets, clock, 0);
    && (forall m :: m in msgs ==> m.RequestMsg? && Sendable(schema, m))
    && Concat(chunks) == Stream(Encoded(schema, msgs)) && Fits(Encoded(schema, msgs), [], chunks)
    && (forall m :: m in replies ==> Sendable(schema, m))
    && Concat(back) == Wire(schema, replies) && Fits(Encoded(schema, replies), [], back)
  }

  ghost predicate Results<Q, R>(services: Services<Q, R>, packets: seq<Packet<Q, R>>, msgs: seq<Message<Q, R>>) {
    && |packets| == |msgs|
    && forall i :: 0 <= i < |msgs| ==>
         && msgs[i].RequestMsg? && Answering(packets[i], msgs[i].id)
         && packets[i].response == Result(services, msgs[i], i)
  }

  lemma ResultsHeard<Q, R>(services: Services<Q, R>, packets: seq<Packet<Q, R>>, msgs: seq<Message<Q, R>>,
                           clock: nat -> int, extra: map<seq<byte>, seq<byte>>)
    requires forall m :: m in msgs ==> m.RequestMsg?
    requires |packets| == |Answerable(msgs, 0)|
    requires forall k :: 0 <= k < |packets| ==>
               Heard(services, packets[k], Answerable(msgs, 0)[k], clock(Answerable(msgs, 0)[k].place), extra)
    ensures Results(services, packets, msgs)
  {
    AllAnswerable(msgs, 0);
    forall i | 0 <= i < |msgs|
      ensures && msgs[i].RequestMsg? && Answering(packets[i], msgs[i].id)
              && packets[i].response == Result(services, msgs[i], i)
    {
      assert msgs[i] in msgs;
      AnswersHeard(services, packets[i], msgs[i], i, clock(i), extra);
    }
  }

  lemma AnswersCome<Q(!new), R(!new)>(schema: Schema<Q, R>, services: Services<Q, R>, msgs: seq<Message<Q, R>>,
                                      chunks: seq<seq<byte>>, back: seq<seq<byte>>, blank: Packet<Q, R>,
                                      clock: nat -> int)
    requires Lawful(schema) && Crosses(schema, services, msgs, chunks, back, blank, clock)
    ensures Results(services, Receive(schema, [], back, blank).packets, msgs)
  {
    EndToEnd(schema, services, msgs, chunks, back, blank, clock);
    ResultsHeard(services, Receive(schema, [], back, blank).packets, msgs, clock, blank.heartbeat.extra);
  }

  /** The requests that a client sends in a run of its own cross the wire to a server, cut in any way, and so do the
      answers on their way back. Every request comes from one submission c and is completed once: with what the handler
      made of it if its answer comes in before a sweep at or after the deadline that c asked for, as timed out if such a
      sweep comes first, and if neither has happened it is still pending. */
  lemma RequestToCallback<Q(!new), R(!new)>(schema: Schema<Q, R>, services: Services<Q, R>, msgs: seq<Message<Q, R>>,
                                            chunks: seq<seq<byte>>, back: seq<seq<byte>>, blank: Packet<Q, R>,
                                            clock: nat -> int, plan: nat -> seq<Client.Submission>,
                                            events: Events<Q, R>, n: nat)
    returns (k: nat, i: nat, c: Client.Submission)
    requires Lawful(schema) && Crosses(schema, services, msgs, chunks, back, blank, clock)
    requires Client.Possible(plan, Client.Init(), events) && Causal(plan, events)
    requires Received(events) <= Receive(schema, [], back, blank).packets
    requires var sent := Client.Run(plan, Client.Init(), events).sent;
             n < |msgs| == |sent| && forall i :: 0 <= i < |msgs| ==> msgs[i].id == sent[i]
    ensures k < |events| && Client.IssuedBy(plan, Client.Init(), events, k, i, msgs[n].id, c)
    ensures msgs[n].RequestMsg? && Client.Inv(Client.Run(plan, Client.Init(), events))
    ensures Client.Settled(Client.Run(plan, Client.Init(), events), msgs[n].id, Client.Terms(c),
                           Verdict(events, k + 1, ArrivalOf(events, n), Client.Terms(c).deadline,
                                   Result(services, msgs[n], n)))
  {
    var packets := Receive(schema, [], back, blank).packets;
    AnswersCome(schema, services, msgs, chunks, back, blank, clock);
    k, i, c := Completes(plan, events, packets, n);
  }
}
