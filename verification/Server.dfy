/** The server's message callback: drain the input, answer requests and heartbeats, ignore the rest. */
module Server {
  import opened Bytes
  import opened ByteBuffer
  import opened Codec
  import opened RoundTrip
  import opened Framing
  import opened DrainLoop

  /** The registered services. call(i, ...) is the outcome of a handler that is called for the i-th packet,
      exceptions included: the source turns those into an error response. Handlers may keep state, so the outcome
      depends on i. */
  datatype Services<!Q, !R> = Services(
    names: set<seq<byte>>,
    call: (nat, seq<byte>, seq<byte>, Q) -> R,
    notFound: seq<byte> -> R,
    succeeded: R -> bool)

  // "server" and "server_node"
  const SERVICE_NAME: seq<byte> := [0x73, 0x65, 0x72, 0x76, 0x65, 0x72]
  const NODE_ID: seq<byte> := [0x73, 0x65, 0x72, 0x76, 0x65, 0x72, 0x5f, 0x6e, 0x6f, 0x64, 0x65]

  /** The answer to the i-th decoded packet at the given time, if any. */
  function Reply<Q, R>(services: Services<Q, R>, p: Packet<Q, R>, i: nat, time: int): Option<Message<Q, R>> {
    match p.msgType
    case HEARTBEAT => Some(HeartbeatMsg(p.reqId, Heartbeat(SERVICE_NAME, NODE_ID, time, map[]), []))
    case RESPONSE => None
    case REQUEST =>
      if p.serviceName !in services.names then
        Some(ResponseMsg(p.reqId, FAILED, services.notFound(p.serviceName)))
      else
        var resp := services.call(i, p.serviceName, p.methodName, p.request);
        Some(ResponseMsg(p.reqId, if services.succeeded(resp) then SUCCESS else FAILED, resp))
  }

  /** The answers to the packets in turn; clock(i) is the time when the i-th packet is handled. */
  function Replies<Q, R>(services: Services<Q, R>, packets: seq<Packet<Q, R>>, clock: nat -> int,
                         i: nat): seq<Message<Q, R>>
    decreases |packets|
  {
    if packets == [] then []
    else ListOf(Reply(services, packets[0], i, clock(i))) + Replies(services, packets[1..], clock, i + 1)
  }

  function ListOf<T>(o: Option<T>): seq<T> {
    match o case None => [] case Some(x) => [x]
  }

  lemma {:induction false} RepliesConcat<Q, R>(services: Services<Q, R>, a: seq<Packet<Q, R>>, b: seq<Packet<Q, R>>,
                                               clock: nat -> int, i: nat, j: nat)
    requires j == i + |a|
    ensures Replies(services, a + b, clock, i) == Replies(services, a, clock, i) + Replies(services, b, clock, j)
    decreases |a|
  {
    if a == [] {
      assert a + b == b;
    } else {
      assert (a + b)[1..] == a[1..] + b;
      RepliesConcat(services, a[1..], b, clock, i + 1, j);
      Associate(ListOf(Reply(services, a[0], i, clock(i))), Replies(services, a[1..], clock, i + 1),
                Replies(services, b, clock, j));
    }
  }

  /** The bytes that the messages put on the wire. A message that does not encode puts none. */
  function Wire<Q, R>(schema: Schema<Q, R>, msgs: seq<Message<Q, R>>): seq<byte> {
    if msgs == [] then [] else Encode(schema, msgs[0]) + Wire(schema, msgs[1..])
  }

  lemma {:induction false} WireConcat<Q, R>(schema: Schema<Q, R>, a: seq<Message<Q, R>>, b: seq<Message<Q, R>>)
    ensures Wire(schema, a + b) == Wire(schema, a) + Wire(schema, b)
    decreases |a|
  {
    if a == [] {
      assert a + b == b;
    } else {
      assert (a + b)[1..] == a[1..] + b;
      WireConcat(schema, a[1..], b);
      Associate(Encode(schema, a[0]), Wire(schema, a[1..]), Wire(schema, b));
    }
  }

  lemma {:induction false} WireIsStream<Q, R>(schema: Schema<Q, R>, msgs: seq<Message<Q, R>>)
    ensures Wire(schema, msgs) == Stream(Encoded(schema, msgs))
    decreases |msgs|
  {
    if msgs != [] {
      assert Encoded(schema, msgs)[1..] == Encoded(schema, msgs[1..]);
      WireIsStream(schema, msgs[1..]);
    }
  }

  /** Between two states of a server, exactly the packets were answered. */
  ghost predicate Answered<Q, R>(schema: Schema<Q, R>, services: Services<Q, R>, packets: seq<Packet<Q, R>>,
                                 clock: nat -> int, output: seq<byte>, handled: nat, output': seq<byte>, handled': nat)
  {
    && Appended(output, Wire(schema, Replies(services, packets, clock, handled)), output')
    && handled' == handled + |packets|
  }

  lemma WireOfReplies<Q, R>(schema: Schema<Q, R>, services: Services<Q, R>, a: seq<Packet<Q, R>>, b: seq<Packet<Q, R>>,
                            clock: nat -> int, i: nat, j: nat)
    requires j == i + |a|
    ensures Wire(schema, Replies(services, a + b, clock, i))
         == Wire(schema, Replies(services, a, clock, i)) + Wire(schema, Replies(services, b, clock, j))
  {
    RepliesConcat(services, a, b, clock, i, j);
    WireConcat(schema, Replies(services, a, clock, i), Replies(services, b, clock, j));
  }

  ghost predicate Appended(output: seq<byte>, bytes: seq<byte>, output': seq<byte>) {
    output' == output + bytes
  }

  lemma AppendedTwice(output: seq<byte>, x: seq<byte>, y: seq<byte>, both: seq<byte>, output': seq<byte>,
                      output'': seq<byte>)
    requires both == x + y && Appended(output, x, output') && Appended(output', y, output'')
    ensures Appended(output, both, output'')
  {
    Associate(output, x, y);
  }

  lemma AnsweredInTurn<Q, R>(schema: Schema<Q, R>, services: Services<Q, R>, a: seq<Packet<Q, R>>, b: seq<Packet<Q, R>>,
                             clock: nat -> int, output: seq<byte>, handled: nat, output': seq<byte>, handled': nat,
                             output'': seq<byte>, handled'': nat)
    requires Answered(schema, services, a, clock, output, handled, output', handled')
    requires Answered(schema, services, b, clock, output', handled', output'', handled'')
    ensures Answered(schema, services, a + b, clock, output, handled, output'', handled'')
  {
    WireOfReplies(schema, services, a, b, clock, handled, handled');
    AppendedTwice(output, Wire(schema, Replies(services, a, clock, handled)),
                  Wire(schema, Replies(services, b, clock, handled')),
                  Wire(schema, Replies(services, a + b, clock, handled)), output', output'');
  }

  lemma NothingAnswered<Q, R>(schema: Schema<Q, R>, services: Services<Q, R>, clock: nat -> int, output: seq<byte>,
                              handled: nat)
    ensures Answered(schema, services, [], clock, output, handled, output, handled)
  {
    assert output + [] == output;
  }

  class RpcServer<!Q, !R> {
    const schema: Schema<Q, R>
    const services: Services<Q, R>
    /** The bytes sent on the connection so far, and the number of packets handled. */
    var output: seq<byte>
    var handled: nat

    constructor (schema: Schema<Q, R>, services: Services<Q, R>)
      ensures this.schema == schema && this.services == services && output == [] && handled == 0
    {
      this.schema, this.services := schema, services;
      output, handled := [], 0;
    }

    /** The callback drains the input buffer and sends the replies to exactly the drained packets. */
    method OnMessage(buf: Buffer, blank: Packet<Q, R>, clock: nat -> int)
      requires buf.Valid()
      modifies this, buf
      ensures buf.Valid() && buf.store == old(buf.store)
      ensures var d := Drain(schema, old(buf.Contents()), blank);
              && buf.Contents() == d.rest
              && Answered(schema, services, d.packets, clock, old(output), old(handled), output, handled)
    {
      ghost var data := buf.Contents();
      ghost var done: seq<Packet<Q, R>> := [];
      StartDrain(schema, data, blank);
      NothingAnswered(schema, services, clock, output, handled);
      var p := blank;
      var ok := true;
      while ok
        invariant buf.Valid() && buf.store == old(buf.store)
        invariant Continues(schema, data, blank, done, ok, buf.Contents(), p)
        invariant Answered(schema, services, done, clock, old(output), old(handled), output, handled)
        decreases ok, |buf.Contents()|
      {
        ok, p := Next(schema, buf, p, data, blank, done);
        if ok {
          Answer(p, clock, done, old(output), old(handled));
          done := done + [p];
        }
      }
    }

    /** Answers one packet after those in done. */
    method Answer(p: Packet<Q, R>, clock: nat -> int, ghost done: seq<Packet<Q, R>>, ghost output0: seq<byte>,
                  ghost handled0: nat)
      requires Answered(schema, services, done, clock, output0, handled0, output, handled)
      modifies this
      ensures Answered(schema, services, done + [p], clock, output0, handled0, output, handled)
    {
      var reply := Reply(services, p, handled, clock(handled));
      ghost var was, before := output, handled;
      if reply.Some? {
        output := output + Encode(schema, reply.value);
      }
      handled := handled + 1;
      OneAnswered(schema, services, p, clock, was, before);
      AnsweredInTurn(schema, services, done, [p], clock, output0, handled0, was, before, output, handled);
    }
  }

  lemma OneAnswered<Q, R>(schema: Schema<Q, R>, services: Services<Q, R>, p: Packet<Q, R>, clock: nat -> int,
                          output: seq<byte>, handled: nat)
    ensures var reply := Reply(services, p, handled, clock(handled));
            var output' := if reply.Some? then output + Encode(schema, reply.value) else output;
            Answered(schema, services, [p], clock, output, handled, output', handled + 1)
  {
    var reply := Reply(services, p, handled, clock(handled));
    assert Replies(services, [p], clock, handled) == ListOf(reply) + [] == ListOf(reply);
    if reply.Some? {
      assert [reply.value][1..] == [] && Encode(schema, reply.value) + [] == Encode(schema, reply.value);
    } else {
      assert output + [] == output;
    }
  }

  /** One callback per chunk: the server answers the packets that a draining receiver delivers. */
  method Serve<Q, R>(server: RpcServer<Q, R>, buf: Buffer, chunks: seq<seq<byte>>, blank: Packet<Q, R>,
                     clock: nat -> int)
    requires buf.Valid()
    modifies server, buf, buf.store
    ensures buf.Valid()
    ensures var r := Receive(server.schema, old(buf.Contents()), chunks, blank);
            && buf.Contents() == r.rest
            && Answered(server.schema, server.services, r.packets, clock, old(server.output), old(server.handled),
                        server.output, server.handled)
    decreases |chunks|
  {
    if chunks == [] {
      NothingAnswered(server.schema, server.services, clock, server.output, server.handled);
      return;
    }
    ghost var output, handled := server.output, server.handled;
    ghost var d := Drain(server.schema, buf.Contents() + chunks[0], blank);
    buf.Append(chunks[0]);
    server.OnMessage(buf, blank, clock);
    ghost var output', handled' := server.output, server.handled;
    ghost var r := Receive(server.schema, d.rest, chunks[1..], blank);
    Serve(server, buf, chunks[1..], blank, clock);
    AnsweredInTurn(server.schema, server.services, d.packets, r.packets, clock, output, handled, output', handled',
                   server.output, server.handled);
  }

  // ---------- what the answers are ----------

  /** reply is the right answer to m, the i-th message, at the given time: a response to a request, an acknowledgement
      to a heartbeat with that time and without extra fields, under the id of m. */
  ghost predicate Answers<Q, R>(services: Services<Q, R>, reply: Message<Q, R>, m: Message<Q, R>, i: nat, time: int) {
    && reply.id == m.id
    && match m
       case RequestMsg(_, service, name, q) =>
         && reply.ResponseMsg?
         && reply.response == (if service in services.names then services.call(i, service, name, q)
                               else services.notFound(service))
         && (reply.status == SUCCESS <==> service in services.names && services.succeeded(reply.response))
         && reply.status != TIMEOUT
       case HeartbeatMsg(_, _, _) =>
         && reply.HeartbeatMsg? && reply.beat.serviceName == SERVICE_NAME && reply.beat.nodeId == NODE_ID
         && reply.beat.timestamp == time && reply.beat.extra == map[] && reply.fields == []
       case ResponseMsg(_, _, _) => false
  }

  /** A message that calls for an answer, with its place among all messages. */
  datatype Asked<Q, R> = Asked(msg: Message<Q, R>, place: nat)

  /** The messages that call for an answer, all but the responses; the first message has place i. */
  function Answerable<Q, R>(msgs: seq<Message<Q, R>>, i: nat): seq<Asked<Q, R>>
    decreases |msgs|
  {
    if msgs == [] then []
    else (if msgs[0].ResponseMsg? then [] else [Asked(msgs[0], i)]) + Answerable(msgs[1..], i + 1)
  }

  lemma ReplyAnswers<Q, R>(services: Services<Q, R>, p: Packet<Q, R>, m: Message<Q, R>, i: nat, time: int)
    requires Delivers(p, m)
    ensures var reply := Reply(services, p, i, time);
            && (reply.None? <==> m.ResponseMsg?)
            && (reply.Some? ==> Answers(services, reply.value, m, i, time))
  {
  }

  ghost predicate AnswersAll<Q, R>(services: Services<Q, R>, replies: seq<Message<Q, R>>, asked: seq<Asked<Q, R>>,
                                   clock: nat -> int)
  {
    && |replies| == |asked|
    && forall k :: 0 <= k < |asked| ==>
         Answers(services, replies[k], asked[k].msg, asked[k].place, clock(asked[k].place))
  }

  lemma {:induction false} RepliesAnswer<Q, R>(services: Services<Q, R>, packets: seq<Packet<Q, R>>,
                                               msgs: seq<Message<Q, R>>, clock: nat -> int, i: nat)
    requires |packets| == |msgs| && forall k :: 0 <= k < |msgs| ==> Delivers(packets[k], msgs[k])
    ensures AnswersAll(services, Replies(services, packets, clock, i), Answerable(msgs, i), clock)
    decreases |msgs|
  {
    if msgs != [] {
      ReplyAnswers(services, packets[0], msgs[0], i, clock(i));
      RepliesAnswer(services, packets[1..], msgs[1..], clock, i + 1);
    }
  }

  /** For every list of sendable messages and every chunking of their encodings, the server sends, in
      order of arrival, exactly one right answer to each request and heartbeat and nothing else. */
  lemma ServerAnswers<Q(!new), R(!new)>(schema: Schema<Q, R>, services: Services<Q, R>, msgs: seq<Message<Q, R>>,
                                        chunks: seq<seq<byte>>, blank: Packet<Q, R>, clock: nat -> int)
    requires Lawful(schema) && forall m :: m in msgs ==> Sendable(schema, m)
    requires Concat(chunks) == Stream(Encoded(schema, msgs)) && Fits(Encoded(schema, msgs), [], chunks)
    ensures AnswersAll(services, Replies(services, Receive(schema, [], chunks, blank).packets, clock, 0),
                       Answerable(msgs, 0), clock)
  {
    AnyChunking(schema, msgs, chunks, blank);
    RepliesAnswer(services, Receive(schema, [], chunks, blank).packets, msgs, clock, 0);
  }

  /** What the caller makes of the answer to a, which the server gave at the given time, in a record that had the given
      extra fields before. */
  ghost predicate Heard<Q, R>(services: Services<Q, R>, p: Packet<Q, R>, a: Asked<Q, R>, time: int,
                              extra: map<seq<byte>, seq<byte>>)
  {
    && p.reqId == a.msg.id
    && match a.msg
       case RequestMsg(_, service, name, q) =>
         && p.msgType == RESPONSE
         && p.response == (if service in services.names then services.call(a.place, service, name, q)
                           else services.notFound(service))
         && (p.networkStatus == SUCCESS <==> service in services.names && services.succeeded(p.response))
         && p.networkStatus != TIMEOUT
       case HeartbeatMsg(_, _, _) =>
         && p.msgType == HEARTBEAT && p.heartbeat.serviceName == SERVICE_NAME && p.heartbeat.nodeId == NODE_ID
         && p.heartbeat.timestamp == time && p.heartbeat.extra == extra
       case ResponseMsg(_, _, _) => false
  }

  lemma CallerHears<Q, R>(services: Services<Q, R>, p: Packet<Q, R>, reply: Message<Q, R>, a: Asked<Q, R>, time: int)
    requires Delivers(p, reply) && Answers(services, reply, a.msg, a.place, time)
    ensures Heard(services, p, a, time, p.heartbeat.extra)
  {
  }

  lemma AnswersNoExtras<Q, R>(services: Services<Q, R>, replies: seq<Message<Q, R>>, asked: seq<Asked<Q, R>>,
                              clock: nat -> int, items: seq<Item<Q, R>>)
    requires AnswersAll(services, replies, asked, clock)
    requires |items| == |replies| && forall i :: 0 <= i < |items| ==> items[i].msg == replies[i]
    ensures NoExtras(items)
  {
    forall i | 0 <= i < |items| && items[i].msg.HeartbeatMsg? ensures items[i].msg.beat.extra == map[] {
      assert Answers(services, replies[i], asked[i].msg, asked[i].place, clock(asked[i].place));
    }
  }

  /** What the caller gets of the answers, however they are cut. */
  lemma AnswersArrive<Q(!new), R(!new)>(schema: Schema<Q, R>, replies: seq<Message<Q, R>>, back: seq<seq<byte>>,
                                        blank: Packet<Q, R>)
    requires Lawful(schema) && forall m :: m in replies ==> Sendable(schema, m)
    requires Concat(back) == Wire(schema, replies) && Fits(Encoded(schema, replies), [], back)
    requires NoExtras(Encoded(schema, replies))
    ensures var r := Receive(schema, [], back, blank);
            && r.rest == [] && |r.packets| == |replies| && ExtrasOf(blank, r.packets)
            && forall i :: 0 <= i < |replies| ==> Delivers(r.packets[i], replies[i])
  {
    WireIsStream(schema, replies);
    AnyChunking(schema, replies, back, blank);
    NoExtrasChunking(schema, replies, back, blank);
  }

  lemma AllHeard<Q, R>(services: Services<Q, R>, replies: seq<Message<Q, R>>, asked: seq<Asked<Q, R>>,
                       packets: seq<Packet<Q, R>>, clock: nat -> int, extra: map<seq<byte>, seq<byte>>)
    requires AnswersAll(services, replies, asked, clock) && |packets| == |replies|
    requires forall i :: 0 <= i < |packets| ==> Delivers(packets[i], replies[i])
    requires forall i :: 0 <= i < |packets| ==> packets[i].heartbeat.extra == extra
    ensures forall k :: 0 <= k < |asked| ==> Heard(services, packets[k], asked[k], clock(asked[k].place), extra)
  {
    forall k | 0 <= k < |asked| ensures Heard(services, packets[k], asked[k], clock(asked[k].place), extra) {
      CallerHears(services, packets[k], replies[k], asked[k], clock(asked[k].place));
    }
  }

  lemma RepliesHeard<Q(!new), R(!new)>(schema: Schema<Q, R>, services: Services<Q, R>, replies: seq<Message<Q, R>>,
                                       asked: seq<Asked<Q, R>>, back: seq<seq<byte>>, blank: Packet<Q, R>,
                                       clock: nat -> int)
    requires Lawful(schema) && forall m :: m in replies ==> Sendable(schema, m)
    requires Concat(back) == Wire(schema, replies) && Fits(Encoded(schema, replies), [], back)
    requires AnswersAll(services, replies, asked, clock)
    ensures var heard := Receive(schema, [], back, blank);
            && heard.rest == [] && |heard.packets| == |asked|
            && forall k :: 0 <= k < |asked| ==>
                 Heard(services, heard.packets[k], asked[k], clock(asked[k].place), blank.heartbeat.extra)
  {
    AnswersNoExtras(services, replies, asked, clock, Encoded(schema, replies));
    AnswersArrive(schema, replies, back, blank);
    AllHeard(services, replies, asked, Receive(schema, [], back, blank).packets, clock, blank.heartbeat.extra);
  }

  /** From the caller's messages to the caller's packets. However the messages are cut on their way to the server, and
      its answers on their way back, the caller gets one packet for each of its requests and heartbeats, in the order
      in which it sent them, under their ids, and with the outcomes of the calls: for every caller, server, handlers
      and chunkings, as long as the answers are within the size limits. */
  lemma EndToEnd<Q(!new), R(!new)>(schema: Schema<Q, R>, services: Services<Q, R>, msgs: seq<Message<Q, R>>,
                                   chunks: seq<seq<byte>>, back: seq<seq<byte>>, blank: Packet<Q, R>, clock: nat -> int)
    requires Lawful(schema) && forall m :: m in msgs ==> Sendable(schema, m)
    requires Concat(chunks) == Stream(Encoded(schema, msgs)) && Fits(Encoded(schema, msgs), [], chunks)
    requires var replies := Replies(services, Receive(schema, [], chunks, blank).packets, clock, 0);
             && (forall m :: m in replies ==> Sendable(schema, m))
             && Concat(back) == Wire(schema, replies) && Fits(Encoded(schema, replies), [], back)
    ensures var heard, asked := Receive(schema, [], back, blank), Answerable(msgs, 0);
            && heard.rest == [] && |heard.packets| == |asked|
            && forall k :: 0 <= k < |asked| ==>
                 Heard(services, heard.packets[k], asked[k], clock(asked[k].place), blank.heartbeat.extra)
  {
    var replies := Replies(services, Receive(schema, [], chunks, blank).packets, clock, 0);
    ServerAnswers(schema, services, msgs, chunks, blank, clock);
    RepliesHeard(schema, services, replies, Answerable(msgs, 0), back, blank, clock);
  }

  /** The acknowledgement of a heartbeat can always be sent. */
  lemma AckSendable<Q, R>(schema: Schema<Q, R>, services: Services<Q, R>, p: Packet<Q, R>, i: nat, time: int)
    requires p.msgType == HEARTBEAT && p.reqId < TWO_64 && 0 <= time < TWO_64 / 2
    ensures Reply(services, p, i, time).Some? && Sendable(schema, Reply(services, p, i, time).value)
  {
  }
}
