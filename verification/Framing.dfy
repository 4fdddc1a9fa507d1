/** Framing over a byte stream: what a receiver that drains its buffer after every read delivers, however the
    stream is cut into chunks. */
module Framing {
  import opened Bytes
  import opened Codec
  import opened RoundTrip

  // ---------- progress ----------

  /** The only inputs that decode leaves as they are: too short for a header, or an acceptable header
      whose frame has not arrived completely. */
  predicate Incomplete(data: seq<byte>) {
    || |data| < HEADER_SIZE
    || (&& |data| <= MAX_BUFFER_SIZE && MagicAt(data, 0) && data[4] == VERSION
        && BodyLen(data) <= MAX_BODY_LEN && |data| < HEADER_SIZE + BodyLen(data) + CHECKSUM_SIZE)
  }

  /** Every call either consumes bytes from the front or waits for more, and the latter exactly on
      incomplete input. */
  lemma DecodeProgress<Q, R>(schema: Schema<Q, R>, data: seq<byte>, p: Packet<Q, R>)
    ensures var s := Decode(schema, data, p);
            && |s.rest| <= |data| && data[|data| - |s.rest|..] == s.rest
            && (|s.rest| == |data| <==> Incomplete(data))
            && (s.ok ==> !Incomplete(data))
            && (Incomplete(data) ==> s == Step(false, data, p))
  {
  }

  /** while (decode): the records delivered one after the other, and the bytes left behind. */
  datatype Drained<Q, R> = Drained(packets: seq<Packet<Q, R>>, rest: seq<byte>)

  function Drain<Q, R>(schema: Schema<Q, R>, data: seq<byte>, p: Packet<Q, R>): Drained<Q, R>
    decreases |data|
  {
    DecodeProgress(schema, data, p);
    var s := Decode(schema, data, p);
    if !s.ok then Drained([], s.rest)
    else
      var d := Drain(schema, s.rest, s.packet);
      Drained([s.packet] + d.packets, d.rest)
  }

  lemma HeaderPrefixIncomplete(frame: seq<byte>, n: nat)
    requires HEADER_SIZE <= n < |frame| && n <= MAX_BUFFER_SIZE && MagicAt(frame, 0) && frame[4] == VERSION
    requires BodyLen(frame) <= MAX_BODY_LEN && |frame| == HEADER_SIZE + BodyLen(frame) + CHECKSUM_SIZE
    ensures Incomplete(frame[..n])
  {
    var data := frame[..n];
    assert data[0..4] == frame[0..4] && data[6..10] == frame[6..10];
  }

  /** A proper prefix of a frame is incomplete. */
  lemma PrefixIncomplete(msgType: byte, reqId: nat, body: seq<byte>, n: nat)
    requires reqId < TWO_64 && |body| <= MAX_BODY_LEN && n <= MAX_BUFFER_SIZE
    requires n < HEADER_SIZE + |body| + CHECKSUM_SIZE
    ensures Incomplete(Pack(msgType, reqId, body)[..n])
  {
    var frame := Pack(msgType, reqId, body);
    PackedParts(msgType, reqId, body, []);
    assert frame + [] == frame;
    if n >= HEADER_SIZE {
      HeaderPrefixIncomplete(frame, n);
    }
  }

  // ---------- any chunking delivers the messages that were sent ----------

  /** f is a frame of m: whole, it is taken off and delivers m; in part, it is waited for. */
  ghost predicate Framed<Q(!new), R(!new)>(schema: Schema<Q, R>, f: seq<byte>, m: Message<Q, R>) {
    && 0 < |f| <= MAX_BUFFER_SIZE
    && (forall rest, p :: |f| + |rest| <= MAX_BUFFER_SIZE ==>
          Decode(schema, f + rest, p) == Step(true, rest, Absorb(p, m)))
    && (forall n :: 0 <= n < |f| ==> Incomplete(f[..n]))
  }

  lemma SendableFramed<Q(!new), R(!new)>(schema: Schema<Q, R>, m: Message<Q, R>)
    requires Lawful(schema) && Sendable(schema, m)
    ensures Framed(schema, Encode(schema, m), m)
  {
    var f := Encode(schema, m);
    FrameLength(schema, m);
    forall rest, p | |f| + |rest| <= MAX_BUFFER_SIZE
      ensures Decode(schema, f + rest, p) == Step(true, rest, Absorb(p, m))
    {
      DecodeEncoded(schema, m, rest, p);
    }
    forall n | 0 <= n < |f| ensures Incomplete(f[..n]) {
      SendableBody(schema, m);
      PrefixIncomplete(TypeByte(TypeOf(m)), m.id, Body(schema, m), n);
    }
  }

  /** A message with its frame. */
  datatype Item<Q, R> = Item(frame: seq<byte>, msg: Message<Q, R>)

  ghost predicate AllFramed<Q(!new), R(!new)>(schema: Schema<Q, R>, items: seq<Item<Q, R>>) {
    forall i :: 0 <= i < |items| ==> Framed(schema, items[i].frame, items[i].msg)
  }

  /** The byte stream that the frames make up. */
  function Stream<Q, R>(items: seq<Item<Q, R>>): seq<byte> {
    if items == [] then [] else items[0].frame + Stream(items[1..])
  }

  /** p presents m to the reader. Extra fields of a heartbeat are there, possibly with older ones. */
  ghost predicate Delivers<Q, R>(p: Packet<Q, R>, m: Message<Q, R>) {
    && p.msgType == TypeOf(m) && p.reqId == m.id
    && match m
       case RequestMsg(_, service, name, q) => p.serviceName == service && p.methodName == name && p.request == q
       case ResponseMsg(_, status, r) => p.networkStatus == status && p.response == r
       case HeartbeatMsg(_, hb, _) =>
         && p.heartbeat.serviceName == hb.serviceName && p.heartbeat.nodeId == hb.nodeId
         && p.heartbeat.timestamp == hb.timestamp
         && forall k :: k in hb.extra ==> k in p.heartbeat.extra && p.heartbeat.extra[k] == hb.extra[k]
  }

  ghost predicate DeliversAll<Q, R>(packets: seq<Packet<Q, R>>, items: seq<Item<Q, R>>) {
    |packets| == |items| && forall i :: 0 <= i < |items| ==> Delivers(packets[i], items[i].msg)
  }

  /** The messages whose frames are complete in data, a prefix of the stream. */
  function Done<Q, R>(items: seq<Item<Q, R>>, data: seq<byte>): seq<Item<Q, R>>
    decreases |items|
  {
    if items == [] || |data| < |items[0].frame| then []
    else [items[0]] + Done(items[1..], data[|items[0].frame|..])
  }

  /** The messages that are still to come. */
  function ToCome<Q, R>(items: seq<Item<Q, R>>, data: seq<byte>): seq<Item<Q, R>>
    decreases |items|
  {
    if items == [] || |data| < |items[0].frame| then items
    else ToCome(items[1..], data[|items[0].frame|..])
  }

  /** The bytes held back: the front of the frame that is still incomplete. */
  function Held<Q, R>(items: seq<Item<Q, R>>, data: seq<byte>): seq<byte>
    decreases |items|
  {
    if items == [] || |data| < |items[0].frame| then data
    else Held(items[1..], data[|items[0].frame|..])
  }

  /** The three cut a stream consistently: going on after data is starting over with what was held back. */
  lemma {:induction false} CutLater<Q, R>(items: seq<Item<Q, R>>, data: seq<byte>, later: seq<byte>)
    ensures var held, items' := Held(items, data) + later, ToCome(items, data);
            && Done(items, data + later) == Done(items, data) + Done(items', held)
            && ToCome(items, data + later) == ToCome(items', held)
            && Held(items, data + later) == Held(items', held)
    decreases |items|
  {
    if items != [] && |data| >= |items[0].frame| {
      var n := |items[0].frame|;
      assert (data + later)[n..] == data[n..] + later;
      CutLater(items[1..], data[n..], later);
    }
  }

  lemma {:induction false} StillPrefix<Q, R>(items: seq<Item<Q, R>>, data: seq<byte>, later: seq<byte>)
    requires data + later <= Stream(items)
    ensures Held(items, data) + later <= Stream(ToCome(items, data))
    decreases |items|
  {
    if items != [] && |data| >= |items[0].frame| {
      var n := |items[0].frame|;
      assert (data + later)[n..] == data[n..] + later;
      assert Stream(items)[n..] == Stream(items[1..]);
      StillPrefix(items[1..], data[n..], later);
    }
  }

  lemma {:induction false} ToComeFramed<Q(!new), R(!new)>(schema: Schema<Q, R>, items: seq<Item<Q, R>>, data: seq<byte>)
    requires AllFramed(schema, items)
    ensures AllFramed(schema, ToCome(items, data))
    decreases |items|
  {
    if items != [] && |data| >= |items[0].frame| {
      ToComeFramed(schema, items[1..], data[|items[0].frame|..]);
    }
  }

  /** The record after each of the messages in turn, starting from p. */
  function Records<Q, R>(p: Packet<Q, R>, items: seq<Item<Q, R>>): (records: seq<Packet<Q, R>>)
    ensures |records| == |items|
    decreases |items|
  {
    if items == [] then [] else [Absorb(p, items[0].msg)] + Records(Absorb(p, items[0].msg), items[1..])
  }

  lemma {:induction false} RecordsDeliver<Q, R>(p: Packet<Q, R>, items: seq<Item<Q, R>>)
    ensures DeliversAll(Records(p, items), items)
    decreases |items|
  {
    if items != [] {
      AbsorbDelivers(p, items[0].msg);
      RecordsDeliver(Absorb(p, items[0].msg), items[1..]);
      DeliversCons(Absorb(p, items[0].msg), Records(Absorb(p, items[0].msg), items[1..]), items[0], items[1..]);
      assert items == [items[0]] + items[1..];
    }
  }

  /** One callback drains exactly the frames that are complete by then, and hands out exactly these records. */
  lemma {:induction false} DrainRecords<Q(!new), R(!new)>(schema: Schema<Q, R>, items: seq<Item<Q, R>>, data: seq<byte>,
                                                          p: Packet<Q, R>)
    requires AllFramed(schema, items)
    requires data <= Stream(items) && |data| <= MAX_BUFFER_SIZE
    ensures Drain(schema, data, p) == Drained(Records(p, Done(items, data)), Held(items, data))
    decreases |items|
  {
    if items == [] {
      DrainIncomplete(schema, data, p);
    } else {
      var f, m := items[0].frame, items[0].msg;
      assert Framed(schema, f, m);
      PrefixCases(f, Stream(items[1..]), data);
      if |data| < |f| {
        DrainIncomplete(schema, data, p);
      } else {
        var rest := data[|f|..];
        DrainRecords(schema, items[1..], rest, Absorb(p, m));
        DrainFrame(schema, f, m, rest, p);
        assert ([items[0]] + Done(items[1..], rest))[1..] == Done(items[1..], rest);
      }
    }
  }

  /** In particular it delivers those messages. */
  lemma DrainPrefix<Q(!new), R(!new)>(schema: Schema<Q, R>, items: seq<Item<Q, R>>, data: seq<byte>, p: Packet<Q, R>)
    requires AllFramed(schema, items)
    requires data <= Stream(items) && |data| <= MAX_BUFFER_SIZE
    ensures var d := Drain(schema, data, p);
            DeliversAll(d.packets, Done(items, data)) && d.rest == Held(items, data)
  {
    DrainRecords(schema, items, data, p);
    RecordsDeliver(p, Done(items, data));
  }

  lemma DrainIncomplete<Q, R>(schema: Schema<Q, R>, data: seq<byte>, p: Packet<Q, R>)
    requires Incomplete(data)
    ensures Drain(schema, data, p) == Drained([], data)
  {
    DecodeProgress(schema, data, p);
  }

  lemma DeliversCons<Q, R>(p: Packet<Q, R>, packets: seq<Packet<Q, R>>, item: Item<Q, R>, items: seq<Item<Q, R>>)
    requires Delivers(p, item.msg) && DeliversAll(packets, items)
    ensures DeliversAll([p] + packets, [item] + items)
  {
  }

  lemma PrefixCases(f: seq<byte>, rest: seq<byte>, data: seq<byte>)
    requires data <= f + rest
    ensures |data| < |f| ==> data == f[..|data|]
    ensures |data| >= |f| ==> data == f + data[|f|..] && data[|f|..] <= rest
  {
    assert data == (f + rest)[..|data|];
    if |data| >= |f| {
      assert (f + rest)[|f|..] == rest;
    }
  }

  lemma DrainFrame<Q(!new), R(!new)>(schema: Schema<Q, R>, f: seq<byte>, m: Message<Q, R>, rest: seq<byte>,
                                     p: Packet<Q, R>)
    requires Framed(schema, f, m) && |f| + |rest| <= MAX_BUFFER_SIZE
    ensures var d := Drain(schema, rest, Absorb(p, m));
            Drain(schema, f + rest, p) == Drained([Absorb(p, m)] + d.packets, d.rest)
    ensures Delivers(Absorb(p, m), m)
  {
    DrainStep(schema, f + rest, p);
    AbsorbDelivers(p, m);
  }

  lemma DrainStep<Q, R>(schema: Schema<Q, R>, data: seq<byte>, p: Packet<Q, R>)
    ensures var s := Decode(schema, data, p);
            s.ok ==>
              Drain(schema, data, p) ==
              Drained([s.packet] + Drain(schema, s.rest, s.packet).packets, Drain(schema, s.rest, s.packet).rest)
  {
    DecodeProgress(schema, data, p);
  }

  lemma AbsorbDelivers<Q, R>(p: Packet<Q, R>, m: Message<Q, R>)
    ensures Delivers(Absorb(p, m), m)
  {
  }

  /** One message callback per chunk: append it to what is left, then drain into a blank record. */
  function Receive<Q, R>(schema: Schema<Q, R>, buffer: seq<byte>, chunks: seq<seq<byte>>,
                         blank: Packet<Q, R>): Drained<Q, R>
    decreases |chunks|
  {
    if chunks == [] then Drained([], buffer)
    else
      var d := Drain(schema, buffer + chunks[0], blank);
      var r := Receive(schema, d.rest, chunks[1..], blank);
      Drained(d.packets + r.packets, r.rest)
  }

  /** The buffer limit is kept: what is held back of an incomplete frame plus the next chunk fits. */
  predicate Fits<Q, R>(items: seq<Item<Q, R>>, held: seq<byte>, chunks: seq<seq<byte>>)
    decreases |chunks|
  {
    chunks == [] ||
    (var data := held + chunks[0];
     |data| <= MAX_BUFFER_SIZE && Fits(ToCome(items, data), Held(items, data), chunks[1..]))
  }

  lemma DeliversJoin<Q, R>(first: seq<Packet<Q, R>>, second: seq<Packet<Q, R>>, a: seq<Item<Q, R>>, b: seq<Item<Q, R>>)
    requires DeliversAll(first, a) && DeliversAll(second, b)
    ensures DeliversAll(first + second, a + b)
  {
  }

  lemma NothingDone<Q, R>(items: seq<Item<Q, R>>, data: seq<byte>)
    requires Held(items, data) == data
    requires forall i :: 0 <= i < |items| ==> items[i].frame != []
    ensures Done(items, data) == []
  {
    if items != [] && |data| >= |items[0].frame| {
      HeldShrinks(items[1..], data[|items[0].frame|..]);
    }
  }

  lemma {:induction false} HeldShrinks<Q, R>(items: seq<Item<Q, R>>, data: seq<byte>)
    ensures |Held(items, data)| <= |data|
    decreases |items|
  {
    if items != [] && |data| >= |items[0].frame| {
      HeldShrinks(items[1..], data[|items[0].frame|..]);
    }
  }

  /** After any run of chunks whose concatenation is a prefix of the stream, exactly the messages whose
      frames are complete have been delivered, and the rest of the prefix is held back. */
  lemma {:induction false} ReceivePrefix<Q(!new), R(!new)>(schema: Schema<Q, R>, items: seq<Item<Q, R>>,
                                                           held: seq<byte>, chunks: seq<seq<byte>>, blank: Packet<Q, R>)
    requires AllFramed(schema, items)
    requires held + Concat(chunks) <= Stream(items)
    requires Held(items, held) == held
    requires Fits(items, held, chunks)
    ensures var r := Receive(schema, held, chunks, blank);
            var data := held + Concat(chunks);
            DeliversAll(r.packets, Done(items, data)) && r.rest == Held(items, data)
    decreases |chunks|
  {
    if chunks == [] {
      assert held + Concat(chunks) == held;
      assert forall i :: 0 <= i < |items| ==> Framed(schema, items[i].frame, items[i].msg);
      NothingDone(items, held);
    } else {
      var data, later := held + chunks[0], Concat(chunks[1..]);
      var items', held' := ToCome(items, data), Held(items, data);
      assert held + Concat(chunks) == data + later;
      assert data <= Stream(items) by { assert data == (data + later)[..|data|]; }
      DrainPrefix(schema, items, data, blank);
      CutLater(items, data, later);
      StillPrefix(items, data, later);
      ToComeFramed(schema, items, data);
      HeldAgain(items, data);
      ReceivePrefix(schema, items', held', chunks[1..], blank);
      DeliversJoin(Drain(schema, data, blank).packets, Receive(schema, held', chunks[1..], blank).packets,
                   Done(items, data), Done(items', held' + later));
    }
  }

  lemma HeldAgain<Q, R>(items: seq<Item<Q, R>>, data: seq<byte>)
    ensures Held(ToCome(items, data), Held(items, data)) == Held(items, data)
  {
    CutLater(items, data, []);
    assert data + [] == data && Held(items, data) + [] == Held(items, data);
  }

  /** The messages with their encodings. */
  function Encoded<Q, R>(schema: Schema<Q, R>, msgs: seq<Message<Q, R>>): (items: seq<Item<Q, R>>)
    ensures |items| == |msgs|
    ensures forall i :: 0 <= i < |msgs| ==> items[i] == Item(Encode(schema, msgs[i]), msgs[i])
  {
    seq(|msgs|, i requires 0 <= i < |msgs| => Item(Encode(schema, msgs[i]), msgs[i]))
  }

  lemma SendableAllFramed<Q(!new), R(!new)>(schema: Schema<Q, R>, msgs: seq<Message<Q, R>>)
    requires Lawful(schema) && forall m :: m in msgs ==> Sendable(schema, m)
    ensures AllFramed(schema, Encoded(schema, msgs))
  {
    var items := Encoded(schema, msgs);
    forall i | 0 <= i < |items| ensures Framed(schema, items[i].frame, items[i].msg) {
      SendableFramed(schema, msgs[i]);
    }
  }

  lemma {:induction false} AllDone<Q, R>(items: seq<Item<Q, R>>)
    ensures Done(items, Stream(items)) == items && Held(items, Stream(items)) == []
    decreases |items|
  {
    if items != [] {
      assert Stream(items)[|items[0].frame|..] == Stream(items[1..]);
      AllDone(items[1..]);
    }
  }

  /** However the encodings of sendable messages are cut into chunks, the receiver delivers exactly
      those messages, in order, and ends with an empty buffer. */
  lemma AnyChunking<Q(!new), R(!new)>(schema: Schema<Q, R>, msgs: seq<Message<Q, R>>, chunks: seq<seq<byte>>,
                                      blank: Packet<Q, R>)
    requires Lawful(schema) && forall m :: m in msgs ==> Sendable(schema, m)
    requires Concat(chunks) == Stream(Encoded(schema, msgs))
    requires Fits(Encoded(schema, msgs), [], chunks)
    ensures var r := Receive(schema, [], chunks, blank);
            && r.rest == [] && |r.packets| == |msgs|
            && forall i :: 0 <= i < |msgs| ==> Delivers(r.packets[i], msgs[i])
  {
    var items := Encoded(schema, msgs);
    SendableAllFramed(schema, msgs);
    assert [] + Concat(chunks) == Concat(chunks);
    ReceivePrefix(schema, items, [], chunks, blank);
    AllDone(items);
  }

  // ---------- a message that arrives alone ----------

  lemma DrainShort<Q, R>(schema: Schema<Q, R>, data: seq<byte>, p: Packet<Q, R>)
    requires |data| < HEADER_SIZE + CHECKSUM_SIZE
    ensures var d := Drain(schema, data, p);
            d.packets == [] && |d.rest| <= |data|
  {
    DecodeProgress(schema, data, p);
  }

  /** Fewer bytes than the smallest frame has deliver nothing. */
  lemma {:induction false} ReceiveShort<Q, R>(schema: Schema<Q, R>, buffer: seq<byte>, chunks: seq<seq<byte>>,
                                              blank: Packet<Q, R>)
    requires |buffer| + |Concat(chunks)| < HEADER_SIZE + CHECKSUM_SIZE
    ensures Receive(schema, buffer, chunks, blank).packets == []
    decreases |chunks|
  {
    if chunks != [] {
      DrainShort(schema, buffer + chunks[0], blank);
      ReceiveShort(schema, Drain(schema, buffer + chunks[0], blank).rest, chunks[1..], blank);
    }
  }

  /** What the arrival of f and nothing else delivers: the packets of its drain, if it fits into the buffer. */
  ghost predicate Yields<Q, R>(schema: Schema<Q, R>, f: seq<byte>, blank: Packet<Q, R>, packets: seq<Packet<Q, R>>) {
    && |f| <= MAX_BUFFER_SIZE + HEADER_SIZE + CHECKSUM_SIZE
    && (forall n :: 0 <= n < |f| && n <= MAX_BUFFER_SIZE ==> Incomplete(f[..n]))
    && (if |f| <= MAX_BUFFER_SIZE then Drain(schema, f, blank) == Drained(packets, []) else packets == [])
  }

  lemma NextPart(f: seq<byte>, k: nat, chunk: seq<byte>, others: seq<byte>) returns (k': nat)
    requires k <= |f| && f[..k] + (chunk + others) == f
    ensures k' == k + |chunk| <= |f| && f[..k] + chunk == f[..k'] && f[..k'] + others == f && |others| == |f| - k'
  {
    k' := k + |chunk|;
    assert |f[..k] + (chunk + others)| == |f|;
    assert (f[..k] + (chunk + others))[..k'] == f[..k] + chunk;
  }

  /** With its last bytes, or those that take the buffer over the limit, f leaves nothing behind. */
  lemma LastPart<Q, R>(schema: Schema<Q, R>, f: seq<byte>, k: nat, blank: Packet<Q, R>, packets: seq<Packet<Q, R>>)
    requires Yields(schema, f, blank, packets) && k <= |f| && (k == |f| || k > MAX_BUFFER_SIZE)
    ensures Drain(schema, f[..k], blank) == Drained(packets, [])
  {
    if k <= MAX_BUFFER_SIZE {
      assert f[..k] == f;
    } else {
      OversizedDropped(schema, f[..k], blank);
    }
  }

  lemma {:induction false} ReceivePart<Q, R>(schema: Schema<Q, R>, f: seq<byte>, k: nat, chunks: seq<seq<byte>>,
                                             blank: Packet<Q, R>, packets: seq<Packet<Q, R>>)
    requires Yields(schema, f, blank, packets) && k < |f| && k <= MAX_BUFFER_SIZE && f[..k] + Concat(chunks) == f
    ensures Receive(schema, f[..k], chunks, blank).packets == packets
    decreases |chunks|
  {
    if chunks == [] {
      assert false;
    } else {
      var k' := NextPart(f, k, chunks[0], Concat(chunks[1..]));
      if k' < |f| && k' <= MAX_BUFFER_SIZE {
        DrainIncomplete(schema, f[..k'], blank);
        ReceivePart(schema, f, k', chunks[1..], blank, packets);
      } else {
        LastPart(schema, f, k', blank, packets);
        ReceiveShort(schema, [], chunks[1..], blank);
      }
    }
  }

  lemma DrainAlone<Q, R>(schema: Schema<Q, R>, f: seq<byte>, ok: bool, q: Packet<Q, R>, p: Packet<Q, R>)
    requires var s := Decode(schema, f, p);
             s.ok == ok && s.rest == [] && (ok ==> s.packet == q)
    ensures Drain(schema, f, p) == Drained(if ok then [q] else [], [])
  {
    DrainShort(schema, [], q);
  }

  lemma YieldsEncoded<Q(!new), R(!new)>(schema: Schema<Q, R>, m: Message<Q, R>, blank: Packet<Q, R>)
    requires Lawful(schema) && Encodable(schema, m) && |Body(schema, m)| <= MAX_BODY_LEN
    ensures Yields(schema, Encode(schema, m), blank, if Sendable(schema, m) then [Absorb(blank, m)] else [])
  {
    var f := Encode(schema, m);
    FrameLength(schema, m);
    SendableBody(schema, m);
    forall n | 0 <= n < |f| && n <= MAX_BUFFER_SIZE ensures Incomplete(f[..n]) {
      PrefixIncomplete(TypeByte(TypeOf(m)), m.id, Body(schema, m), n);
    }
    if |f| <= MAX_BUFFER_SIZE {
      DecodeFitting(schema, m, [], blank);
      assert f + [] == f;
      DrainAlone(schema, f, Sendable(schema, m), Absorb(blank, m), blank);
    }
  }

  /** A message with a body of acceptable length arrives alone, in chunks of any kind: it is delivered exactly when
      it is sendable, and otherwise nothing is. */
  lemma AloneExactlyWhen<Q(!new), R(!new)>(schema: Schema<Q, R>, m: Message<Q, R>, chunks: seq<seq<byte>>,
                                           blank: Packet<Q, R>)
    requires Lawful(schema) && Encodable(schema, m) && |Body(schema, m)| <= MAX_BODY_LEN
    requires Concat(chunks) == Encode(schema, m)
    ensures Receive(schema, [], chunks, blank).packets == if Sendable(schema, m) then [Absorb(blank, m)] else []
  {
    var f := Encode(schema, m);
    FrameLength(schema, m);
    YieldsEncoded(schema, m, blank);
    assert f[..0] == [] && [] + Concat(chunks) == f;
    ReceivePart(schema, f, 0, chunks, blank, if Sendable(schema, m) then [Absorb(blank, m)] else []);
  }

  /** A request whose body is exactly as long as the limit allows encodes, and is lost however it arrives. */
  lemma LargestBodyLost(m: Message<seq<byte>, seq<byte>>, chunks: seq<seq<byte>>, blank: Packet<seq<byte>, seq<byte>>)
    requires m == RequestMsg(1, [], [], seq(MAX_BODY_LEN - 8, _ => 0)) && Concat(chunks) == Encode(Plain, m)
    ensures |Body(Plain, m)| == MAX_BODY_LEN && Encode(Plain, m) != []
    ensures Receive(Plain, [], chunks, blank).packets == []
  {
    FrameLength(Plain, m);
    AloneExactlyWhen(Plain, m, chunks, blank);
  }

  // ---------- the buffer limit ----------

  /** After every chunk exactly the messages whose frames are complete have been delivered, and the front of the
      next frame is left. */
  ghost predicate InStep<Q(!new), R(!new)>(schema: Schema<Q, R>, items: seq<Item<Q, R>>, held: seq<byte>,
                                           chunks: seq<seq<byte>>, blank: Packet<Q, R>)
    decreases |chunks|
  {
    chunks == [] ||
    (var data := held + chunks[0];
     var d := Drain(schema, data, blank);
     && DeliversAll(d.packets, Done(items, data)) && d.rest == Held(items, data)
     && InStep(schema, ToCome(items, data), Held(items, data), chunks[1..], blank))
  }

  /** A chunk that takes the buffer over its limit costs everything in the buffer, complete messages included. */
  lemma OverLimit<Q(!new), R(!new)>(schema: Schema<Q, R>, items: seq<Item<Q, R>>, data: seq<byte>, p: Packet<Q, R>)
    requires AllFramed(schema, items) && data <= Stream(items) && |data| > MAX_BUFFER_SIZE
    ensures Drain(schema, data, p) == Drained([], []) && Done(items, data) != []
  {
    OversizedDropped(schema, data, p);
    assert items != [];
    assert Framed(schema, items[0].frame, items[0].msg);
  }

  /** Delivery stays in step with the stream exactly when the buffer limit is kept. */
  lemma {:induction false} InStepExactlyWhen<Q(!new), R(!new)>(schema: Schema<Q, R>, items: seq<Item<Q, R>>,
                                                               held: seq<byte>,
                                                               chunks: seq<seq<byte>>, blank: Packet<Q, R>)
    requires AllFramed(schema, items) && held + Concat(chunks) <= Stream(items)
    ensures InStep(schema, items, held, chunks, blank) <==> Fits(items, held, chunks)
    decreases |chunks|
  {
    if chunks != [] {
      var data, later := held + chunks[0], Concat(chunks[1..]);
      assert held + Concat(chunks) == data + later;
      assert data <= Stream(items) by { assert data == (data + later)[..|data|]; }
      if |data| > MAX_BUFFER_SIZE {
        OverLimit(schema, items, data, blank);
      } else {
        DrainPrefix(schema, items, data, blank);
        StillPrefix(items, data, later);
        ToComeFramed(schema, items, data);
        InStepExactlyWhen(schema, ToCome(items, data), Held(items, data), chunks[1..], blank);
      }
    }
  }

  /** A condition on sizes alone that keeps the buffer limit. */
  lemma {:induction false} SmallChunksFit<Q, R>(items: seq<Item<Q, R>>, held: seq<byte>, chunks: seq<seq<byte>>,
                                                largest: nat)
    requires forall i :: 0 <= i < |items| ==> |items[i].frame| <= largest
    requires forall c :: c in chunks ==> largest + |c| <= MAX_BUFFER_SIZE
    requires |held| <= largest && held + Concat(chunks) <= Stream(items)
    ensures Fits(items, held, chunks)
    decreases |chunks|
  {
    if chunks != [] {
      var data := held + chunks[0];
      assert held + Concat(chunks) == data + Concat(chunks[1..]);
      StillPrefix(items, data, Concat(chunks[1..]));
      HeldBounded(items, data, largest);
      SmallChunksFit(ToCome(items, data), Held(items, data), chunks[1..], largest);
    }
  }

  lemma {:induction false} HeldBounded<Q, R>(items: seq<Item<Q, R>>, data: seq<byte>, largest: nat)
    requires forall i :: 0 <= i < |items| ==> |items[i].frame| <= largest
    requires |data| <= |Stream(items)|
    ensures |Held(items, data)| <= largest
    ensures forall i :: 0 <= i < |ToCome(items, data)| ==> |ToCome(items, data)[i].frame| <= largest
    decreases |items|
  {
    if items != [] && |data| >= |items[0].frame| {
      HeldBounded(items[1..], data[|items[0].frame|..], largest);
    }
  }

  // ---------- heartbeats that share a record ----------

  /** The keys that the record has when the i-th message of a drain arrives: those it started with, and those of all
      heartbeats before it. */
  function KeysBefore<Q, R>(p: Packet<Q, R>, items: seq<Item<Q, R>>, i: nat): set<seq<byte>>
    requires i <= |items|
    decreases i
  {
    if i == 0 then p.heartbeat.extra.Keys
    else
      KeysBefore(p, items, i - 1) + (if items[i - 1].msg.HeartbeatMsg? then items[i - 1].msg.beat.extra.Keys else {})
  }

  /** The record that the i-th message finds. */
  function RecordBefore<Q, R>(p: Packet<Q, R>, items: seq<Item<Q, R>>, i: nat): Packet<Q, R>
    requires i <= |items|
  {
    if i == 0 then p else Records(p, items)[i - 1]
  }

  lemma {:induction false} RecordsAt<Q, R>(p: Packet<Q, R>, items: seq<Item<Q, R>>, i: nat)
    requires i < |items|
    ensures Records(p, items)[i] == Absorb(RecordBefore(p, items, i), items[i].msg)
    decreases i
  {
    if i > 0 {
      var q := Absorb(p, items[0].msg);
      RecordsAt(q, items[1..], i - 1);
      assert i > 1 ==> Records(p, items)[i - 1] == Records(q, items[1..])[i - 2];
    }
  }

  lemma {:induction false} KeysOfRecord<Q, R>(p: Packet<Q, R>, items: seq<Item<Q, R>>, i: nat)
    requires i <= |items|
    ensures RecordBefore(p, items, i).heartbeat.extra.Keys == KeysBefore(p, items, i)
    decreases i
  {
    if i > 0 {
      KeysOfRecord(p, items, i - 1);
      RecordsAt(p, items, i - 1);
      AbsorbKeys(RecordBefore(p, items, i - 1), items[i - 1].msg);
    }
  }

  lemma AbsorbKeys<Q, R>(p: Packet<Q, R>, m: Message<Q, R>)
    ensures Absorb(p, m).heartbeat.extra.Keys ==
            p.heartbeat.extra.Keys + (if m.HeartbeatMsg? then m.beat.extra.Keys else {})
  {
  }

  lemma AbsorbExact<Q, R>(p: Packet<Q, R>, m: Message<Q, R>)
    requires m.HeartbeatMsg?
    ensures Absorb(p, m).heartbeat == m.beat <==> p.heartbeat.extra.Keys <= m.beat.extra.Keys
  {
    var extra := p.heartbeat.extra + m.beat.extra;
    if p.heartbeat.extra.Keys <= m.beat.extra.Keys {
      assert extra == m.beat.extra;
    } else {
      var k :| k in p.heartbeat.extra.Keys && k !in m.beat.extra.Keys;
      assert k in extra;
    }
  }

  /** The i-th record that a drain hands out shows its heartbeat as it was sent exactly when the fields the record
      started with and those of all earlier heartbeats of the drain are among its own. */
  lemma HeartbeatExact<Q(!new), R(!new)>(schema: Schema<Q, R>, items: seq<Item<Q, R>>, data: seq<byte>, p: Packet<Q, R>,
                                         i: nat)
    requires AllFramed(schema, items) && data <= Stream(items) && |data| <= MAX_BUFFER_SIZE
    requires i < |Done(items, data)| && Done(items, data)[i].msg.HeartbeatMsg?
    ensures var done, packets := Done(items, data), Drain(schema, data, p).packets;
            && |packets| == |done|
            && (packets[i].heartbeat == done[i].msg.beat <==> KeysBefore(p, done, i) <= done[i].msg.beat.extra.Keys)
  {
    var done := Done(items, data);
    DrainRecords(schema, items, data, p);
    RecordsAt(p, done, i);
    KeysOfRecord(p, done, i);
    AbsorbExact(RecordBefore(p, done, i), done[i].msg);
  }

  // ---------- without extra fields ----------

  /** No heartbeat among the messages has extra fields. */
  ghost predicate NoExtras<Q, R>(items: seq<Item<Q, R>>) {
    forall i :: 0 <= i < |items| && items[i].msg.HeartbeatMsg? ==> items[i].msg.beat.extra == map[]
  }

  /** The records show the extra fields of p and no others. */
  ghost predicate ExtrasOf<Q, R>(p: Packet<Q, R>, records: seq<Packet<Q, R>>) {
    forall i :: 0 <= i < |records| ==> records[i].heartbeat.extra == p.heartbeat.extra
  }

  lemma {:induction false} RecordsNoExtras<Q, R>(p: Packet<Q, R>, items: seq<Item<Q, R>>)
    requires NoExtras(items)
    ensures ExtrasOf(p, Records(p, items))
    decreases |items|
  {
    if items != [] {
      RecordsNoExtras(Absorb(p, items[0].msg), items[1..]);
    }
  }

  lemma {:induction false} DoneNoExtras<Q, R>(items: seq<Item<Q, R>>, data: seq<byte>)
    requires NoExtras(items)
    ensures NoExtras(Done(items, data)) && NoExtras(ToCome(items, data))
    decreases |items|
  {
    if items != [] && |data| >= |items[0].frame| {
      DoneNoExtras(items[1..], data[|items[0].frame|..]);
    }
  }

  /** However they are cut, messages without extra fields come out with those of the blank record and no others. */
  lemma {:induction false} ReceiveNoExtras<Q(!new), R(!new)>(schema: Schema<Q, R>, items: seq<Item<Q, R>>,
                                                             held: seq<byte>, chunks: seq<seq<byte>>,
                                                             blank: Packet<Q, R>)
    requires AllFramed(schema, items) && NoExtras(items)
    requires held + Concat(chunks) <= Stream(items) && Held(items, held) == held && Fits(items, held, chunks)
    ensures ExtrasOf(blank, Receive(schema, held, chunks, blank).packets)
    decreases |chunks|
  {
    if chunks != [] {
      var data, later := held + chunks[0], Concat(chunks[1..]);
      var items', held' := ToCome(items, data), Held(items, data);
      assert held + Concat(chunks) == data + later;
      assert data <= Stream(items) by { assert data == (data + later)[..|data|]; }
      DrainPrefix(schema, items, data, blank);
      DrainRecords(schema, items, data, blank);
      DoneNoExtras(items, data);
      RecordsNoExtras(blank, Done(items, data));
      StillPrefix(items, data, later);
      ToComeFramed(schema, items, data);
      HeldAgain(items, data);
      ReceiveNoExtras(schema, items', held', chunks[1..], blank);
    }
  }

  lemma NoExtrasChunking<Q(!new), R(!new)>(schema: Schema<Q, R>, msgs: seq<Message<Q, R>>, chunks: seq<seq<byte>>,
                                           blank: Packet<Q, R>)
    requires Lawful(schema) && forall m :: m in msgs ==> Sendable(schema, m)
    requires Concat(chunks) == Stream(Encoded(schema, msgs)) && Fits(Encoded(schema, msgs), [], chunks)
    requires NoExtras(Encoded(schema, msgs))
    ensures ExtrasOf(blank, Receive(schema, [], chunks, blank).packets)
  {
    SendableAllFramed(schema, msgs);
    assert [] + Concat(chunks) == Concat(chunks);
    ReceiveNoExtras(schema, Encoded(schema, msgs), [], chunks, blank);
  }

  lemma OneFrame<Q(!new), R(!new)>(schema: Schema<Q, R>, f: seq<byte>, m: Message<Q, R>, p: Packet<Q, R>)
    requires Framed(schema, f, m)
    ensures Drain(schema, f, p) == Drained([Absorb(p, m)], [])
  {
    assert f + [] == f;
    DrainAlone(schema, f, true, Absorb(p, m), p);
  }

  lemma TwoFrames<Q(!new), R(!new)>(schema: Schema<Q, R>, f: seq<byte>, a: Message<Q, R>, g: seq<byte>,
                                    b: Message<Q, R>, p: Packet<Q, R>)
    requires Framed(schema, f, a) && Framed(schema, g, b) && |f| + |g| <= MAX_BUFFER_SIZE
    ensures Drain(schema, f + g, p) == Drained([Absorb(p, a), Absorb(Absorb(p, a), b)], [])
  {
    DrainFrame(schema, f, a, g, p);
    OneFrame(schema, g, b, Absorb(p, a));
  }

  /** A heartbeat without fields, behind one with a field in the same drain, is handed out with that field. */
  lemma LeftoverShown<Q(!new), R(!new)>(schema: Schema<Q, R>, a: Message<Q, R>, b: Message<Q, R>, p: Packet<Q, R>,
                                        key: seq<byte>)
    requires Lawful(schema) && Sendable(schema, a) && Sendable(schema, b)
    requires 2 * (HEADER_SIZE + CHECKSUM_SIZE) + |Body(schema, a)| + |Body(schema, b)| <= MAX_BUFFER_SIZE
    requires a.HeartbeatMsg? && key in a.beat.extra && b.HeartbeatMsg? && b.beat.extra == map[]
    ensures var packets := Drain(schema, Encode(schema, a) + Encode(schema, b), p).packets;
            |packets| == 2 && key in packets[1].heartbeat.extra && packets[1].heartbeat != b.beat
  {
    FrameLength(schema, a);
    FrameLength(schema, b);
    SendableFramed(schema, a);
    SendableFramed(schema, b);
    TwoFrames(schema, Encode(schema, a), a, Encode(schema, b), b, p);
    AbsorbKeys(p, a);
    AbsorbKeys(Absorb(p, a), b);
  }
}
