/** Streams on which the receiver loses its place: headers it gives up on, bodies over the limit, chunks that overfill
    the buffer, and garbage, each for every way in which the bytes arrive in chunks. */
module OutOfStep {
  import opened Bytes
  import opened Codec
  import opened RoundTrip
  import opened Framing
  import opened Damage
  import Crc32

  // ---------- headers that are given up ----------

  /** A header behind a good magic number on which decode drops everything readable: it has another version, or
      announces a body over the limit. */
  ghost predicate Hopeless(data: seq<byte>) {
    |data| >= HEADER_SIZE && MagicAt(data, 0) && (data[4] != VERSION || BodyLen(data) > MAX_BODY_LEN)
  }

  /** How many chunks arrive until a header is complete, if held bytes are there before. */
  function ChunksToHeader(held: nat, chunks: seq<seq<byte>>): (k: nat)
    requires held < HEADER_SIZE <= held + |Concat(chunks)|
    ensures 0 < k <= |chunks|
    decreases |chunks|
  {
    if held + |chunks[0]| >= HEADER_SIZE then 1 else 1 + ChunksToHeader(held + |chunks[0]|, chunks[1..])
  }

  lemma HopelessPrefix(data: seq<byte>, n: nat)
    requires HEADER_SIZE <= n <= |data| && Hopeless(data)
    ensures Hopeless(data[..n])
  {
    assert data[..n][0..4] == data[0..4] && data[..n][6..10] == data[6..10];
  }

  lemma DrainHopeless<Q, R>(schema: Schema<Q, R>, data: seq<byte>, p: Packet<Q, R>)
    requires Hopeless(data)
    ensures Drain(schema, data, p) == Drained([], [])
  {
    assert data[|data|..] == [];
  }

  /** A stream that is forgotten as soon as a header of it is there. */
  ghost predicate GivenUp<Q, R>(schema: Schema<Q, R>, s: seq<byte>, blank: Packet<Q, R>) {
    |s| >= HEADER_SIZE && forall n :: HEADER_SIZE <= n <= |s| ==> Drain(schema, s[..n], blank) == Drained([], [])
  }

  lemma HopelessGivenUp<Q, R>(schema: Schema<Q, R>, s: seq<byte>, blank: Packet<Q, R>)
    requires Hopeless(s)
    ensures GivenUp(schema, s, blank)
  {
    forall n | HEADER_SIZE <= n <= |s| ensures Drain(schema, s[..n], blank) == Drained([], []) {
      HopelessPrefix(s, n);
      DrainHopeless(schema, s[..n], blank);
    }
  }

  /** A receiver that drains d out of its first chunk goes on with what d leaves. */
  lemma First<Q, R>(schema: Schema<Q, R>, held: seq<byte>, chunks: seq<seq<byte>>, blank: Packet<Q, R>,
                    d: Drained<Q, R>, r: Drained<Q, R>)
    requires chunks != [] && Drain(schema, held + chunks[0], blank) == d
    requires Receive(schema, d.rest, chunks[1..], blank) == r
    ensures Receive(schema, held, chunks, blank) == Drained(d.packets + r.packets, r.rest)
  {
  }

  lemma NothingFirst<Q, R>(schema: Schema<Q, R>, held: seq<byte>, rest: seq<byte>, chunks: seq<seq<byte>>,
                           blank: Packet<Q, R>)
    requires chunks != [] && Drain(schema, held + chunks[0], blank) == Drained([], rest)
    ensures Receive(schema, held, chunks, blank) == Receive(schema, rest, chunks[1..], blank)
  {
    var r := Receive(schema, rest, chunks[1..], blank);
    First(schema, held, chunks, blank, Drained([], rest), r);
    assert [] + r.packets == r.packets;
  }

  lemma {:induction false} GivenUpFrom<Q, R>(schema: Schema<Q, R>, s: seq<byte>, k: nat, chunks: seq<seq<byte>>,
                                             blank: Packet<Q, R>)
    requires GivenUp(schema, s, blank) && k < HEADER_SIZE && k <= |s| && s[..k] + Concat(chunks) == s
    ensures k + |Concat(chunks)| >= HEADER_SIZE
    ensures Receive(schema, s[..k], chunks, blank) == Receive(schema, [], chunks[ChunksToHeader(k, chunks)..], blank)
    decreases |chunks|
  {
    if chunks == [] {
      assert false;
    } else {
      var k' := NextPart(s, k, chunks[0], Concat(chunks[1..]));
      if k' >= HEADER_SIZE {
        NothingFirst(schema, s[..k], [], chunks, blank);
      } else {
        DrainIncomplete(schema, s[..k'], blank);
        NothingFirst(schema, s[..k], s[..k'], chunks, blank);
        GivenUpFrom(schema, s, k', chunks[1..], blank);
        DropDrop(chunks, ChunksToHeader(k', chunks[1..]));
      }
    }
  }

  /** Whatever has arrived with the chunk that completes such a header is forgotten, and the chunks behind it are read
      as a stream of their own: in the middle of whatever was being sent. */
  lemma ReadOnBehind<Q, R>(schema: Schema<Q, R>, chunks: seq<seq<byte>>, blank: Packet<Q, R>)
    requires Hopeless(Concat(chunks))
    ensures Receive(schema, [], chunks, blank) == Receive(schema, [], chunks[ChunksToHeader(0, chunks)..], blank)
  {
    var s := Concat(chunks);
    HopelessGivenUp(schema, s, blank);
    assert s[..0] == [] && [] + s == s;
    GivenUpFrom(schema, s, 0, chunks, blank);
  }

  lemma DropDrop<T>(s: seq<T>, k: nat)
    requires s != [] && k <= |s| - 1
    ensures s[1..][k..] == s[k + 1..]
  {
  }

  // ---------- bodies over the limit ----------

  lemma OversizedHopeless<Q, R>(schema: Schema<Q, R>, m: Message<Q, R>, more: seq<byte>)
    requires Encodable(schema, m) && |Body(schema, m)| % 0x1_0000_0000 > MAX_BODY_LEN
    ensures Hopeless(Encode(schema, m) + more)
  {
    SendableBody(schema, m);
    var body := Body(schema, m);
    var msgType := TypeByte(TypeOf(m));
    var header := Header(msgType, m.id, |body|);
    var sum := Crc32.ToBytes(Crc32.Crc(header + body));
    FrameLayout(header, body, sum, more);
    HeaderWraps(msgType, m.id, |body|, body + sum + more);
  }

  /** The encoder has no limit. A message whose body is over the receiver's limit encodes; its header is dropped with
      the chunk that completes it, and the chunks behind, its own body included, are read as new frames. */
  lemma OversizedReadOn<Q, R>(schema: Schema<Q, R>, m: Message<Q, R>, more: seq<byte>, chunks: seq<seq<byte>>,
                              blank: Packet<Q, R>)
    requires Encodable(schema, m) && |Body(schema, m)| % 0x1_0000_0000 > MAX_BODY_LEN
    requires Concat(chunks) == Encode(schema, m) + more
    ensures Encode(schema, m) != [] && |Concat(chunks)| >= HEADER_SIZE
    ensures Receive(schema, [], chunks, blank) == Receive(schema, [], chunks[ChunksToHeader(0, chunks)..], blank)
  {
    FrameLength(schema, m);
    OversizedHopeless(schema, m, more);
    ReadOnBehind(schema, chunks, blank);
  }

  // ---------- messages that nobody sent ----------

  /** Where the payload starts in the frame of a request with empty names. */
  const PAYLOAD_AT: nat := HEADER_SIZE + 8

  /** A request that carries the bytes given. */
  function Carrier(payload: seq<byte>): Message<seq<byte>, seq<byte>> {
    RequestMsg(1, [], [], payload)
  }

  lemma PackedSlice(msgType: byte, reqId: nat, body: seq<byte>, i: nat)
    requires i <= |body|
    ensures Pack(msgType, reqId, body)[HEADER_SIZE + i..HEADER_SIZE + |body|] == body[i..]
  {
    var header := Header(msgType, reqId, |body|);
    var sum := Crc32.ToBytes(Crc32.Crc(header + body));
    FrameLayout(header, body, sum, []);
    assert Pack(msgType, reqId, body) == header + body + sum + [];
    var f := Pack(msgType, reqId, body);
    assert f[HEADER_SIZE + i..HEADER_SIZE + |body|] == f[HEADER_SIZE..HEADER_SIZE + |body|][i..];
  }

  lemma Behind8(a: seq<byte>, b: seq<byte>, c: seq<byte>, payload: seq<byte>)
    requires |a| == 2 && |b| == 2 && |c| == 4
    ensures var body := a + (b + (c + payload));
            |body| == 8 + |payload| && body[8..] == payload
  {
  }

  lemma CarrierBody(payload: seq<byte>)
    ensures Encodable(Plain, Carrier(payload))
    ensures var body := Body(Plain, Carrier(payload));
            |body| == 8 + |payload| && body[8..] == payload
  {
    var none: seq<byte> := [];
    RequestLayout(Plain, payload, none, none, payload);
    assert BigEndian(|none|, U16) + none == BigEndian(|none|, U16);
    Behind8(Str(none), Str(none), BigEndian(|payload|, U32), payload);
  }

  lemma CarrierFrame(payload: seq<byte>)
    ensures var f := Encode(Plain, Carrier(payload));
            |f| == PAYLOAD_AT + |payload| + CHECKSUM_SIZE && f[PAYLOAD_AT..PAYLOAD_AT + |payload|] == payload
  {
    CarrierBody(payload);
    SendableBody(Plain, Carrier(payload));
    PackedSlice(TypeByte(REQUEST), 1, Body(Plain, Carrier(payload)), 8);
  }

  lemma FirstChunk<Q(!new), R(!new)>(schema: Schema<Q, R>, f: seq<byte>, x: Message<Q, R>, chunks: seq<seq<byte>>,
                                     blank: Packet<Q, R>)
    requires Framed(schema, f, x) && chunks != [] && chunks[0] == f
    ensures Receive(schema, [], chunks, blank).packets
         == [Absorb(blank, x)] + Receive(schema, [], chunks[1..], blank).packets
  {
    OneFrame(schema, f, x, blank);
    assert [] + f == f;
    First(schema, [], chunks, blank, Drained([Absorb(blank, x)], []), Receive(schema, [], chunks[1..], blank));
  }

  lemma CutAround(f: seq<byte>, at: nat, inner: seq<byte>, tail: seq<byte>)
    requires at + |inner + tail| <= |f| && f[at..at + |inner + tail|] == inner + tail
    ensures f == f[..at] + inner + f[at + |inner|..]
  {
    assert f[at..at + |inner|] == f[at..at + |inner + tail|][..|inner|] == inner;
  }

  /** The frame of a request, cut around the part of its payload that is inner. */
  lemma CarrierParts(inner: seq<byte>, tail: seq<byte>) returns (head: seq<byte>, foot: seq<byte>)
    ensures Encode(Plain, Carrier(inner + tail)) == head + inner + foot
    ensures |head| == PAYLOAD_AT && |foot| == |tail| + CHECKSUM_SIZE
  {
    CarrierFrame(inner + tail);
    var f := Encode(Plain, Carrier(inner + tail));
    CutAround(f, PAYLOAD_AT, inner, tail);
    head, foot := f[..PAYLOAD_AT], f[PAYLOAD_AT + |inner|..];
  }

  lemma PhantomBehind<Q(!new), R(!new)>(schema: Schema<Q, R>, f: seq<byte>, x: Message<Q, R>, chunks: seq<seq<byte>>,
                                        blank: Packet<Q, R>)
    requires Framed(schema, f, x) && |chunks| == 3 && |chunks[0]| >= HEADER_SIZE && chunks[1] == f
    requires Hopeless(Concat(chunks))
    ensures var packets := Receive(schema, [], chunks, blank).packets;
            packets != [] && packets[0] == Absorb(blank, x)
  {
    ReadOnBehind(schema, chunks, blank);
    FirstChunk(schema, f, x, chunks[1..], blank);
  }

  /** A request too large for the receiver carries the encoding of any message x and arrives cut around it: x, which
      nobody sent, is delivered. */
  lemma PhantomDelivered(x: Message<seq<byte>, seq<byte>>, blank: Packet<seq<byte>, seq<byte>>)
    returns (m: Message<seq<byte>, seq<byte>>, chunks: seq<seq<byte>>)
    requires Sendable(Plain, x)
    ensures Encodable(Plain, m) && m.RequestMsg? && Concat(chunks) == Encode(Plain, m)
    ensures var packets := Receive(Plain, [], chunks, blank).packets;
            packets != [] && packets[0] == Absorb(blank, x)
  {
    var inner, tail: seq<byte> := Encode(Plain, x), seq(MAX_BODY_LEN, _ => 0);
    m := Carrier(inner + tail);
    var head, foot := CarrierParts(inner, tail);
    chunks := [head, inner, foot];
    ThreeParts(head, inner, foot);
    CarrierHopeless(x, tail);
    SendableFramed(Plain, x);
    PhantomBehind(Plain, inner, x, chunks, blank);
  }

  lemma CarrierHopeless(x: Message<seq<byte>, seq<byte>>, tail: seq<byte>)
    requires Sendable(Plain, x) && |tail| == MAX_BODY_LEN
    ensures Encodable(Plain, Carrier(Encode(Plain, x) + tail))
    ensures Hopeless(Encode(Plain, Carrier(Encode(Plain, x) + tail)))
  {
    var m := Carrier(Encode(Plain, x) + tail);
    FrameLength(Plain, x);
    CarrierBody(Encode(Plain, x) + tail);
    PayloadOver(|Encode(Plain, x)|);
    OversizedHopeless(Plain, m, []);
    assert Encode(Plain, m) + [] == Encode(Plain, m);
  }

  lemma PayloadOver(n: nat)
    requires n <= MAX_BUFFER_SIZE
    ensures (8 + (n + MAX_BODY_LEN)) % 0x1_0000_0000 > MAX_BODY_LEN
  {
  }

  lemma ThreeParts<T>(a: seq<T>, b: seq<T>, c: seq<T>)
    ensures Concat([a, b, c]) == a + b + c
  {
    assert [a, b, c][1..] == [b, c] && [b, c][1..] == [c] && [c][1..] == [];
    assert Concat([c]) == c && Concat([b, c]) == b + c;
  }

  // ---------- behind a chunk that overfills the buffer ----------

  lemma {:induction false} ReceiveConcat<Q, R>(schema: Schema<Q, R>, buffer: seq<byte>, a: seq<seq<byte>>,
                                               b: seq<seq<byte>>, blank: Packet<Q, R>)
    ensures var first := Receive(schema, buffer, a, blank);
            var second := Receive(schema, first.rest, b, blank);
            Receive(schema, buffer, a + b, blank) == Drained(first.packets + second.packets, second.rest)
    decreases |a|
  {
    if a == [] {
      assert a + b == b;
      var second := Receive(schema, buffer, b, blank);
      assert [] + second.packets == second.packets;
    } else {
      assert (a + b)[1..] == a[1..] + b;
      var d := Drain(schema, buffer + a[0], blank);
      ReceiveConcat(schema, d.rest, a[1..], b, blank);
      var first := Receive(schema, d.rest, a[1..], blank);
      First(schema, buffer, a + b, blank, d, Receive(schema, d.rest, a[1..] + b, blank));
      First(schema, buffer, a, blank, d, first);
      Associate(d.packets, first.packets, Receive(schema, first.rest, b, blank).packets);
    }
  }

  lemma FitsHolds<Q(!new), R(!new)>(schema: Schema<Q, R>, items: seq<Item<Q, R>>, chunks: seq<seq<byte>>,
                                    blank: Packet<Q, R>)
    requires AllFramed(schema, items) && Concat(chunks) <= Stream(items) && Fits(items, [], chunks)
    ensures var r := Receive(schema, [], chunks, blank);
            DeliversAll(r.packets, Done(items, Concat(chunks))) && r.rest == Held(items, Concat(chunks))
  {
    assert [] + Concat(chunks) == Concat(chunks);
    assert Held(items, []) == [] by {
      HeldShrinks(items, []);
    }
    ReceivePrefix(schema, items, [], chunks, blank);
  }

  /** Up to the first chunk that overfills the buffer delivery is in step. That chunk is forgotten with all that was
      held back, and the chunks behind it are read as a stream of their own. */
  lemma OverLimitReadOn<Q(!new), R(!new)>(schema: Schema<Q, R>, items: seq<Item<Q, R>>, chunks: seq<seq<byte>>, i: nat,
                                          blank: Packet<Q, R>)
    requires AllFramed(schema, items) && i < |chunks| && Concat(chunks[..i]) <= Stream(items)
    requires Fits(items, [], chunks[..i])
    requires |Held(items, Concat(chunks[..i])) + chunks[i]| > MAX_BUFFER_SIZE
    ensures var r, behind := Receive(schema, [], chunks, blank), Receive(schema, [], chunks[i + 1..], blank);
            var done := Done(items, Concat(chunks[..i]));
            && |done| <= |r.packets| && DeliversAll(r.packets[..|done|], done)
            && r.packets[|done|..] == behind.packets && r.rest == behind.rest
  {
    var before, after := chunks[..i], chunks[i..];
    assert before + after == chunks && after[1..] == chunks[i + 1..];
    var first := Receive(schema, [], before, blank);
    FitsHolds(schema, items, before, blank);
    ReceiveConcat(schema, [], before, after, blank);
    OversizedDropped(schema, first.rest + after[0], blank);
    NothingFirst(schema, first.rest, [], after, blank);
  }

  /** A large message a and a request that carries the encoding of any x, all of them within the limits, arrive in four
      chunks, a cut anywhere: neither is delivered, and x is, although nobody sent it. */
  lemma PhantomOverLimit(a: Message<seq<byte>, seq<byte>>, n: nat, x: Message<seq<byte>, seq<byte>>,
                         blank: Packet<seq<byte>, seq<byte>>)
    returns (m: Message<seq<byte>, seq<byte>>, chunks: seq<seq<byte>>)
    requires Sendable(Plain, a) && |Encode(Plain, a)| + PAYLOAD_AT > MAX_BUFFER_SIZE && n < |Encode(Plain, a)|
    requires Sendable(Plain, x) && |Encode(Plain, x)| + PAYLOAD_AT + CHECKSUM_SIZE <= MAX_BUFFER_SIZE
    ensures Sendable(Plain, m) && m.RequestMsg? && Concat(chunks) == Encode(Plain, a) + Encode(Plain, m)
    ensures |chunks| == 4 && chunks[0] == Encode(Plain, a)[..n]
    ensures Receive(Plain, [], chunks, blank).packets == [Absorb(blank, x)]
  {
    var inner := Encode(Plain, x);
    assert inner + [] == inner;
    m := Carrier(inner);
    CarrierSendable(inner);
    var head, foot := CarrierParts(inner, []);
    SendableFramed(Plain, a);
    SendableFramed(Plain, x);
    chunks := Overfilled(Plain, Encode(Plain, a), a, n, head, inner, x, foot, blank);
  }

  /** A frame cut anywhere, the second part with enough behind it to overfill the buffer, then another frame. */
  lemma Overfilled<Q(!new), R(!new)>(schema: Schema<Q, R>, e: seq<byte>, a: Message<Q, R>, n: nat, head: seq<byte>,
                                     f: seq<byte>, x: Message<Q, R>, foot: seq<byte>, blank: Packet<Q, R>)
    returns (chunks: seq<seq<byte>>)
    requires Framed(schema, e, a) && n < |e| && |e| + |head| > MAX_BUFFER_SIZE
    requires Framed(schema, f, x) && |foot| <= CHECKSUM_SIZE
    ensures |chunks| == 4 && chunks[0] == e[..n] && Concat(chunks) == e + (head + f + foot)
    ensures Receive(schema, [], chunks, blank).packets == [Absorb(blank, x)]
  {
    var part, over := e[..n], e[n..] + head;
    chunks := [part, over, f, foot];
    FourParts(part, over, f, foot);
    assert part + over + f + foot == e + (head + f + foot);
    assert Incomplete(e[..n]);
    HeldFirst(schema, part, chunks, blank);
    Forgotten(schema, part, chunks[1..], blank);
    assert chunks[1..][1..] == [f, foot];
    LastFrame(schema, f, x, foot, blank);
  }

  lemma FourParts<T>(a: seq<T>, b: seq<T>, c: seq<T>, d: seq<T>)
    ensures Concat([a, b, c, d]) == a + b + c + d
  {
    assert [a, b, c, d][1..] == [b, c, d];
    ThreeParts(b, c, d);
  }

  /** An incomplete first chunk is held back. */
  lemma HeldFirst<Q, R>(schema: Schema<Q, R>, part: seq<byte>, chunks: seq<seq<byte>>, blank: Packet<Q, R>)
    requires chunks != [] && chunks[0] == part && Incomplete(part)
    ensures Receive(schema, [], chunks, blank) == Receive(schema, part, chunks[1..], blank)
  {
    assert [] + part == part;
    DrainIncomplete(schema, part, blank);
    NothingFirst(schema, [], part, chunks, blank);
  }

  /** A chunk that overfills the buffer is forgotten with what was held back. */
  lemma Forgotten<Q, R>(schema: Schema<Q, R>, held: seq<byte>, chunks: seq<seq<byte>>, blank: Packet<Q, R>)
    requires chunks != [] && |held + chunks[0]| > MAX_BUFFER_SIZE
    ensures Receive(schema, held, chunks, blank) == Receive(schema, [], chunks[1..], blank)
  {
    OversizedDropped(schema, held + chunks[0], blank);
    NothingFirst(schema, held, [], chunks, blank);
  }

  /** A frame and less than another. */
  lemma LastFrame<Q(!new), R(!new)>(schema: Schema<Q, R>, f: seq<byte>, x: Message<Q, R>, foot: seq<byte>,
                                    blank: Packet<Q, R>)
    requires Framed(schema, f, x) && |foot| <= CHECKSUM_SIZE
    ensures Receive(schema, [], [f, foot], blank).packets == [Absorb(blank, x)]
  {
    FirstChunk(schema, f, x, [f, foot], blank);
    assert [f, foot][1..] == [foot] && [foot][1..] == [];
    assert Concat([foot]) == foot;
    ReceiveShort(schema, [], [foot], blank);
  }

  lemma CarrierSendable(payload: seq<byte>)
    requires PAYLOAD_AT + |payload| + CHECKSUM_SIZE <= MAX_BUFFER_SIZE
    ensures Sendable(Plain, Carrier(payload))
  {
    CarrierBody(payload);
  }

  // ---------- damaged headers ----------

  /** A frame of n bytes of body whose magic number is intact but whose version or length is not: decode takes off
      exactly that frame only if nothing is behind it and the damage makes the header hopeless. */
  lemma HeaderDamageExactlyWhen<Q, R>(schema: Schema<Q, R>, d: seq<byte>, n: nat, rest: seq<byte>, p: Packet<Q, R>)
    requires |d| == HEADER_SIZE + n + CHECKSUM_SIZE && |d + rest| <= MAX_BUFFER_SIZE
    requires MagicAt(d, 0) && (d[4] != VERSION || BodyLen(d) != n)
    ensures Decode(schema, d + rest, p).rest == rest <==> rest == [] && Hopeless(d)
  {
    var data := d + rest;
    assert data[0..4] == d[0..4] && data[6..10] == d[6..10];
    assert data[|data|..] == [];
    if !Hopeless(d) {
      DecodeLength(schema, data, p);
    }
  }

  lemma DecodeLength<Q, R>(schema: Schema<Q, R>, data: seq<byte>, p: Packet<Q, R>)
    requires HEADER_SIZE <= |data| <= MAX_BUFFER_SIZE && MagicAt(data, 0) && !Hopeless(data)
    ensures |Decode(schema, data, p).rest| == |data| ||
            |Decode(schema, data, p).rest| == |data| - HEADER_SIZE - BodyLen(data) - CHECKSUM_SIZE
  {
  }

  /** One wrong version byte: whatever has arrived behind the damaged frame, good frames included, is lost with it. */
  lemma VersionDamage<Q, R>(schema: Schema<Q, R>, msgType: byte, reqId: nat, body: seq<byte>, rest: seq<byte>,
                            p: Packet<Q, R>)
    requires reqId < TWO_64 && |body| <= MAX_BODY_LEN
    ensures Drain(schema, Overwrite(Pack(msgType, reqId, body), 4, [0]) + rest, p) == Drained([], [])
  {
    PackedFrame(msgType, reqId, body);
    var f := Pack(msgType, reqId, body);
    var data := Overwrite(f, 4, [0]) + rest;
    assert data[0..4] == f[0..4];
    DrainHopeless(schema, data, p);
  }

  /** A damaged length that announces more than has arrived: the good message behind it is held back as if it were
      part of the damaged one. */
  lemma LengthDamage<Q, R>(schema: Schema<Q, R>, d: seq<byte>, rest: seq<byte>, p: Packet<Q, R>)
    requires |d| >= HEADER_SIZE && |d + rest| <= MAX_BUFFER_SIZE && MagicAt(d, 0) && !Hopeless(d)
    requires |d + rest| < HEADER_SIZE + BodyLen(d) + CHECKSUM_SIZE
    ensures Drain(schema, d + rest, p) == Drained([], d + rest)
  {
    var data := d + rest;
    assert data[0..4] == d[0..4] && data[6..10] == d[6..10];
    DrainIncomplete(schema, data, p);
  }

  // ---------- garbage in front of a stream ----------

  /** How garbage in front of a stream ends: k chunks arrive until a drain sees its end, front of its bytes are then
      still in the buffer, and f bytes of the stream behind it. */
  datatype Meeting = NotYet | Met(k: nat, front: nat, f: nat)

  /** g bytes of garbage are not dropped yet, and the buffer holds held bytes. Drains with less than a header wait, and
      drains that see only garbage drop it. */
  function Meet(g: nat, held: nat, chunks: seq<seq<byte>>): Meeting
    decreases |chunks|
  {
    if chunks == [] then NotYet
    else
      var n := held + |chunks[0]|;
      if n < HEADER_SIZE then Later(Meet(g, n, chunks[1..]))
      else if n < g then Later(Meet(g - n, 0, chunks[1..]))
      else Met(1, g, n - g)
  }

  function Later(m: Meeting): Meeting {
    if m.Met? then m.(k := m.k + 1) else m
  }

  /** What that drain leaves of the stream: all of it if that is nothing, or if its first four bytes are there and
      within the scan. */
  predicate Kept(m: Meeting)
    requires m.Met?
  {
    m.f == 0 || (m.f >= 4 && m.front + 4 <= MAX_SCAN_BYTES && m.front + m.f <= MAX_BUFFER_SIZE)
  }

  lemma NoMagicPart(g: seq<byte>, n: nat)
    requires NoMagic(g) && n <= |g|
    ensures NoMagic(g[..n]) && NoMagic(g[n..])
  {
    forall i | 0 <= i && i + 4 <= n ensures !MagicAt(g[..n], i) {
      assert g[..n][i..i + 4] == g[i..i + 4] && !MagicAt(g, i);
    }
    forall i | 0 <= i && i + 4 <= |g| - n ensures !MagicAt(g[n..], i) {
      assert g[n..][i..i + 4] == g[n + i..n + i + 4] && !MagicAt(g, n + i);
    }
  }

  lemma DrainGarbage<Q, R>(schema: Schema<Q, R>, g: seq<byte>, f: seq<byte>, p: Packet<Q, R>)
    requires g != [] && NoMagic(g) && StartsFrame(f) && HEADER_SIZE <= |g + f|
    ensures Drain(schema, g + f, p) == Drained([], if Kept(Met(1, |g|, |f|)) then f else [])
  {
    if |g + f| > MAX_BUFFER_SIZE {
      OversizedDropped(schema, g + f, p);
    } else {
      GarbageDropped(schema, g, f, p);
    }
  }

  /** The part of the stream that is left in the buffer then. */
  function Remains(s: seq<byte>, m: Meeting): seq<byte>
    requires m.Met?
  {
    if m.f <= |s| && Kept(m) then s[..m.f] else []
  }

  lemma CutInside(g: seq<byte>, s: seq<byte>, data: seq<byte>, later: seq<byte>)
    requires data + later == g + s && |data| <= |g|
    ensures data == g[..|data|] && later == g[|data|..] + s
  {
    assert data == (data + later)[..|data|] == (g + s)[..|data|];
    assert later == (data + later)[|data|..] == (g + s)[|data|..];
  }

  lemma CutBeyond(g: seq<byte>, s: seq<byte>, data: seq<byte>, later: seq<byte>)
    requires data + later == g + s && |data| >= |g|
    ensures |data| - |g| <= |s| && data == g + s[..|data| - |g|] && later == s[|data| - |g|..]
  {
    assert |data + later| == |g + s|;
    assert data == (data + later)[..|data|] == (g + s)[..|data|];
    assert later == (data + later)[|data|..] == (g + s)[|data|..];
  }

  /** What the first chunk completes is garbage only, or all of the garbage and a part of the stream. */
  lemma CutAt(g: seq<byte>, s: seq<byte>, data: seq<byte>, later: seq<byte>)
    requires data + later == g + s
    ensures |data| <= |g| ==> data == g[..|data|] && later == g[|data|..] + s
    ensures |data| >= |g| ==> |data| - |g| <= |s| && data == g + s[..|data| - |g|] && later == s[|data| - |g|..]
  {
    if |data| <= |g| { CutInside(g, s, data, later); }
    if |data| >= |g| { CutBeyond(g, s, data, later); }
  }

  /** The chunks behind the meeting hold what has not arrived of the stream by then. */
  ghost predicate Cuts(m: Meeting, s: seq<byte>, chunks: seq<seq<byte>>) {
    m.Met? ==> m.k <= |chunks| && m.f <= |s| && Concat(chunks[m.k..]) == s[m.f..]
  }

  lemma LaterCuts(m: Meeting, s: seq<byte>, chunks: seq<seq<byte>>)
    requires chunks != [] && Cuts(m, s, chunks[1..])
    ensures Cuts(Later(m), s, chunks)
  {
    if m.Met? {
      assert chunks[1..][m.k..] == chunks[m.k + 1..];
    }
  }

  lemma {:induction false} MeetCuts(g: seq<byte>, s: seq<byte>, held: seq<byte>, chunks: seq<seq<byte>>)
    requires g != [] && held + Concat(chunks) == g + s
    ensures Cuts(Meet(|g|, |held|, chunks), s, chunks)
    decreases |chunks|
  {
    if chunks != [] {
      var data, later := held + chunks[0], Concat(chunks[1..]);
      Associate(held, chunks[0], later);
      CutAt(g, s, data, later);
      if |data| < HEADER_SIZE {
        MeetCuts(g, s, data, chunks[1..]);
        LaterCuts(Meet(|g|, |data|, chunks[1..]), s, chunks);
      } else if |data| < |g| {
        assert [] + later == later;
        MeetCuts(g[|data|..], s, [], chunks[1..]);
        LaterCuts(Meet(|g| - |data|, 0, chunks[1..]), s, chunks);
      }
    }
  }

  /** The drain of the first chunk, when it does not see the end of the garbage: it waits, or drops the garbage. */
  lemma BeforeMeeting<Q, R>(schema: Schema<Q, R>, g: seq<byte>, data: seq<byte>, blank: Packet<Q, R>)
    requires NoMagic(g) && (|data| < HEADER_SIZE || (|data| < |g| && data == g[..|data|]))
    ensures Drain(schema, data, blank) == Drained([], if |data| < HEADER_SIZE then data else [])
  {
    if |data| < HEADER_SIZE {
      DrainIncomplete(schema, data, blank);
    } else {
      OnlyGarbage(schema, g, |data|, blank);
    }
  }

  /** Until the end of the garbage is seen nothing is delivered. */
  lemma {:induction false} NothingYet<Q, R>(schema: Schema<Q, R>, g: seq<byte>, s: seq<byte>, held: seq<byte>,
                                            chunks: seq<seq<byte>>, blank: Packet<Q, R>)
    requires g != [] && NoMagic(g) && |held| < HEADER_SIZE && held + Concat(chunks) == g + s
    requires Meet(|g|, |held|, chunks).NotYet?
    ensures Receive(schema, held, chunks, blank).packets == []
    decreases |chunks|
  {
    if chunks != [] {
      var data, later := held + chunks[0], Concat(chunks[1..]);
      Associate(held, chunks[0], later);
      CutAt(g, s, data, later);
      BeforeMeeting(schema, g, data, blank);
      if |data| < HEADER_SIZE {
        NothingYet(schema, g, s, data, chunks[1..], blank);
        NothingFirst(schema, held, data, chunks, blank);
      } else {
        NoMagicPart(g, |data|);
        assert [] + later == later;
        NothingYet(schema, g[|data|..], s, [], chunks[1..], blank);
        NothingFirst(schema, held, [], chunks, blank);
      }
    }
  }

  /** The chunk that shows the end of the garbage. */
  lemma MetNow<Q, R>(schema: Schema<Q, R>, g: seq<byte>, s: seq<byte>, held: seq<byte>, chunks: seq<seq<byte>>, f: nat,
                     blank: Packet<Q, R>)
    requires chunks != [] && f <= |s| && held + chunks[0] == g + s[..f]
    requires g != [] && NoMagic(g) && StartsFrame(s) && |g| + f >= HEADER_SIZE
    ensures Receive(schema, held, chunks, blank) == Receive(schema, Remains(s, Met(1, |g|, f)), chunks[1..], blank)
  {
    DrainGarbage(schema, g, s[..f], blank);
    NothingFirst(schema, held, Remains(s, Met(1, |g|, f)), chunks, blank);
  }

  lemma MetLater<Q, R>(schema: Schema<Q, R>, s: seq<byte>, held: seq<byte>, rest: seq<byte>, chunks: seq<seq<byte>>,
                       m: Meeting, blank: Packet<Q, R>)
    requires chunks != [] && Drain(schema, held + chunks[0], blank) == Drained([], rest) && m.Met?
    requires m.k <= |chunks| - 1
    requires Receive(schema, rest, chunks[1..], blank) == Receive(schema, Remains(s, m), chunks[1..][m.k..], blank)
    ensures Receive(schema, held, chunks, blank) == Receive(schema, Remains(s, m), chunks[m.k + 1..], blank)
  {
    NothingFirst(schema, held, rest, chunks, blank);
    DropDrop(chunks, m.k);
  }

  /** Garbage and stream as they arrive. */
  ghost predicate Arrives(g: seq<byte>, s: seq<byte>, held: seq<byte>, chunks: seq<seq<byte>>) {
    && g != [] && NoMagic(g) && StartsFrame(s) && |held| < HEADER_SIZE && held + Concat(chunks) == g + s
    && Meet(|g|, |held|, chunks).Met?
  }

  /** Garbage without a magic number in front of a stream that begins with one, in chunks of any kind: drains drop the
      garbage until one sees its end. What has arrived of the stream by then is kept exactly under the condition of
      Kept; otherwise it is lost, and the stream is read from its middle. */
  lemma {:induction false} GarbageMet<Q, R>(schema: Schema<Q, R>, g: seq<byte>, s: seq<byte>, held: seq<byte>,
                                            chunks: seq<seq<byte>>, blank: Packet<Q, R>)
    requires Arrives(g, s, held, chunks)
    ensures var m := Meet(|g|, |held|, chunks);
            && m.k <= |chunks| && m.f <= |s| && Concat(chunks[m.k..]) == s[m.f..]
            && Receive(schema, held, chunks, blank) == Receive(schema, Remains(s, m), chunks[m.k..], blank)
    decreases |chunks|, 1
  {
    MeetCuts(g, s, held, chunks);
    var data := held + chunks[0];
    if |data| < HEADER_SIZE {
      MetWaiting(schema, g, s, held, chunks, blank);
    } else if |data| < |g| {
      MetGarbage(schema, g, s, held, chunks, blank);
    } else {
      assert Meet(|g|, |held|, chunks) == Met(1, |g|, |data| - |g|);
      MetEnd(schema, g, s, held, chunks, blank);
    }
  }

  lemma MetEnd<Q, R>(schema: Schema<Q, R>, g: seq<byte>, s: seq<byte>, held: seq<byte>, chunks: seq<seq<byte>>,
                     blank: Packet<Q, R>)
    requires Arrives(g, s, held, chunks) && HEADER_SIZE <= |held + chunks[0]| && |g| <= |held + chunks[0]|
    ensures Receive(schema, held, chunks, blank)
         == Receive(schema, Remains(s, Met(1, |g|, |held + chunks[0]| - |g|)), chunks[1..], blank)
  {
    var f := EndPart(g, s, held, chunks);
    MetNow(schema, g, s, held, chunks, f, blank);
  }

  /** With the first chunk all of the garbage and f bytes of the stream are there. */
  lemma EndPart(g: seq<byte>, s: seq<byte>, held: seq<byte>, chunks: seq<seq<byte>>) returns (f: nat)
    requires chunks != [] && held + Concat(chunks) == g + s && |g| <= |held + chunks[0]|
    ensures f == |held + chunks[0]| - |g| <= |s| && held + chunks[0] == g + s[..f]
  {
    var data, later := held + chunks[0], Concat(chunks[1..]);
    Associate(held, chunks[0], later);
    CutBeyond(g, s, data, later);
    f := |data| - |g|;
  }

  lemma {:induction false} MetWaiting<Q, R>(schema: Schema<Q, R>, g: seq<byte>, s: seq<byte>, held: seq<byte>,
                                            chunks: seq<seq<byte>>, blank: Packet<Q, R>)
    requires Arrives(g, s, held, chunks) && |held + chunks[0]| < HEADER_SIZE
    requires Meet(|g|, |held|, chunks).k <= |chunks|
    ensures var m := Meet(|g|, |held|, chunks);
            Receive(schema, held, chunks, blank) == Receive(schema, Remains(s, m), chunks[m.k..], blank)
    decreases |chunks|, 0
  {
    var data, m := held + chunks[0], Meet(|g|, |held + chunks[0]|, chunks[1..]);
    assert Meet(|g|, |held|, chunks) == Later(m);
    Associate(held, chunks[0], Concat(chunks[1..]));
    MetBehind(schema, g, s, data, chunks[1..], m, blank);
    DrainIncomplete(schema, data, blank);
    MetLater(schema, s, held, data, chunks, m, blank);
  }

  lemma {:induction false} MetGarbage<Q, R>(schema: Schema<Q, R>, g: seq<byte>, s: seq<byte>, held: seq<byte>,
                                            chunks: seq<seq<byte>>, blank: Packet<Q, R>)
    requires Arrives(g, s, held, chunks) && HEADER_SIZE <= |held + chunks[0]| < |g|
    requires Meet(|g|, |held|, chunks).k <= |chunks|
    ensures var m := Meet(|g|, |held|, chunks);
            Receive(schema, held, chunks, blank) == Receive(schema, Remains(s, m), chunks[m.k..], blank)
    decreases |chunks|, 0
  {
    var n, none, m := |held + chunks[0]|, [], Meet(|g| - |held + chunks[0]|, 0, chunks[1..]);
    assert Meet(|g|, |held|, chunks) == Later(m);
    GarbageOff(schema, g, s, held, chunks, n, blank);
    MetBehind(schema, g[n..], s, none, chunks[1..], m, blank);
    MetLater(schema, s, held, none, chunks, m, blank);
  }

  lemma {:induction false} MetBehind<Q, R>(schema: Schema<Q, R>, g: seq<byte>, s: seq<byte>, held: seq<byte>,
                                           chunks: seq<seq<byte>>, m: Meeting, blank: Packet<Q, R>)
    requires Arrives(g, s, held, chunks) && m == Meet(|g|, |held|, chunks)
    ensures m.k <= |chunks|
    ensures Receive(schema, held, chunks, blank) == Receive(schema, Remains(s, m), chunks[m.k..], blank)
    decreases |chunks|, 2
  {
    GarbageMet(schema, g, s, held, chunks, blank);
  }

  /** The first n bytes of the garbage are dropped, and the rest of it and the stream are still to come. */
  lemma GarbageOff<Q, R>(schema: Schema<Q, R>, g: seq<byte>, s: seq<byte>, held: seq<byte>, chunks: seq<seq<byte>>,
                         n: nat, blank: Packet<Q, R>)
    requires Arrives(g, s, held, chunks) && HEADER_SIZE <= n < |g| && n == |held + chunks[0]|
    ensures Drain(schema, held + chunks[0], blank) == Drained([], []) && Arrives(g[n..], s, [], chunks[1..])
  {
    var data, later := held + chunks[0], Concat(chunks[1..]);
    Associate(held, chunks[0], later);
    CutInside(g, s, data, later);
    OnlyGarbage(schema, g, n, blank);
    assert [] + later == later;
  }

  lemma OnlyGarbage<Q, R>(schema: Schema<Q, R>, g: seq<byte>, n: nat, blank: Packet<Q, R>)
    requires NoMagic(g) && HEADER_SIZE <= n < |g|
    ensures Drain(schema, g[..n], blank) == Drained([], []) && NoMagic(g[n..])
  {
    NoMagicPart(g, n);
    assert g[..n] + [] == g[..n];
    DrainGarbage(schema, g[..n], [], blank);
  }

  lemma Prepend<Q, R>(schema: Schema<Q, R>, held: seq<byte>, chunks: seq<seq<byte>>, blank: Packet<Q, R>)
    requires chunks != []
    ensures Receive(schema, held, chunks, blank) == Receive(schema, [], [held + chunks[0]] + chunks[1..], blank)
  {
    var joined := [held + chunks[0]] + chunks[1..];
    assert joined[1..] == chunks[1..] && [] + joined[0] == held + chunks[0];
    var d := Drain(schema, held + chunks[0], blank);
    var r := Receive(schema, d.rest, chunks[1..], blank);
    First(schema, held, chunks, blank, d, r);
    First(schema, [], joined, blank, d, r);
  }

  /** When the garbage has been met and the beginning of the stream kept, the next chunk brings delivery back into
      step, as if the garbage had never been there. */
  lemma BackInStep<Q(!new), R(!new)>(schema: Schema<Q, R>, g: seq<byte>, items: seq<Item<Q, R>>, s: seq<byte>,
                                     chunks: seq<seq<byte>>, blank: Packet<Q, R>)
    requires g != [] && NoMagic(g) && AllFramed(schema, items) && s <= Stream(items) && StartsFrame(s)
    requires Concat(chunks) == g + s
    requires var m := Meet(|g|, 0, chunks);
             && m.Met? && Kept(m) && m.k < |chunks| && m.f <= |s|
             && Fits(items, [], [s[..m.f] + chunks[m.k]] + chunks[m.k + 1..])
    ensures var r := Receive(schema, [], chunks, blank);
            DeliversAll(r.packets, Done(items, s)) && r.rest == Held(items, s)
  {
    var m := Meet(|g|, 0, chunks);
    assert [] + Concat(chunks) == g + s;
    GarbageMet(schema, g, s, [], chunks, blank);
    assert chunks[m.k..][1..] == chunks[m.k + 1..];
    KeptDelivers(schema, items, s, m.f, chunks[m.k..], blank);
  }

  lemma KeptDelivers<Q(!new), R(!new)>(schema: Schema<Q, R>, items: seq<Item<Q, R>>, s: seq<byte>, f: nat,
                                       chunks: seq<seq<byte>>, blank: Packet<Q, R>)
    requires AllFramed(schema, items) && s <= Stream(items) && f <= |s| && chunks != [] && Concat(chunks) == s[f..]
    requires Fits(items, [], [s[..f] + chunks[0]] + chunks[1..])
    ensures var r := Receive(schema, s[..f], chunks, blank);
            DeliversAll(r.packets, Done(items, s)) && r.rest == Held(items, s)
  {
    JoinedConcat(s, f, chunks);
    Prepend(schema, s[..f], chunks, blank);
    FitsHolds(schema, items, [s[..f] + chunks[0]] + chunks[1..], blank);
  }

  lemma JoinedConcat(s: seq<byte>, f: nat, chunks: seq<seq<byte>>)
    requires chunks != [] && f <= |s| && Concat(chunks) == s[f..]
    ensures Concat([s[..f] + chunks[0]] + chunks[1..]) == s
  {
    var joined := [s[..f] + chunks[0]] + chunks[1..];
    assert joined[1..] == chunks[1..];
    Associate(s[..f], chunks[0], Concat(chunks[1..]));
    assert s[..f] + s[f..] == s;
  }

  // ---------- damaged magic numbers ----------

  /** The first magic number of data starts at k. */
  ghost predicate FirstMagic(data: seq<byte>, k: nat) {
    k + 4 <= |data| && MagicAt(data, k) && forall i :: 0 <= i < k ==> !MagicAt(data, i)
  }

  lemma FirstMagicParts(data: seq<byte>, k: nat)
    requires FirstMagic(data, k)
    ensures NoMagic(data[..k]) && StartsFrame(data[k..])
  {
    forall i | 0 <= i && i + 4 <= k ensures !MagicAt(data[..k], i) {
      assert data[..k][i..i + 4] == data[i..i + 4] && !MagicAt(data, i);
    }
    assert data[k..][0..4] == data[k..k + 4];
    MagicStarts(data[k..]);
  }

  /** A frame that does not begin with the magic number: the drain goes on from the first magic number behind its
      start, inside its body too, if that is within the scan, and otherwise drops everything. */
  lemma MagicDamage<Q, R>(schema: Schema<Q, R>, data: seq<byte>, k: nat, p: Packet<Q, R>)
    requires 0 < k && FirstMagic(data, k) && HEADER_SIZE <= |data| <= MAX_BUFFER_SIZE
    ensures var rest := if k + 4 <= MAX_SCAN_BYTES then data[k..] else [];
            Decode(schema, data, p) == Step(false, rest, p) && Drain(schema, data, p) == Drained([], rest)
  {
    FirstMagicParts(data, k);
    assert data == data[..k] + data[k..];
    GarbageDropped(schema, data[..k], data[k..], p);
    DrainGarbage(schema, data[..k], data[k..], p);
  }

  lemma NoMagicDropped<Q, R>(schema: Schema<Q, R>, data: seq<byte>, p: Packet<Q, R>)
    requires NoMagic(data) && HEADER_SIZE <= |data| <= MAX_BUFFER_SIZE
    ensures Decode(schema, data, p) == Step(false, [], p)
  {
    assert data + [] == data;
    GarbageDropped(schema, data, [], p);
  }

  lemma {:induction false} SomeFirstMagic(data: seq<byte>, i: nat) returns (k: nat)
    requires i <= |data| && forall j :: 0 <= j < i && j + 4 <= |data| ==> !MagicAt(data, j)
    ensures FirstMagic(data, k) || NoMagic(data)
    decreases |data| - i
  {
    if i + 4 > |data| || MagicAt(data, i) {
      k := i;
    } else {
      k := SomeFirstMagic(data, i + 1);
    }
  }

  /** No magic number of data is within the scan. */
  ghost predicate NoneScanned(data: seq<byte>) {
    forall i :: 0 <= i && i + 4 <= Min(|data|, MAX_SCAN_BYTES) ==> !MagicAt(data, i)
  }

  /** A frame with a damaged magic number: decode takes off exactly that frame only if nothing is behind it and no magic
      number is within the scan, or if the first magic number is that of the frame behind it, within the scan. */
  lemma MagicDamageExactlyWhen<Q, R>(schema: Schema<Q, R>, d: seq<byte>, rest: seq<byte>, p: Packet<Q, R>)
    requires HEADER_SIZE <= |d| && |d + rest| <= MAX_BUFFER_SIZE && !MagicAt(d, 0)
    ensures Decode(schema, d + rest, p).rest == rest <==>
              || (rest == [] && NoneScanned(d))
              || (FirstMagic(d + rest, |d|) && |d| + 4 <= MAX_SCAN_BYTES)
  {
    var data := d + rest;
    assert data[0..4] == d[0..4];
    var k := SomeFirstMagic(data, 0);
    if FirstMagic(data, k) {
      MagicDamage(schema, data, k, p);
      assert data[|d|..] == rest;
    } else {
      NoMagicDropped(schema, data, p);
    }
    if rest == [] {
      assert data == d;
    }
  }

  /** What starts at that magic number is delivered by the next drain if it is the frame of a message, sent or not. */
  lemma DamageDelivers<Q(!new), R(!new)>(schema: Schema<Q, R>, data: seq<byte>, k: nat, f: seq<byte>, x: Message<Q, R>,
                                         next: seq<byte>, blank: Packet<Q, R>)
    requires 0 < k && FirstMagic(data, k) && k + 4 <= MAX_SCAN_BYTES && HEADER_SIZE <= |data| <= MAX_BUFFER_SIZE
    requires Framed(schema, f, x) && f <= data[k..] && |data[k..] + next| <= MAX_BUFFER_SIZE
    ensures var packets := Receive(schema, [], [data, next], blank).packets;
            packets != [] && packets[0] == Absorb(blank, x)
  {
    MagicDamage(schema, data, k, blank);
    assert [] + data == data && [data, next][1..] == [next];
    NothingFirst(schema, [], data[k..], [data, next], blank);
    DeliveredNext(schema, data[k..], f, x, next, blank);
  }

  lemma DeliveredNext<Q(!new), R(!new)>(schema: Schema<Q, R>, held: seq<byte>, f: seq<byte>, x: Message<Q, R>,
                                        next: seq<byte>, blank: Packet<Q, R>)
    requires Framed(schema, f, x) && f <= held && |held + next| <= MAX_BUFFER_SIZE
    ensures var packets := Receive(schema, held, [next], blank).packets;
            packets != [] && packets[0] == Absorb(blank, x)
  {
    var more := held[|f|..] + next;
    assert held + next == f + more;
    DrainFrame(schema, f, x, more, blank);
    var d := Drain(schema, held + next, blank);
    First(schema, held, [next], blank, d, Receive(schema, d.rest, [next][1..], blank));
  }

  lemma {:induction false} ZeroBytes(k: nat)
    ensures forall i :: 0 <= i < k ==> BigEndian(0, k)[i] == 0
  {
    if k > 0 {
      ZeroBytes(k - 1);
    }
  }

  /** The bytes in front of the payload of such a request, behind the magic number. */
  ghost predicate Heads(g: seq<byte>, n: nat) {
    && |g| >= PAYLOAD_AT && g[4] == VERSION && g[5] == 0 && FromBigEndian(g[6..10]) == 8 + n
    && (forall i :: 10 <= i < 17 ==> g[i] == 0) && g[17] == 1
    && (forall i :: 18 <= i < 22 ==> g[i] == 0) && FromBigEndian(g[22..26]) == n
  }

  lemma CarrierBodyStart(payload: seq<byte>)
    requires |payload| < 0x1_0000_0000
    ensures var body := Body(Plain, Carrier(payload));
            |body| >= 8 && (forall i :: 0 <= i < 4 ==> body[i] == 0) && FromBigEndian(body[4..8]) == |payload|
  {
    var none: seq<byte> := [];
    RequestLayout(Plain, payload, none, none, payload);
    ZeroBytes(U16);
    var zeros, size := BigEndian(0, U16), BigEndian(|payload|, U32);
    assert Str(none) == zeros;
    ReadsBack(|payload|, U32);
    assert (zeros + (zeros + (size + payload)))[4..8] == size;
  }

  lemma OneBytes(k: nat)
    requires k > 0
    ensures (forall i :: 0 <= i < k - 1 ==> BigEndian(1, k)[i] == 0) && BigEndian(1, k)[k - 1] == 1
  {
    ZeroBytes(k - 1);
  }

  lemma PackedId(msgType: byte, reqId: nat, body: seq<byte>)
    ensures Pack(msgType, reqId, body)[10..18] == BigEndian(reqId, U64)
  {
    assert Header(msgType, reqId, |body|)[10..18] == BigEndian(reqId, U64);
  }

  lemma CarrierHeads(payload: seq<byte>)
    requires 8 + |payload| < 0x1_0000_0000
    ensures Heads(Encode(Plain, Carrier(payload)), |payload|)
  {
    CarrierFrame(payload);
    CarrierBody(payload);
    CarrierBodyStart(payload);
    SendableBody(Plain, Carrier(payload));
    var body := Body(Plain, Carrier(payload));
    var f := Encode(Plain, Carrier(payload));
    PackedParts(TypeByte(REQUEST), 1, body, []);
    assert f + [] == f;
    OneBytes(U64);
    PackedId(TypeByte(REQUEST), 1, body);
    SlicedHeads(f, body, |payload|);
  }

  lemma SliceOfSlice<T>(s: seq<T>, a: nat, b: nat, i: nat, j: nat)
    requires i <= j <= b - a && b <= |s|
    ensures s[a..b][i..j] == s[a + i..a + j]
  {
    var t := s[a..b];
    forall k | 0 <= k < j - i ensures t[i..j][k] == s[a + i..a + j][k] {
      assert t[i..j][k] == t[i + k] == s[a + (i + k)];
    }
  }

  lemma SlicedHeads(f: seq<byte>, body: seq<byte>, n: nat)
    requires |body| >= 8 && |f| >= HEADER_SIZE + |body| && f[HEADER_SIZE..HEADER_SIZE + |body|] == body
    requires f[4] == VERSION && f[5] == 0 && FromBigEndian(f[6..10]) == 8 + n
    requires (forall i :: 0 <= i < 7 ==> f[10..18][i] == 0) && f[10..18][7] == 1
    requires (forall i :: 0 <= i < 4 ==> body[i] == 0) && FromBigEndian(body[4..8]) == n
    ensures Heads(f, n)
  {
    SliceOfSlice(f, HEADER_SIZE, HEADER_SIZE + |body|, 4, 8);
    forall i | 10 <= i < 17 ensures f[i] == 0 {
      assert f[10..18][i - 10] == 0;
    }
    forall i | 18 <= i < 22 ensures f[i] == 0 {
      assert body[i - HEADER_SIZE] == 0;
    }
  }

  /** Without its own, there is no magic number in front of the payload. */
  lemma HeadsNoMagic(g: seq<byte>, n: nat)
    requires |g| == PAYLOAD_AT && Heads(g, n) && n <= MAX_BODY_LEN && forall i :: 0 <= i < 4 ==> g[i] == 0
    ensures NoMagic(g)
  {
    forall i | 0 <= i && i + 4 <= |g| ensures !MagicAt(g, i) {
      var w := g[i..i + 4];
      MagicBytes(w);
      if 7 <= i < 10 {
        assert w[10 - i] == g[10];
      } else if i != 6 && i != 22 {
        assert w[0] == g[i];
      }
    }
  }

  lemma BehindHead(g: seq<byte>, f: seq<byte>, x: seq<byte>)
    requires NoMagic(g) && x <= f && |x| >= 4 && MagicAt(x, 0)
    ensures FirstMagic(g + f, |g|)
  {
    assert f[0..4] == x[0..4] && (g + f)[|g|..|g| + 4] == f[0..4];
    MagicStarts(f);
    forall i | 0 <= i < |g| ensures !MagicAt(g + f, i) {
      NoMagicBefore(g, f, i);
    }
  }

  /** A request whose magic number is overwritten with zeros carries the encoding of any message x: whatever chunk comes
      next, x, which nobody sent, is delivered. */
  lemma PhantomDamaged(x: Message<seq<byte>, seq<byte>>, next: seq<byte>, blank: Packet<seq<byte>, seq<byte>>)
    returns (m: Message<seq<byte>, seq<byte>>)
    requires Sendable(Plain, x) && PAYLOAD_AT + |Encode(Plain, x)| + CHECKSUM_SIZE + |next| <= MAX_BUFFER_SIZE
    ensures Sendable(Plain, m) && |Encode(Plain, m)| >= 4
    ensures var packets := Receive(Plain, [], [Overwrite(Encode(Plain, m), 0, [0, 0, 0, 0]), next], blank).packets;
            packets != [] && packets[0] == Absorb(blank, x)
  {
    var inner := Encode(Plain, x);
    m := Carrier(inner);
    CarrierSendable(inner);
    var data := DamagedCarrier(x);
    SendableFramed(Plain, x);
    DamageDelivers(Plain, data, PAYLOAD_AT, inner, x, next, blank);
  }

  lemma DamagedCarrier(x: Message<seq<byte>, seq<byte>>) returns (data: seq<byte>)
    requires Sendable(Plain, x) && PAYLOAD_AT + |Encode(Plain, x)| + CHECKSUM_SIZE <= MAX_BUFFER_SIZE
    ensures |Encode(Plain, Carrier(Encode(Plain, x)))| >= 4
    ensures data == Overwrite(Encode(Plain, Carrier(Encode(Plain, x))), 0, [0, 0, 0, 0])
    ensures |data| == PAYLOAD_AT + |Encode(Plain, x)| + CHECKSUM_SIZE
    ensures FirstMagic(data, PAYLOAD_AT) && Encode(Plain, x) <= data[PAYLOAD_AT..]
  {
    var inner := Encode(Plain, x);
    var head, foot := CarrierParts(inner, []);
    assert inner + [] == inner;
    CarrierHeads(inner);
    FrameStarts(x);
    data := ZeroedMagic(Encode(Plain, Carrier(inner)), head, inner, foot);
  }

  lemma FrameStarts(x: Message<seq<byte>, seq<byte>>)
    requires Sendable(Plain, x)
    ensures |Encode(Plain, x)| >= 4 && MagicAt(Encode(Plain, x), 0)
  {
    SendableBody(Plain, x);
    PackedFrame(TypeByte(TypeOf(x)), x.id, Body(Plain, x));
  }

  lemma SameHeads(f: seq<byte>, g: seq<byte>, n: nat)
    requires Heads(f, n) && |g| == PAYLOAD_AT && forall i :: 4 <= i < PAYLOAD_AT ==> g[i] == f[i]
    ensures Heads(g, n)
  {
    assert g[6..10] == f[6..10] && g[22..26] == f[22..26];
  }

  lemma ZeroedMagic(f: seq<byte>, head: seq<byte>, inner: seq<byte>, foot: seq<byte>) returns (data: seq<byte>)
    requires f == head + inner + foot && |head| == PAYLOAD_AT && Heads(f, |inner|)
    requires 4 <= |inner| <= MAX_BODY_LEN && MagicAt(inner, 0)
    ensures data == Overwrite(f, 0, [0, 0, 0, 0])
    ensures FirstMagic(data, PAYLOAD_AT) && inner <= data[PAYLOAD_AT..]
  {
    var g := [0, 0, 0, 0] + head[4..];
    SameHeads(f, g, |inner|);
    HeadsNoMagic(g, |inner|);
    BehindHead(g, inner + foot, inner);
    data := g + (inner + foot);
    assert f[4..] == head[4..] + inner + foot;
  }
}
