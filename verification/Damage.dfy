/** What the receiver does with bytes that are not the frames that were sent. */
module Damage {
  import opened Bytes
  import opened Codec
  import opened RoundTrip
  import opened Framing
  import Crc32

  // ---------- resynchronisation ----------

  lemma MagicBytes(s: seq<byte>)
    requires |s| == 4
    ensures FromBigEndian(s) == MAGIC <==> s == [0x52, 0x50, 0x43, 0x46]
  {
    WritesBack(s);
    var magic := [0x52, 0x50, 0x43, 0x46];
    assert FromBigEndian(magic) == MAGIC by {
      assert FromBigEndian(magic[..1]) == 0x52;
      assert magic[..2][..1] == magic[..1] && FromBigEndian(magic[..2]) == 0x5250;
      assert magic[..3][..2] == magic[..2] && FromBigEndian(magic[..3]) == 0x525043;
    }
    WritesBack(magic);
  }

  /** No magic number lies within g. */
  ghost predicate NoMagic(g: seq<byte>) {
    forall i :: 0 <= i && i + 4 <= |g| ==> !MagicAt(g, i)
  }

  /** f begins as a frame does, as far as it goes. */
  ghost predicate StartsFrame(f: seq<byte>) {
    forall i :: 0 <= i < |f| && i < 4 ==> f[i] == [0x52, 0x50, 0x43, 0x46][i]
  }

  lemma MagicStarts(f: seq<byte>)
    requires |f| >= 4
    ensures StartsFrame(f) <==> MagicAt(f, 0)
  {
    MagicBytes(f[0..4]);
  }

  /** The four bytes of the magic number differ, so none starts inside g and ends in the beginning of a frame
      that follows g. */
  lemma NoMagicBefore(g: seq<byte>, f: seq<byte>, i: nat)
    requires NoMagic(g) && StartsFrame(f) && i < |g| && i + 4 <= |g + f|
    ensures !MagicAt(g + f, i)
  {
    var data := g + f;
    if i + 4 <= |g| {
      assert data[i..i + 4] == g[i..i + 4];
      assert !MagicAt(g, i);
    } else {
      MagicBytes(data[i..i + 4]);
      var k := |g| - i;
      assert data[i..i + 4][k] == f[0];
    }
  }

  lemma {:induction false} ResyncTo(g: seq<byte>, f: seq<byte>, i: nat)
    requires NoMagic(g) && StartsFrame(f) && i <= |g|
    ensures Resync(g + f, i) == if |f| >= 4 && |g| + 4 <= MAX_SCAN_BYTES then |g| else |g + f|
    decreases |g| - i
  {
    var data := g + f;
    if i == |g| {
      if |f| >= 4 {
        MagicStarts(f);
        assert data[i..i + 4] == f[0..4];
      }
    } else if i + 4 <= Min(|data|, MAX_SCAN_BYTES) {
      NoMagicBefore(g, f, i);
      ResyncTo(g, f, i + 1);
    }
  }

  /** Garbage in front of what has arrived of a frame is dropped to the byte when the frame's first four bytes are
      there and within the scan; otherwise everything readable is dropped, the start of the frame included. */
  lemma GarbageDropped<Q, R>(schema: Schema<Q, R>, g: seq<byte>, f: seq<byte>, p: Packet<Q, R>)
    requires g != [] && NoMagic(g) && StartsFrame(f)
    requires HEADER_SIZE <= |g + f| <= MAX_BUFFER_SIZE
    ensures Decode(schema, g + f, p) == Step(false, if |f| >= 4 && |g| + 4 <= MAX_SCAN_BYTES then f else [], p)
  {
    NoMagicBefore(g, f, 0);
    ResyncTo(g, f, 1);
    assert (g + f)[|g|..] == f && (g + f)[|g + f|..] == [];
  }

  /** What has arrived of the frame is kept exactly when that is nothing, or its first four bytes are within the
      scan. */
  lemma KeptExactlyWhen<Q, R>(schema: Schema<Q, R>, g: seq<byte>, f: seq<byte>, p: Packet<Q, R>)
    requires g != [] && NoMagic(g) && StartsFrame(f)
    requires HEADER_SIZE <= |g + f| <= MAX_BUFFER_SIZE
    ensures Decode(schema, g + f, p).rest == f <==> f == [] || (|f| >= 4 && |g| + 4 <= MAX_SCAN_BYTES)
  {
    GarbageDropped(schema, g, f, p);
  }

  /** Seventeen stray bytes and the first byte of a frame: that byte is thrown away with them. */
  lemma FrameStartLost<Q, R>(schema: Schema<Q, R>, p: Packet<Q, R>)
    ensures Decode(schema, seq(17, _ => 0) + [0x52], p) == Step(false, [], p)
  {
    var g: seq<byte> := seq(17, _ => 0);
    forall i | 0 <= i && i + 4 <= |g| ensures !MagicAt(g, i) {
      MagicBytes(g[i..i + 4]);
      assert g[i..i + 4][0] == 0;
    }
    GarbageDropped(schema, g, [0x52], p);
  }

  /** A drain that meets garbage stops after dropping it: the frames behind it stay in the buffer and are
      delivered by the next drain. */
  lemma DrainStallsAfterGarbage<Q(!new), R(!new)>(schema: Schema<Q, R>, g: seq<byte>, items: seq<Item<Q, R>>,
                                                   more: seq<byte>, p: Packet<Q, R>)
    requires g != [] && NoMagic(g) && |g| + 4 <= MAX_SCAN_BYTES
    requires AllFramed(schema, items) && |Stream(items)| >= 4 && MagicAt(Stream(items), 0)
    requires HEADER_SIZE <= |g + Stream(items)| <= MAX_BUFFER_SIZE && |Stream(items) + more| <= MAX_BUFFER_SIZE
    requires Incomplete(more)
    ensures Drain(schema, g + Stream(items), p) == Drained([], Stream(items))
    ensures var d := Drain(schema, Stream(items) + more, p);
            DeliversAll(d.packets, items) && d.rest == more
  {
    MagicStarts(Stream(items));
    GarbageDropped(schema, g, Stream(items), p);
    DecodeProgress(schema, g + Stream(items), p);
    DrainThen(schema, items, more, p);
  }

  /** One stray byte in front of a message: the message is complete in the buffer, and the drain leaves it there. */
  lemma StrayByte<Q(!new), R(!new)>(schema: Schema<Q, R>, m: Message<Q, R>, p: Packet<Q, R>)
    requires Lawful(schema) && Sendable(schema, m) && HEADER_SIZE + |Body(schema, m)| + CHECKSUM_SIZE < MAX_BUFFER_SIZE
    ensures Drain(schema, [0] + Encode(schema, m), p) == Drained([], Encode(schema, m))
  {
    var f := Encode(schema, m);
    FrameLength(schema, m);
    SendableBody(schema, m);
    PackedFrame(TypeByte(TypeOf(m)), m.id, Body(schema, m));
    MagicStarts(f);
    GarbageDropped(schema, [0], f, p);
  }

  lemma {:induction false} DrainThen<Q(!new), R(!new)>(schema: Schema<Q, R>, items: seq<Item<Q, R>>, more: seq<byte>,
                                                       p: Packet<Q, R>)
    requires AllFramed(schema, items) && Incomplete(more) && |Stream(items) + more| <= MAX_BUFFER_SIZE
    ensures var d := Drain(schema, Stream(items) + more, p);
            DeliversAll(d.packets, items) && d.rest == more
    decreases |items|
  {
    if items == [] {
      assert Stream(items) + more == more;
      DrainIncomplete(schema, more, p);
    } else {
      var f, m, rest := items[0].frame, items[0].msg, Stream(items[1..]) + more;
      assert Stream(items) + more == f + rest;
      assert Framed(schema, f, m);
      DrainThen(schema, items[1..], more, Absorb(p, m));
      DrainFrame(schema, f, m, rest, p);
    }
  }

  // ---------- rejected frames ----------

  /** A complete frame with a good header, whatever its body and checksum. */
  ghost predicate WellHeaded(u: seq<byte>) {
    && |u| >= HEADER_SIZE && MagicAt(u, 0) && u[4] == VERSION && BodyLen(u) <= MAX_BODY_LEN
    && |u| == HEADER_SIZE + BodyLen(u) + CHECKSUM_SIZE
  }

  lemma {:induction false} ExtrasAnyRecord(s: seq<byte>, count: nat, a: map<seq<byte>, seq<byte>>,
                                           b: map<seq<byte>, seq<byte>>)
    ensures TakeExtras(s, count, a).ok == TakeExtras(s, count, b).ok
    ensures TakeExtras(s, count, a).rest == TakeExtras(s, count, b).rest
    decreases count
  {
    if count > 0 && TakeString(s).Some? {
      var (key, rest) := TakeString(s).value;
      if TakeString(rest).Some? {
        var (value, rest') := TakeString(rest).value;
        ExtrasAnyRecord(rest', count - 1, a[key := value], b[key := value]);
      }
    }
  }

  lemma HeartbeatAnyRecord<Q, R>(body: seq<byte>, p: Packet<Q, R>, q: Packet<Q, R>)
    ensures DecodeHeartbeatBody(body, p).ok == DecodeHeartbeatBody(body, q).ok
  {
    if TakeString(body).Some? {
      var (service, rest) := TakeString(body).value;
      if TakeString(rest).Some? {
        var (node, tail) := TakeString(rest).value;
        if |tail| >= 10 {
          ExtrasAnyRecord(tail[10..], FromBigEndian(tail[8..10]), p.heartbeat.extra, q.heartbeat.extra);
        }
      }
    }
  }

  lemma RequestAnyRecord<Q, R>(schema: Schema<Q, R>, body: seq<byte>, p: Packet<Q, R>, q: Packet<Q, R>)
    ensures DecodeRequestBody(schema, body, p).ok == DecodeRequestBody(schema, body, q).ok
  {
  }

  lemma ResponseAnyRecord<Q, R>(schema: Schema<Q, R>, body: seq<byte>, p: Packet<Q, R>, q: Packet<Q, R>)
    ensures DecodeResponseBody(schema, body, p).ok == DecodeResponseBody(schema, body, q).ok
  {
  }

  /** Whether the checksum, the type and the body of a complete frame are good; the record has no say in it. */
  predicate Accepts<Q, R>(schema: Schema<Q, R>, u: seq<byte>, p: Packet<Q, R>) {
    |u| >= HEADER_SIZE + CHECKSUM_SIZE && DecodeFrame(schema, u, |u| - HEADER_SIZE - CHECKSUM_SIZE, p).ok
  }

  /** The record after a complete frame has been decoded by itself. */
  function Reading<Q, R>(schema: Schema<Q, R>, u: seq<byte>, p: Packet<Q, R>): Packet<Q, R>
    requires Accepts(schema, u, p)
  {
    DecodeFrame(schema, u, |u| - HEADER_SIZE - CHECKSUM_SIZE, p).packet
  }

  lemma BodyAnyRecord<Q, R>(schema: Schema<Q, R>, msgType: byte, body: seq<byte>, p: Packet<Q, R>, q: Packet<Q, R>)
    ensures DecodeBody(schema, msgType, body, p).ok == DecodeBody(schema, msgType, body, q).ok
  {
    RequestAnyRecord(schema, body, p, q);
    ResponseAnyRecord(schema, body, p, q);
    HeartbeatAnyRecord(body, p, q);
  }

  lemma AcceptsWhen<Q, R>(schema: Schema<Q, R>, u: seq<byte>, n: nat, p: Packet<Q, R>)
    requires |u| == HEADER_SIZE + n + CHECKSUM_SIZE
    ensures Accepts(schema, u, p) ==
            (ChecksumOk(u, n) && DecodeBody(schema, u[5], u[HEADER_SIZE..HEADER_SIZE + n], p).ok)
  {
  }

  lemma AcceptsAnyRecord<Q, R>(schema: Schema<Q, R>, u: seq<byte>, p: Packet<Q, R>, q: Packet<Q, R>)
    ensures Accepts(schema, u, p) == Accepts(schema, u, q)
  {
    if |u| >= HEADER_SIZE + CHECKSUM_SIZE {
      var n := |u| - HEADER_SIZE - CHECKSUM_SIZE;
      AcceptsWhen(schema, u, n, p);
      AcceptsWhen(schema, u, n, q);
      BodyAnyRecord(schema, u[5], u[HEADER_SIZE..HEADER_SIZE + n], p, q);
    }
  }

  lemma SameChecksum(u: seq<byte>, rest: seq<byte>, n: nat)
    requires |u| == HEADER_SIZE + n + CHECKSUM_SIZE
    ensures ChecksumOk(u + rest, n) == ChecksumOk(u, n)
  {
    var data := u + rest;
    assert data[..HEADER_SIZE + n] == u[..HEADER_SIZE + n];
    assert data[HEADER_SIZE + n..HEADER_SIZE + n + CHECKSUM_SIZE]
        == u[HEADER_SIZE + n..HEADER_SIZE + n + CHECKSUM_SIZE];
  }

  lemma SameFrame<Q, R>(schema: Schema<Q, R>, u: seq<byte>, rest: seq<byte>, n: nat, p: Packet<Q, R>)
    requires |u| == HEADER_SIZE + n + CHECKSUM_SIZE
    ensures DecodeFrame(schema, u + rest, n, p) == DecodeFrame(schema, u, n, p)
  {
    SameChecksum(u, rest, n);
    var data := u + rest;
    assert data[HEADER_SIZE..HEADER_SIZE + n] == u[HEADER_SIZE..HEADER_SIZE + n] && data[10..18] == u[10..18];
  }

  lemma InspectWellHeaded(u: seq<byte>, rest: seq<byte>)
    requires WellHeaded(u) && |u + rest| <= MAX_BUFFER_SIZE
    ensures Inspect(u + rest) == Frame(|u| - HEADER_SIZE - CHECKSUM_SIZE)
  {
    var data := u + rest;
    assert data[0..4] == u[0..4] && data[6..10] == u[6..10];
  }

  lemma DecodeInspected<Q, R>(schema: Schema<Q, R>, data: seq<byte>, n: nat, rest: seq<byte>, p: Packet<Q, R>,
                              d: Decoded<Q, R>)
    requires Inspect(data) == Frame(n) && DecodeFrame(schema, data, n, p) == d
    requires data[HEADER_SIZE + n + CHECKSUM_SIZE..] == rest
    ensures Decode(schema, data, p) == Step(d.ok, rest, d.packet)
  {
  }

  lemma DecodeWellHeaded<Q, R>(schema: Schema<Q, R>, u: seq<byte>, rest: seq<byte>, p: Packet<Q, R>)
    requires WellHeaded(u) && |u + rest| <= MAX_BUFFER_SIZE
    ensures var d := DecodeFrame(schema, u, |u| - HEADER_SIZE - CHECKSUM_SIZE, p);
            Decode(schema, u + rest, p) == Step(d.ok, rest, d.packet)
  {
    var n := |u| - HEADER_SIZE - CHECKSUM_SIZE;
    InspectWellHeaded(u, rest);
    SameFrame(schema, u, rest, n, p);
    assert (u + rest)[|u|..] == rest;
    DecodeInspected(schema, u + rest, n, rest, p, DecodeFrame(schema, u, n, p));
  }

  lemma DrainGood<Q, R>(schema: Schema<Q, R>, u: seq<byte>, rest: seq<byte>, p: Packet<Q, R>) returns (q: Packet<Q, R>)
    requires WellHeaded(u) && |u + rest| <= MAX_BUFFER_SIZE && Accepts(schema, u, p)
    ensures var d, d' := Drain(schema, u + rest, p), Drain(schema, rest, q);
            q == Reading(schema, u, p) && d.packets == [q] + d'.packets && d.rest == d'.rest
  {
    DecodeWellHeaded(schema, u, rest, p);
    DrainStep(schema, u + rest, p);
    q := Decode(schema, u + rest, p).packet;
  }

  lemma DrainBad<Q, R>(schema: Schema<Q, R>, u: seq<byte>, rest: seq<byte>, p: Packet<Q, R>)
    requires WellHeaded(u) && |u + rest| <= MAX_BUFFER_SIZE && !Accepts(schema, u, p)
    ensures Drain(schema, u + rest, p) == Drained([], rest)
  {
    DecodeWellHeaded(schema, u, rest, p);
  }

  /** How many frames come before the first one that is rejected. */
  function GoodFrames<Q, R>(schema: Schema<Q, R>, us: seq<seq<byte>>, p: Packet<Q, R>): (k: nat)
    ensures k <= |us|
  {
    if us == [] || !Accepts(schema, us[0], p) then 0 else 1 + GoodFrames(schema, us[1..], p)
  }

  /** The frames before the first rejected one, decoded one by one into the same record. */
  function Readings<Q, R>(schema: Schema<Q, R>, us: seq<seq<byte>>, p: Packet<Q, R>): seq<Packet<Q, R>> {
    if us == [] || !Accepts(schema, us[0], p) then []
    else
      var q := Reading(schema, us[0], p);
      [q] + Readings(schema, us[1..], q)
  }

  lemma {:induction false} GoodAnyRecord<Q, R>(schema: Schema<Q, R>, us: seq<seq<byte>>, p: Packet<Q, R>,
                                               q: Packet<Q, R>)
    ensures GoodFrames(schema, us, p) == GoodFrames(schema, us, q)
    decreases |us|
  {
    if us != [] {
      AcceptsAnyRecord(schema, us[0], p, q);
      GoodAnyRecord(schema, us[1..], p, q);
    }
  }

  /** What is behind the first rejected frame, if there is one. */
  function Behind(us: seq<seq<byte>>, k: nat): seq<byte>
    requires k <= |us|
  {
    if k < |us| then Concat(us[k + 1..]) else []
  }

  /** The drain delivers the packets, as many as there are frames before the first rejected one, drops that one, and
      leaves what is behind it. */
  ghost predicate StopsAt<Q, R>(d: Drained<Q, R>, us: seq<seq<byte>>, more: seq<byte>, k: nat,
                                packets: seq<Packet<Q, R>>) {
    k <= |us| && |packets| == k && d == Drained(packets, Behind(us, k) + more)
  }

  lemma StopsLater<Q, R>(d: Drained<Q, R>, d': Drained<Q, R>, q: Packet<Q, R>, us: seq<seq<byte>>, more: seq<byte>,
                         k: nat, packets: seq<Packet<Q, R>>)
    requires us != [] && StopsAt(d', us[1..], more, k, packets) && d.packets == [q] + d'.packets && d.rest == d'.rest
    ensures StopsAt(d, us, more, k + 1, [q] + packets)
  {
    BehindLater(us, k);
  }

  lemma FirstGood<Q, R>(schema: Schema<Q, R>, us: seq<seq<byte>>, more: seq<byte>, p: Packet<Q, R>)
    returns (q: Packet<Q, R>)
    requires us != [] && WellHeaded(us[0]) && |Concat(us) + more| <= MAX_BUFFER_SIZE && Accepts(schema, us[0], p)
    ensures |Concat(us[1..]) + more| <= MAX_BUFFER_SIZE
    ensures var d, d' := Drain(schema, Concat(us) + more, p), Drain(schema, Concat(us[1..]) + more, q);
            q == Reading(schema, us[0], p) && d.packets == [q] + d'.packets && d.rest == d'.rest
  {
    ConcatHead(us, more);
    q := DrainGood(schema, us[0], Concat(us[1..]) + more, p);
  }

  lemma FirstBad<Q, R>(schema: Schema<Q, R>, us: seq<seq<byte>>, more: seq<byte>, p: Packet<Q, R>)
    requires us != [] && WellHeaded(us[0]) && |Concat(us) + more| <= MAX_BUFFER_SIZE && !Accepts(schema, us[0], p)
    ensures StopsAt(Drain(schema, Concat(us) + more, p), us, more, 0, [])
  {
    ConcatHead(us, more);
    DrainBad(schema, us[0], Concat(us[1..]) + more, p);
  }

  /** A drain of `us` delivers the frames before the first rejected one and stops there, whatever record it starts
      from. */
  ghost predicate Stops<Q(!new), R(!new)>(schema: Schema<Q, R>, us: seq<seq<byte>>, more: seq<byte>) {
    |Concat(us) + more| <= MAX_BUFFER_SIZE ==>
      forall p ::
        StopsAt(Drain(schema, Concat(us) + more, p), us, more, GoodFrames(schema, us, p), Readings(schema, us, p))
  }

  lemma StopsEmpty<Q(!new), R(!new)>(schema: Schema<Q, R>, more: seq<byte>)
    requires Incomplete(more)
    ensures Stops(schema, [], more)
  {
    if |more| <= MAX_BUFFER_SIZE {
      var none: seq<seq<byte>> := [];
      assert Concat(none) + more == more && [] + more == more;
      forall p ensures StopsAt(Drain(schema, more, p), none, more, 0, []) {
        DrainIncomplete(schema, more, p);
      }
    }
  }

  lemma StopsFrom<Q(!new), R(!new)>(schema: Schema<Q, R>, us: seq<seq<byte>>, more: seq<byte>, p: Packet<Q, R>)
    requires us != [] && WellHeaded(us[0]) && |Concat(us) + more| <= MAX_BUFFER_SIZE && Stops(schema, us[1..], more)
    ensures StopsAt(Drain(schema, Concat(us) + more, p), us, more, GoodFrames(schema, us, p), Readings(schema, us, p))
  {
    if Accepts(schema, us[0], p) {
      var q := FirstGood(schema, us, more, p);
      GoodAnyRecord(schema, us[1..], p, q);
      var k := GoodFrames(schema, us[1..], p);
      StopsLater(Drain(schema, Concat(us) + more, p), Drain(schema, Concat(us[1..]) + more, q), q, us, more, k,
                 Readings(schema, us[1..], q));
    } else {
      FirstBad(schema, us, more, p);
    }
  }

  /** A drain stops at the first frame that is rejected, be it for its checksum, its type or its body. */
  lemma {:induction false} DrainStopsAtRejected<Q(!new), R(!new)>(schema: Schema<Q, R>, us: seq<seq<byte>>,
                                                                  more: seq<byte>)
    requires forall i :: 0 <= i < |us| ==> WellHeaded(us[i])
    requires Incomplete(more)
    ensures Stops(schema, us, more)
    decreases |us|
  {
    if us == [] {
      StopsEmpty(schema, more);
    } else {
      DrainStopsAtRejected(schema, us[1..], more);
      if |Concat(us) + more| <= MAX_BUFFER_SIZE {
        forall p { StopsFrom(schema, us, more, p); }
      }
    }
  }

  lemma ConcatHead(us: seq<seq<byte>>, more: seq<byte>)
    requires us != []
    ensures Concat(us) + more == us[0] + (Concat(us[1..]) + more)
  {
    Associate(us[0], Concat(us[1..]), more);
  }

  lemma BehindLater(us: seq<seq<byte>>, k: nat)
    requires us != [] && k <= |us| - 1
    ensures Behind(us, k + 1) == Behind(us[1..], k)
  {
    if k < |us| - 1 {
      assert us[1..][k + 1..] == us[k + 2..];
    }
  }

  /** A heartbeat with one field too many strands a request behind it, complete as it is. */
  lemma RequestStranded<Q(!new), R(!new)>(schema: Schema<Q, R>, bad: Message<Q, R>, good: Message<Q, R>,
                                          p: Packet<Q, R>)
    requires Lawful(schema) && Encodable(schema, bad) && bad.HeartbeatMsg? && |bad.beat.extra| > MAX_STRING
    requires Sendable(schema, good)
    requires 2 * (HEADER_SIZE + CHECKSUM_SIZE) + |Body(schema, bad)| + |Body(schema, good)| <= MAX_BUFFER_SIZE
    ensures Drain(schema, Encode(schema, bad) + Encode(schema, good), p) == Drained([], Encode(schema, good))
  {
    var rest := Encode(schema, good);
    FrameLength(schema, bad);
    FrameLength(schema, good);
    SendableBody(schema, bad);
    DecodeBodyBack(schema, bad, p);
    DecodePacked(schema, TypeByte(TypeOf(bad)), bad.id, Body(schema, bad), rest, p);
  }

  // ---------- damaged frames ----------

  /** A frame whose header is intact but whose checksum does not match is consumed and not delivered. */
  lemma BadChecksumRejected<Q, R>(schema: Schema<Q, R>, data: seq<byte>, n: nat, p: Packet<Q, R>)
    requires HEADER_SIZE + n + CHECKSUM_SIZE <= |data| <= MAX_BUFFER_SIZE
    requires MagicAt(data, 0) && data[4] == VERSION && BodyLen(data) == n && !ChecksumOk(data, n)
    ensures Decode(schema, data, p) == Step(false, data[HEADER_SIZE + n + CHECKSUM_SIZE..], p)
  {
    assert Inspect(data) == Frame(n);
  }

  /** Where damage is always noticed: the message type, the request id and the body, and the checksum. */
  ghost predicate Guarded(start: nat, length: nat, bodyLen: nat) {
    || (start == 5 && length == 1)
    || (10 <= start && start + length <= HEADER_SIZE + bodyLen)
    || HEADER_SIZE + bodyLen <= start
  }

  lemma HeaderFieldsUntouched(frame: seq<byte>, data: seq<byte>, n: nat)
    requires |frame| >= HEADER_SIZE && |data| >= HEADER_SIZE
    requires data[..5] == frame[..5] && data[6..10] == frame[6..10]
    requires MagicAt(frame, 0) && frame[4] == VERSION && BodyLen(frame) == n
    ensures MagicAt(data, 0) && data[4] == VERSION && BodyLen(data) == n
  {
    assert data[0..4] == data[..5][0..4] && frame[0..4] == frame[..5][0..4];
    assert data[..5][4] == frame[..5][4];
  }

  lemma DamagedContent(pre: seq<byte>, w: seq<byte>, e: seq<byte>, post: seq<byte>, sum: seq<byte>, rest: seq<byte>,
                       n: nat)
    requires |w| == |e| <= 4 && w != e && |sum| == CHECKSUM_SIZE
    requires |pre + w + post| == HEADER_SIZE + n
    requires sum == Crc32.ToBytes(Crc32.Crc(pre + w + post))
    ensures !ChecksumOk(pre + e + post + sum + rest, n)
  {
    var data := pre + e + post + sum + rest;
    assert data[..HEADER_SIZE + n] == pre + e + post;
    assert data[HEADER_SIZE + n..HEADER_SIZE + n + CHECKSUM_SIZE] == sum;
    Crc32.ChecksumReadsBack(Crc32.Crc(pre + w + post));
    Crc32.ByteBurstDetected(pre, w, e, post);
  }

  lemma DamagedChecksum(content: seq<byte>, sum: seq<byte>, rest: seq<byte>, n: nat)
    requires |content| == HEADER_SIZE + n && |sum| == CHECKSUM_SIZE
    requires sum != Crc32.ToBytes(Crc32.Crc(content))
    ensures !ChecksumOk(content + sum + rest, n)
  {
    var data := content + sum + rest;
    assert data[..HEADER_SIZE + n] == content;
    assert data[HEADER_SIZE + n..HEADER_SIZE + n + CHECKSUM_SIZE] == sum;
    Crc32.ChecksumReadsBack(Crc32.Crc(content));
    if Crc32.FromBytes(sum) == Crc32.Crc(content) {
      Crc32.ChecksumDetermined(sum, Crc32.Crc(content));
    }
  }

  /** The bytes of a frame with those from start on replaced by e. */
  function Overwrite(frame: seq<byte>, start: nat, e: seq<byte>): (r: seq<byte>)
    requires start + |e| <= |frame|
    ensures |r| == |frame|
  {
    frame[..start] + e + frame[start + |e|..]
  }

  lemma OverwrittenContent(frame: seq<byte>, start: nat, e: seq<byte>, n: nat, rest: seq<byte>)
    requires |frame| == HEADER_SIZE + n + CHECKSUM_SIZE
    requires frame[HEADER_SIZE + n..] == Crc32.ToBytes(Crc32.Crc(frame[..HEADER_SIZE + n]))
    requires |e| <= 4 && start + |e| <= HEADER_SIZE + n && e != frame[start..start + |e|]
    ensures !ChecksumOk(Overwrite(frame, start, e) + rest, n)
  {
    var end := start + |e|;
    var pre, w, post, sum := frame[..start], frame[start..end], frame[end..HEADER_SIZE + n], frame[HEADER_SIZE + n..];
    assert frame[..HEADER_SIZE + n] == pre + w + post;
    assert Overwrite(frame, start, e) + rest == pre + e + post + sum + rest;
    DamagedContent(pre, w, e, post, sum, rest, n);
  }

  lemma OverwriteTail(frame: seq<byte>, at: nat, start: nat, e: seq<byte>)
    requires at <= start && start + |e| <= |frame|
    ensures Overwrite(frame, start, e) == frame[..at] + Overwrite(frame[at..], start - at, e)
  {
  }

  lemma OverwriteDiffers(s: seq<byte>, at: nat, start: nat, e: seq<byte>)
    requires at <= start && start + |e| <= |s| && e != s[start..start + |e|]
    ensures Overwrite(s[at..], start - at, e) != s[at..]
  {
    assert Overwrite(s[at..], start - at, e)[start - at..start - at + |e|] == e;
    assert s[at..][start - at..start - at + |e|] == s[start..start + |e|];
  }

  lemma OverwrittenChecksum(frame: seq<byte>, start: nat, e: seq<byte>, n: nat, rest: seq<byte>)
    requires |frame| == HEADER_SIZE + n + CHECKSUM_SIZE
    requires frame[HEADER_SIZE + n..] == Crc32.ToBytes(Crc32.Crc(frame[..HEADER_SIZE + n]))
    requires HEADER_SIZE + n <= start && start + |e| <= |frame| && e != frame[start..start + |e|]
    ensures !ChecksumOk(Overwrite(frame, start, e) + rest, n)
  {
    var at := HEADER_SIZE + n;
    OverwriteTail(frame, at, start, e);
    OverwriteDiffers(frame, at, start, e);
    DamagedChecksum(frame[..at], Overwrite(frame[at..], start - at, e), rest, n);
  }

  lemma OverwrittenHeader(frame: seq<byte>, start: nat, e: seq<byte>, rest: seq<byte>, n: nat)
    requires |frame| == HEADER_SIZE + n + CHECKSUM_SIZE && start + |e| <= |frame|
    requires Guarded(start, |e|, n)
    requires MagicAt(frame, 0) && frame[4] == VERSION && BodyLen(frame) == n
    ensures var data := Overwrite(frame, start, e) + rest;
            MagicAt(data, 0) && data[4] == VERSION && BodyLen(data) == n
  {
    var data := Overwrite(frame, start, e) + rest;
    assert data[..5] == frame[..5] && data[6..10] == frame[6..10];
    HeaderFieldsUntouched(frame, data, n);
  }

  lemma PackedFrame(msgType: byte, reqId: nat, body: seq<byte>)
    requires reqId < TWO_64 && |body| < 0x1_0000_0000
    ensures var frame := Pack(msgType, reqId, body);
            && MagicAt(frame, 0) && frame[4] == VERSION && BodyLen(frame) == |body|
            && frame[HEADER_SIZE + |body|..] == Crc32.ToBytes(Crc32.Crc(frame[..HEADER_SIZE + |body|]))
  {
    var frame := Pack(msgType, reqId, body);
    var content := Header(msgType, reqId, |body|) + body;
    PackedParts(msgType, reqId, body, []);
    assert frame + [] == frame;
    assert frame[..HEADER_SIZE + |body|] == content;
  }

  /** Damage confined to up to four consecutive bytes of the request id and body, to the message type,
      or to the checksum is always noticed, and exactly the damaged frame is consumed. */
  lemma DamageRejected<Q, R>(schema: Schema<Q, R>, msgType: byte, reqId: nat, body: seq<byte>, start: nat, e: seq<byte>,
                             rest: seq<byte>, p: Packet<Q, R>)
    requires reqId < TWO_64
    requires HEADER_SIZE + |body| + CHECKSUM_SIZE + |rest| <= MAX_BUFFER_SIZE
    requires |e| <= 4 && start + |e| <= HEADER_SIZE + |body| + CHECKSUM_SIZE && Guarded(start, |e|, |body|)
    requires e != Pack(msgType, reqId, body)[start..start + |e|]
    ensures Decode(schema, Overwrite(Pack(msgType, reqId, body), start, e) + rest, p) == Step(false, rest, p)
  {
    var frame := Pack(msgType, reqId, body);
    PackedFrame(msgType, reqId, body);
    DamagedFrameRejected(schema, frame, |body|, start, e, rest, p);
  }

  lemma DamagedFrameRejected<Q, R>(schema: Schema<Q, R>, frame: seq<byte>, n: nat, start: nat, e: seq<byte>,
                                   rest: seq<byte>, p: Packet<Q, R>)
    requires |frame| == HEADER_SIZE + n + CHECKSUM_SIZE && |frame| + |rest| <= MAX_BUFFER_SIZE
    requires MagicAt(frame, 0) && frame[4] == VERSION && BodyLen(frame) == n
    requires frame[HEADER_SIZE + n..] == Crc32.ToBytes(Crc32.Crc(frame[..HEADER_SIZE + n]))
    requires |e| <= 4 && start + |e| <= |frame| && Guarded(start, |e|, n) && e != frame[start..start + |e|]
    ensures Decode(schema, Overwrite(frame, start, e) + rest, p) == Step(false, rest, p)
  {
    var data := Overwrite(frame, start, e) + rest;
    OverwrittenHeader(frame, start, e, rest, n);
    if start + |e| <= HEADER_SIZE + n {
      OverwrittenContent(frame, start, e, n, rest);
    } else {
      OverwrittenChecksum(frame, start, e, n, rest);
    }
    BadChecksumRejected(schema, data, n, p);
    assert data[|frame|..] == rest;
  }

  lemma ContentChecksum(content: seq<byte>, damaged: seq<byte>, sum: seq<byte>, rest: seq<byte>, n: nat)
    requires |content| == |damaged| == HEADER_SIZE + n
    requires sum == Crc32.ToBytes(Crc32.Crc(content)) && Crc32.Crc(content) != Crc32.Crc(damaged)
    ensures !ChecksumOk(damaged + sum + rest, n)
  {
    var data := damaged + sum + rest;
    assert data[..HEADER_SIZE + n] == damaged;
    assert data[HEADER_SIZE + n..HEADER_SIZE + n + CHECKSUM_SIZE] == sum;
    Crc32.ChecksumReadsBack(Crc32.Crc(content));
  }

  lemma BurstChecksum(frame: seq<byte>, damaged: seq<byte>, n: nat, pre: seq<bool>, d: seq<bool>, e: seq<bool>,
                      post: seq<bool>, rest: seq<byte>)
    requires |frame| == |damaged| == HEADER_SIZE + n + CHECKSUM_SIZE
    requires frame[HEADER_SIZE + n..] == Crc32.ToBytes(Crc32.Crc(frame[..HEADER_SIZE + n]))
          == damaged[HEADER_SIZE + n..]
    requires Crc32.Bits(frame[..HEADER_SIZE + n]) == pre + d + post
    requires Crc32.Bits(damaged[..HEADER_SIZE + n]) == pre + e + post && |d| == |e| <= 32 && d != e
    ensures !ChecksumOk(damaged + rest, n)
  {
    var at := HEADER_SIZE + n;
    Crc32.BurstDetected(frame[..at], damaged[..at], pre, d, e, post);
    ContentChecksum(frame[..at], damaged[..at], damaged[at..], rest, n);
    assert damaged == damaged[..at] + damaged[at..];
  }

  lemma HeaderKept(frame: seq<byte>, damaged: seq<byte>, rest: seq<byte>, n: nat)
    requires |frame| == |damaged| >= HEADER_SIZE
    requires damaged[..5] == frame[..5] && damaged[6..10] == frame[6..10]
    requires MagicAt(frame, 0) && frame[4] == VERSION && BodyLen(frame) == n
    ensures var data := damaged + rest;
            MagicAt(data, 0) && data[4] == VERSION && BodyLen(data) == n && data[|frame|..] == rest
  {
    var data := damaged + rest;
    assert data[..5] == frame[..5] && data[6..10] == frame[6..10];
    HeaderFieldsUntouched(frame, data, n);
  }

  /** The same for bits: a frame whose message type, request id and body differ from what was sent only inside 32
      consecutive bits, wherever they start, is never delivered, and exactly that frame is consumed. */
  lemma BitBurstRejected<Q, R>(schema: Schema<Q, R>, frame: seq<byte>, damaged: seq<byte>, n: nat,
                               pre: seq<bool>, d: seq<bool>, e: seq<bool>, post: seq<bool>, rest: seq<byte>,
                               p: Packet<Q, R>)
    requires |frame| == |damaged| == HEADER_SIZE + n + CHECKSUM_SIZE && |frame| + |rest| <= MAX_BUFFER_SIZE
    requires MagicAt(frame, 0) && frame[4] == VERSION && BodyLen(frame) == n
    requires frame[HEADER_SIZE + n..] == Crc32.ToBytes(Crc32.Crc(frame[..HEADER_SIZE + n]))
          == damaged[HEADER_SIZE + n..]
    requires damaged[..5] == frame[..5] && damaged[6..10] == frame[6..10]
    requires Crc32.Bits(frame[..HEADER_SIZE + n]) == pre + d + post
    requires Crc32.Bits(damaged[..HEADER_SIZE + n]) == pre + e + post && |d| == |e| <= 32 && d != e
    ensures Decode(schema, damaged + rest, p) == Step(false, rest, p)
  {
    BurstChecksum(frame, damaged, n, pre, d, e, post, rest);
    HeaderKept(frame, damaged, rest, n);
    BadChecksumRejected(schema, damaged + rest, n, p);
  }
}
