/** Printing and parsing one message undo each other. */
module RoundTrip {
  import opened Bytes
  import opened Codec
  import Crc32

  lemma TakeStringBack(s: seq<byte>, rest: seq<byte>)
    requires |s| <= MAX_STRING
    ensures TakeString(Str(s) + rest) == Some((s, rest))
  {
    var all := Str(s) + rest;
    Limits();
    ReadsBack(|s|, U16);
    assert all[..2] == BigEndian(|s|, U16);
    assert all[2..2 + |s|] == s && all[2 + |s|..] == rest;
  }

  lemma TakeBlockBack(s: seq<byte>, rest: seq<byte>)
    requires |s| < 0x1_0000_0000
    ensures TakeBlock(Block(s) + rest) == Some((s, rest))
  {
    var all := Block(s) + rest;
    Limits();
    ReadsBack(|s|, U32);
    assert all[..4] == BigEndian(|s|, U32);
    assert all[4..4 + |s|] == s && all[4 + |s|..] == rest;
  }

  // ---------- which messages can be sent ----------

  /** The strings are short enough for their length fields, protobuf serializes the message, and the
      numbers fit their fields. */
  ghost predicate Encodable<Q, R>(schema: Schema<Q, R>, m: Message<Q, R>) {
    && m.id < TWO_64
    && match m
       case RequestMsg(_, service, name, q) =>
         |service| <= MAX_STRING && |name| <= MAX_STRING && schema.serializeRequest(q).Some?
       case ResponseMsg(_, _, r) => schema.serializeResponse(r).Some?
       case HeartbeatMsg(_, hb, fields) =>
         && Enumerates(fields, hb.extra) && ShortFields(fields)
         && |hb.serviceName| <= MAX_STRING && |hb.nodeId| <= MAX_STRING
         && -(TWO_64 as int / 2) <= hb.timestamp < TWO_64 / 2
  }

  /** Encodable, and no larger than a receiver accepts. The frame has to fit the receive buffer, whose
      limit equals the limit on the body alone: the largest bodies that pass the latter do not fit. */
  ghost predicate Sendable<Q, R>(schema: Schema<Q, R>, m: Message<Q, R>) {
    && Encodable(schema, m)
    && HEADER_SIZE + |Body(schema, m)| + CHECKSUM_SIZE <= MAX_BUFFER_SIZE
    && (m.HeartbeatMsg? ==> |m.beat.extra| <= MAX_STRING)
  }

  /** What the record holds after m has been decoded over p. Extra fields of earlier heartbeats stay. */
  function Absorb<Q, R>(p: Packet<Q, R>, m: Message<Q, R>): Packet<Q, R> {
    match m
    case RequestMsg(id, service, name, q) =>
      p.(msgType := REQUEST, reqId := id, serviceName := service, methodName := name, request := q)
    case ResponseMsg(id, status, r) =>
      p.(msgType := RESPONSE, reqId := id, response := r, networkStatus := status)
    case HeartbeatMsg(id, hb, _) =>
      p.(msgType := HEARTBEAT, reqId := id, heartbeat := hb.(extra := p.heartbeat.extra + hb.extra))
  }

  // ---------- bodies ----------

  lemma RequestTaken<Q, R>(schema: Schema<Q, R>, body: seq<byte>, service: seq<byte>, afterService: seq<byte>,
                           name: seq<byte>, afterName: seq<byte>, payload: seq<byte>, q: Q, p: Packet<Q, R>)
    requires TakeString(body) == Some((service, afterService)) && TakeString(afterService) == Some((name, afterName))
    requires TakeBlock(afterName) == Some((payload, [])) && schema.parseRequest(payload) == Parsed(true, q)
    ensures DecodeRequestBody(schema, body, p)
         == Decoded(true, p.(serviceName := service, methodName := name, request := q))
  {
  }

  /** The three parts of a request body are taken off it one after the other. */
  lemma RequestTakes(service: seq<byte>, name: seq<byte>, payload: seq<byte>)
    requires |service| <= MAX_STRING && |name| <= MAX_STRING && |payload| < 0x1_0000_0000
    ensures TakeString(Str(service) + (Str(name) + Block(payload))) == Some((service, Str(name) + Block(payload)))
    ensures TakeString(Str(name) + Block(payload)) == Some((name, Block(payload)))
    ensures TakeBlock(Block(payload)) == Some((payload, []))
  {
    TakeStringBack(service, Str(name) + Block(payload));
    TakeStringBack(name, Block(payload));
    assert Block(payload) + [] == Block(payload);
    TakeBlockBack(payload, []);
  }

  lemma RequestLayout<Q, R>(schema: Schema<Q, R>, q: Q, service: seq<byte>, name: seq<byte>, payload: seq<byte>)
    requires |service| <= MAX_STRING && |name| <= MAX_STRING && schema.serializeRequest(q) == Some(payload)
    ensures EncodeRequestBody(schema, q, service, name) == Str(service) + (Str(name) + Block(payload))
  {
    Associate(Str(service), Str(name), Block(payload));
  }

  lemma RequestBodyBack<Q(!new), R(!new)>(schema: Schema<Q, R>, q: Q, service: seq<byte>, name: seq<byte>,
                                          p: Packet<Q, R>)
    requires Lawful(schema)
    requires |service| <= MAX_STRING && |name| <= MAX_STRING && schema.serializeRequest(q).Some?
    requires |EncodeRequestBody(schema, q, service, name)| <= MAX_BODY_LEN
    ensures DecodeRequestBody(schema, EncodeRequestBody(schema, q, service, name), p)
         == Decoded(true, p.(serviceName := service, methodName := name, request := q))
  {
    var payload := schema.serializeRequest(q).value;
    RequestLayout(schema, q, service, name, payload);
    RequestTakes(service, name, payload);
    RequestTaken(schema, Str(service) + (Str(name) + Block(payload)), service, Str(name) + Block(payload), name,
                 Block(payload), payload, q, p);
  }

  lemma StatusBack(s: Status)
    ensures StatusOf(StatusByte(s)) == s
  {
  }

  lemma ResponseBodyBack<Q(!new), R(!new)>(schema: Schema<Q, R>, r: R, status: Status, p: Packet<Q, R>)
    requires Lawful(schema)
    requires schema.serializeResponse(r).Some?
    requires |EncodeResponseBody(schema, r, status)| <= MAX_BODY_LEN
    ensures DecodeResponseBody(schema, EncodeResponseBody(schema, r, status), p)
         == Decoded(true, p.(response := r, networkStatus := status))
  {
    var payload := schema.serializeResponse(r).value;
    var body := EncodeResponseBody(schema, r, status);
    assert body[1..] == Block(payload) + [];
    TakeBlockBack(payload, []);
    StatusBack(status);
  }

  ghost predicate ShortFields(fields: seq<Field>) {
    forall i :: 0 <= i < |fields| ==> |fields[i].0| <= MAX_STRING && |fields[i].1| <= MAX_STRING
  }

  /** The map after the fields have been stored in it one after the other. */
  function Insert(acc: map<seq<byte>, seq<byte>>, fields: seq<Field>): map<seq<byte>, seq<byte>>
    decreases |fields|
  {
    if fields == [] then acc else Insert(acc[fields[0].0 := fields[0].1], fields[1..])
  }

  lemma {:induction false} ExtrasEncode(fields: seq<Field>)
    requires ShortFields(fields)
    ensures Extras(fields).Some? && |Extras(fields).value| >= 4 * |fields|
    decreases |fields|
  {
    if fields != [] {
      ExtrasEncode(fields[1..]);
    }
  }

  lemma TakeExtra(key: seq<byte>, value: seq<byte>, tail: seq<byte>, count: nat, acc: map<seq<byte>, seq<byte>>)
    requires |key| <= MAX_STRING && |value| <= MAX_STRING && count > 0
    ensures TakeExtras(Str(key) + Str(value) + tail, count, acc) == TakeExtras(tail, count - 1, acc[key := value])
  {
    Associate(Str(key), Str(value), tail);
    TakeStringBack(key, Str(value) + tail);
    TakeStringBack(value, tail);
  }

  lemma TakeFirst(fields: seq<Field>, count: nat, acc: map<seq<byte>, seq<byte>>)
    requires ShortFields(fields) && fields != [] && count > 0
    ensures Extras(fields).Some? && Extras(fields[1..]).Some?
    ensures TakeExtras(Extras(fields).value, count, acc)
         == TakeExtras(Extras(fields[1..]).value, count - 1, acc[fields[0].0 := fields[0].1])
  {
    ExtrasEncode(fields);
    ExtrasEncode(fields[1..]);
    TakeExtra(fields[0].0, fields[0].1, Extras(fields[1..]).value, count, acc);
  }

  lemma InsertFirst(fields: seq<Field>, n: nat, acc: map<seq<byte>, seq<byte>>)
    requires 0 < n <= |fields|
    ensures fields[1..][n - 1..] == fields[n..]
    ensures Insert(acc, fields[..n]) == Insert(acc[fields[0].0 := fields[0].1], fields[1..][..n - 1])
  {
    assert fields[..n][1..] == fields[1..][..n - 1];
  }

  /** Reading the first n of the encoded extra fields. */
  lemma {:induction false} TakeExtrasBack(fields: seq<Field>, n: nat, acc: map<seq<byte>, seq<byte>>)
    requires ShortFields(fields) && n <= |fields|
    ensures Extras(fields).Some? && Extras(fields[n..]).Some?
    ensures TakeExtras(Extras(fields).value, n, acc)
         == TakenExtras(true, Extras(fields[n..]).value, Insert(acc, fields[..n]))
    decreases n
  {
    if n == 0 {
      ExtrasEncode(fields);
      assert fields[0..] == fields;
    } else {
      TakeFirst(fields, n, acc);
      InsertFirst(fields, n, acc);
      TakeExtrasBack(fields[1..], n - 1, acc[fields[0].0 := fields[0].1]);
    }
  }

  lemma EnumeratesRest(fields: seq<Field>, extra: map<seq<byte>, seq<byte>>)
    requires Enumerates(fields, extra) && fields != []
    ensures Enumerates(fields[1..], extra - {fields[0].0})
  {
    var rest, less := fields[1..], extra - {fields[0].0};
    forall k | k in less ensures (k, less[k]) in rest {
      assert (k, extra[k]) in fields;
    }
  }

  lemma AddOneByOne<K, V>(acc: map<K, V>, extra: map<K, V>, key: K)
    requires key in extra
    ensures acc[key := extra[key]] + (extra - {key}) == acc + extra
    ensures |extra| == |extra - {key}| + 1
  {
    assert extra.Keys == (extra - {key}).Keys + {key};
  }

  lemma EnumeratesNothing(extra: map<seq<byte>, seq<byte>>)
    requires Enumerates([], extra)
    ensures extra == map[]
  {
  }

  lemma InsertHead(acc: map<seq<byte>, seq<byte>>, fields: seq<Field>, extra: map<seq<byte>, seq<byte>>)
    requires Enumerates(fields, extra) && fields != []
    ensures fields[0].0 in extra
    ensures Insert(acc, fields) == Insert(acc[fields[0].0 := extra[fields[0].0]], fields[1..])
  {
  }

  /** Storing all entries of a map adds the map, whatever the order of iteration. */
  lemma {:induction false} InsertAll(acc: map<seq<byte>, seq<byte>>, fields: seq<Field>,
                                     extra: map<seq<byte>, seq<byte>>)
    requires Enumerates(fields, extra)
    ensures Insert(acc, fields) == acc + extra && |fields| == |extra|
    decreases |fields|
  {
    if fields == [] {
      EnumeratesNothing(extra);
      assert acc + map[] == acc;
    } else {
      var key := fields[0].0;
      EnumeratesRest(fields, extra);
      InsertHead(acc, fields, extra);
      InsertAll(acc[key := extra[key]], fields[1..], extra - {key});
      AddOneByOne(acc, extra, key);
    }
  }

  lemma TimestampBack(t: int)
    requires -(TWO_64 as int / 2) <= t < TWO_64 / 2
    ensures Signed64(t % TWO_64) == t
  {
  }

  lemma HeartbeatParts(hb: Heartbeat, fields: seq<Field>)
    requires ShortFields(fields) && |hb.serviceName| <= MAX_STRING && |hb.nodeId| <= MAX_STRING
    ensures Extras(fields).Some?
    ensures EncodeHeartbeatBody(hb, fields)
         == Str(hb.serviceName) + (Str(hb.nodeId) + HeartbeatTail(hb, Extras(fields).value))
  {
    ExtrasEncode(fields);
    HeartbeatJoin(Str(hb.serviceName), Str(hb.nodeId), BigEndian(hb.timestamp % TWO_64, U64),
                  BigEndian(|hb.extra|, U16), Extras(fields).value);
  }

  function HeartbeatTail(hb: Heartbeat, extras: seq<byte>): seq<byte> {
    BigEndian(hb.timestamp % TWO_64, U64) + BigEndian(|hb.extra|, U16) + extras
  }

  lemma HeartbeatJoin(a: seq<byte>, b: seq<byte>, c: seq<byte>, d: seq<byte>, e: seq<byte>)
    ensures [] + a + b + c + d + e == a + (b + (c + d + e))
  {
  }

  lemma HeartbeatTailBack(hb: Heartbeat, extras: seq<byte>)
    requires -(TWO_64 as int / 2) <= hb.timestamp < TWO_64 / 2
    ensures var rest := HeartbeatTail(hb, extras);
            && Signed64(FromBigEndian(rest[..8])) == hb.timestamp
            && FromBigEndian(rest[8..10]) == |hb.extra| % 0x1_0000
            && rest[10..] == extras
  {
    var rest := HeartbeatTail(hb, extras);
    Limits();
    assert rest[..8] == BigEndian(hb.timestamp % TWO_64, U64);
    ReadsBack(hb.timestamp % TWO_64, U64);
    TimestampBack(hb.timestamp);
    assert rest[8..10] == BigEndian(|hb.extra|, U16);
    CounterBack(|hb.extra|);
  }

  lemma HeartbeatExtrasBack(fields: seq<Field>, extra: map<seq<byte>, seq<byte>>, acc: map<seq<byte>, seq<byte>>,
                            count: nat)
    requires Enumerates(fields, extra) && ShortFields(fields) && count <= |extra|
    ensures Extras(fields).Some?
    ensures var taken := TakeExtras(Extras(fields).value, count, acc);
            && taken.ok && (taken.rest == [] <==> count == |extra|)
            && (count == |extra| ==> taken.extra == acc + extra)
  {
    InsertAll(acc, fields, extra);
    TakeExtrasBack(fields, count, acc);
    ExtrasEncode(fields[count..]);
    assert fields[..|fields|] == fields;
  }

  lemma HeartbeatNamesBack<Q, R>(service: seq<byte>, node: seq<byte>, rest: seq<byte>, p: Packet<Q, R>)
    requires |service| <= MAX_STRING && |node| <= MAX_STRING
    ensures DecodeHeartbeatBody(Str(service) + (Str(node) + rest), p) == DecodeHeartbeatTail(service, node, rest, p)
  {
    TakeStringBack(service, Str(node) + rest);
    TakeStringBack(node, rest);
  }

  lemma HeartbeatFieldsBack<Q, R>(hb: Heartbeat, fields: seq<Field>, p: Packet<Q, R>, count: nat, rest: seq<byte>)
    requires Enumerates(fields, hb.extra) && ShortFields(fields)
    requires |rest| >= 10 && Extras(fields) == Some(rest[10..])
    requires FromBigEndian(rest[8..10]) == count <= |hb.extra|
    requires Signed64(FromBigEndian(rest[..8])) == hb.timestamp
    ensures var d := DecodeHeartbeatTail(hb.serviceName, hb.nodeId, rest, p);
            && (d.ok <==> count == |hb.extra|)
            && (d.ok ==> d.packet == p.(heartbeat := hb.(extra := p.heartbeat.extra + hb.extra)))
  {
    HeartbeatExtrasBack(fields, hb.extra, p.heartbeat.extra, count);
  }

  lemma WrappedCount(n: nat)
    ensures n % 0x1_0000 <= n && (n % 0x1_0000 == n <==> n <= MAX_STRING)
  {
  }

  lemma HeartbeatTailLayout(hb: Heartbeat, fields: seq<Field>) returns (rest: seq<byte>, count: nat)
    requires ShortFields(fields) && |hb.serviceName| <= MAX_STRING && |hb.nodeId| <= MAX_STRING
    requires -(TWO_64 as int / 2) <= hb.timestamp < TWO_64 / 2
    ensures EncodeHeartbeatBody(hb, fields) == Str(hb.serviceName) + (Str(hb.nodeId) + rest)
    ensures |rest| >= 10 && Extras(fields) == Some(rest[10..])
    ensures FromBigEndian(rest[8..10]) == count <= |hb.extra|
    ensures count == |hb.extra| <==> |hb.extra| <= MAX_STRING
    ensures Signed64(FromBigEndian(rest[..8])) == hb.timestamp
  {
    HeartbeatParts(hb, fields);
    rest, count := HeartbeatTail(hb, Extras(fields).value), |hb.extra| % 0x1_0000;
    WrappedCount(|hb.extra|);
    HeartbeatTailBack(hb, Extras(fields).value);
  }

  /** A heartbeat body is read back exactly when its field count fits the two-byte counter. */
  lemma HeartbeatBodyBack<Q, R>(hb: Heartbeat, fields: seq<Field>, p: Packet<Q, R>)
    requires Enumerates(fields, hb.extra) && ShortFields(fields)
    requires |hb.serviceName| <= MAX_STRING && |hb.nodeId| <= MAX_STRING
    requires -(TWO_64 as int / 2) <= hb.timestamp < TWO_64 / 2
    ensures var d := DecodeHeartbeatBody(EncodeHeartbeatBody(hb, fields), p);
            && (d.ok <==> |hb.extra| <= MAX_STRING)
            && (d.ok ==> d.packet == p.(heartbeat := hb.(extra := p.heartbeat.extra + hb.extra)))
  {
    var rest, count := HeartbeatTailLayout(hb, fields);
    HeartbeatNamesBack(hb.serviceName, hb.nodeId, rest, p);
    HeartbeatFieldsBack(hb, fields, p, count, rest);
  }

  /** The field counter wraps at 65536. */
  lemma CounterBack(n: nat)
    ensures FromBigEndian(BigEndian(n, U16)) == n % 0x1_0000
  {
    Limits();
    var q := ReadsLow(n, U16);
    Remainder(n, q, 0x1_0000, FromBigEndian(BigEndian(n, U16)));
  }

  // ---------- frames ----------

  lemma HeaderParts(magic: seq<byte>, version: byte, msgType: byte, bodyLen: seq<byte>, reqId: seq<byte>,
                    rest: seq<byte>)
    requires |magic| == 4 && |bodyLen| == 4 && |reqId| == 8
    ensures var data := magic + [version] + [msgType] + bodyLen + reqId + rest;
            && data[0..4] == magic && data[4] == version && data[5] == msgType
            && data[6..10] == bodyLen && data[10..18] == reqId
  {
  }

  /** A length of 2^32 or more is cut to its low 32 bits. */
  lemma LengthBack(n: nat)
    ensures FromBigEndian(BigEndian(n, U32)) == n % 0x1_0000_0000
  {
    Limits();
    var q := ReadsLow(n, U32);
    Remainder(n, q, 0x1_0000_0000, FromBigEndian(BigEndian(n, U32)));
  }

  /** The fields of a header that is followed by anything. */
  lemma HeaderWraps(msgType: byte, reqId: nat, bodyLen: nat, rest: seq<byte>)
    requires reqId < TWO_64
    ensures var data := Header(msgType, reqId, bodyLen) + rest;
            && MagicAt(data, 0) && data[4] == VERSION && data[5] == msgType
            && BodyLen(data) == bodyLen % 0x1_0000_0000 && FromBigEndian(data[10..18]) == reqId
  {
    Limits();
    HeaderParts(BigEndian(MAGIC, U32), VERSION, msgType, BigEndian(bodyLen, U32), BigEndian(reqId, U64), rest);
    ReadsBack(MAGIC, U32);
    LengthBack(bodyLen);
    ReadsBack(reqId, U64);
  }

  lemma HeaderBack(msgType: byte, reqId: nat, bodyLen: nat, rest: seq<byte>)
    requires reqId < TWO_64 && bodyLen < 0x1_0000_0000
    ensures var data := Header(msgType, reqId, bodyLen) + rest;
            && MagicAt(data, 0) && data[4] == VERSION && data[5] == msgType
            && BodyLen(data) == bodyLen && FromBigEndian(data[10..18]) == reqId
  {
    HeaderWraps(msgType, reqId, bodyLen, rest);
    Small(bodyLen);
  }

  lemma Small(n: nat)
    requires n < 0x1_0000_0000
    ensures n % 0x1_0000_0000 == n
  {
  }

  lemma PackedChecksum(msgType: byte, reqId: nat, body: seq<byte>, rest: seq<byte>)
    ensures ChecksumOk(Pack(msgType, reqId, body) + rest, |body|)
  {
    var front := Header(msgType, reqId, |body|) + body;
    var data := Pack(msgType, reqId, body) + rest;
    assert data[..HEADER_SIZE + |body|] == front;
    assert data[HEADER_SIZE + |body|..HEADER_SIZE + |body| + CHECKSUM_SIZE] == Crc32.ToBytes(Crc32.Crc(front));
    Crc32.ChecksumReadsBack(Crc32.Crc(front));
  }

  lemma FrameLayout(header: seq<byte>, body: seq<byte>, sum: seq<byte>, rest: seq<byte>)
    requires |header| == HEADER_SIZE && |sum| == CHECKSUM_SIZE
    ensures var data := header + body + sum + rest;
            && data == header + (body + sum + rest)
            && data[HEADER_SIZE..HEADER_SIZE + |body|] == body
            && data[HEADER_SIZE + |body| + CHECKSUM_SIZE..] == rest
  {
  }

  lemma PackedParts(msgType: byte, reqId: nat, body: seq<byte>, rest: seq<byte>)
    requires reqId < TWO_64 && |body| < 0x1_0000_0000
    ensures var data := Pack(msgType, reqId, body) + rest;
            && MagicAt(data, 0) && data[4] == VERSION && data[5] == msgType
            && BodyLen(data) == |body| && FromBigEndian(data[10..18]) == reqId
            && data[HEADER_SIZE..HEADER_SIZE + |body|] == body
            && data[HEADER_SIZE + |body| + CHECKSUM_SIZE..] == rest
  {
    var header := Header(msgType, reqId, |body|);
    var sum := Crc32.ToBytes(Crc32.Crc(header + body));
    FrameLayout(header, body, sum, rest);
    HeaderBack(msgType, reqId, |body|, body + sum + rest);
  }

  lemma InspectPacked(msgType: byte, reqId: nat, body: seq<byte>, rest: seq<byte>)
    requires reqId < TWO_64 && HEADER_SIZE + |body| + CHECKSUM_SIZE + |rest| <= MAX_BUFFER_SIZE
    ensures Inspect(Pack(msgType, reqId, body) + rest) == Frame(|body|)
  {
    PackedParts(msgType, reqId, body, rest);
  }

  /** With a complete frame in front, decode is the check of the frame, the body decoder and the removal of it. */
  lemma DecodeChecked<Q, R>(schema: Schema<Q, R>, data: seq<byte>, msgType: byte, reqId: nat, body: seq<byte>,
                            rest: seq<byte>, p: Packet<Q, R>)
    requires Inspect(data) == Frame(|body|) && |data| >= HEADER_SIZE + |body| + CHECKSUM_SIZE
    requires ChecksumOk(data, |body|)
    requires data[5] == msgType && FromBigEndian(data[10..18]) == reqId
    requires data[HEADER_SIZE..HEADER_SIZE + |body|] == body
    requires data[HEADER_SIZE + |body| + CHECKSUM_SIZE..] == rest
    ensures var d := DecodeBody(schema, msgType, body, p);
            Decode(schema, data, p) == Step(d.ok, rest, if d.ok then d.packet.(reqId := reqId) else d.packet)
  {
  }

  /** A whole frame at the front of the buffer is checked, taken off and handed to the body decoder. */
  lemma DecodePacked<Q(!new), R(!new)>(schema: Schema<Q, R>, msgType: byte, reqId: nat, body: seq<byte>,
                                       rest: seq<byte>, p: Packet<Q, R>)
    requires reqId < TWO_64
    requires HEADER_SIZE + |body| + CHECKSUM_SIZE + |rest| <= MAX_BUFFER_SIZE
    ensures var d := DecodeBody(schema, msgType, body, p);
            Decode(schema, Pack(msgType, reqId, body) + rest, p)
            == Step(d.ok, rest, if d.ok then d.packet.(reqId := reqId) else d.packet)
  {
    InspectPacked(msgType, reqId, body, rest);
    PackedParts(msgType, reqId, body, rest);
    PackedChecksum(msgType, reqId, body, rest);
    DecodeChecked(schema, Pack(msgType, reqId, body) + rest, msgType, reqId, body, rest, p);
  }

  lemma SendableBody<Q, R>(schema: Schema<Q, R>, m: Message<Q, R>)
    requires Encodable(schema, m)
    ensures Body(schema, m) != []
    ensures Encode(schema, m) == Pack(TypeByte(TypeOf(m)), m.id, Body(schema, m))
  {
    if m.HeartbeatMsg? {
      ExtrasEncode(m.fields);
    }
  }

  lemma DecodeBodyBack<Q(!new), R(!new)>(schema: Schema<Q, R>, m: Message<Q, R>, p: Packet<Q, R>)
    requires Lawful(schema) && Encodable(schema, m) && |Body(schema, m)| <= MAX_BODY_LEN
    ensures var d := DecodeBody(schema, TypeByte(TypeOf(m)), Body(schema, m), p);
            && (d.ok <==> (m.HeartbeatMsg? ==> |m.beat.extra| <= MAX_STRING))
            && (d.ok ==> d.packet.(reqId := m.id) == Absorb(p, m))
  {
    match m
    case RequestMsg(_, service, name, q) => RequestBodyBack(schema, q, service, name, p);
    case ResponseMsg(_, status, r) => ResponseBodyBack(schema, r, status, p);
    case HeartbeatMsg(_, hb, fields) => HeartbeatBodyBack(hb, fields, p);
  }

  lemma OversizedDropped<Q, R>(schema: Schema<Q, R>, data: seq<byte>, p: Packet<Q, R>)
    requires |data| > MAX_BUFFER_SIZE
    ensures Decode(schema, data, p) == Step(false, [], p)
  {
  }

  lemma FrameLength<Q, R>(schema: Schema<Q, R>, m: Message<Q, R>)
    requires Encodable(schema, m)
    ensures |Encode(schema, m)| == HEADER_SIZE + |Body(schema, m)| + CHECKSUM_SIZE
  {
    SendableBody(schema, m);
  }

  lemma DecodeFitting<Q(!new), R(!new)>(schema: Schema<Q, R>, m: Message<Q, R>, rest: seq<byte>, p: Packet<Q, R>)
    requires Lawful(schema) && Encodable(schema, m)
    requires HEADER_SIZE + |Body(schema, m)| + CHECKSUM_SIZE + |rest| <= MAX_BUFFER_SIZE
    ensures var s := Decode(schema, Encode(schema, m) + rest, p);
            && (s.ok <==> Sendable(schema, m))
            && (s.ok ==> s.packet == Absorb(p, m)) && s.rest == rest
  {
    FrameLength(schema, m);
    SendableBody(schema, m);
    DecodeBodyBack(schema, m, p);
    DecodePacked(schema, TypeByte(TypeOf(m)), m.id, Body(schema, m), rest, p);
  }

  /** An encoded message at the front of the buffer is delivered exactly when it is sendable and the
      buffer as a whole is within its limit; it is then taken off and fills the record. */
  lemma DecodeEncoded<Q(!new), R(!new)>(schema: Schema<Q, R>, m: Message<Q, R>, rest: seq<byte>, p: Packet<Q, R>)
    requires Lawful(schema) && Encodable(schema, m)
    ensures var frame := Encode(schema, m);
            var s := Decode(schema, frame + rest, p);
            && (s.ok <==> |frame| + |rest| <= MAX_BUFFER_SIZE && Sendable(schema, m))
            && (s.ok ==> s == Step(true, rest, Absorb(p, m)))
  {
    FrameLength(schema, m);
    if |Encode(schema, m)| + |rest| <= MAX_BUFFER_SIZE {
      DecodeFitting(schema, m, rest, p);
    } else {
      OversizedDropped(schema, Encode(schema, m) + rest, p);
    }
  }

  // ---------- messages that are lost ----------

  /** Requests and responses that are their own serialisation. */
  const Plain: Schema<seq<byte>, seq<byte>> :=
    Schema(q => Some(q), s => Parsed(true, s), r => Some(r), s => Parsed(true, s))

  /** Fields with distinct four-byte keys and empty values. */
  function Numbered(n: nat): (fields: seq<Field>)
    ensures |fields| == n
    ensures forall i :: 0 <= i < n ==> fields[i] == (BigEndian(i, U32), [])
  {
    seq(n, i requires 0 <= i < n => (BigEndian(i, U32), []))
  }

  lemma NumberedDistinct(n: nat, i: nat, j: nat)
    requires i < j < n <= 0x1_0000_0000
    ensures Numbered(n)[i].0 != Numbered(n)[j].0
  {
    Limits();
    ReadsBack(i, U32);
    ReadsBack(j, U32);
  }

  /** The map that the numbered fields make up. */
  function NumberedMap(n: nat): map<seq<byte>, seq<byte>> {
    map i | 0 <= i < n :: BigEndian(i, U32) := []
  }

  lemma NumberedEnumerate(n: nat)
    requires n <= 0x1_0000_0000
    ensures Enumerates(Numbered(n), NumberedMap(n))
  {
    var fields, extra := Numbered(n), NumberedMap(n);
    forall i, j | 0 <= i < j < n ensures fields[i].0 != fields[j].0 {
      NumberedDistinct(n, i, j);
    }
    forall k | k in extra ensures (k, extra[k]) in fields {
      var i :| 0 <= i < n && BigEndian(i, U32) == k;
      assert fields[i] == (k, extra[k]);
    }
  }

  lemma NumberedSize(n: nat)
    requires n <= 0x1_0000_0000
    ensures |NumberedMap(n)| == n
  {
    NumberedEnumerate(n);
    InsertAll(map[], Numbered(n), NumberedMap(n));
  }

  lemma NumberedEncodable<Q, R>(schema: Schema<Q, R>, n: nat, m: Message<Q, R>)
    requires n <= 0x1_0000_0000 && m == HeartbeatMsg(1, Heartbeat([], [], 0, NumberedMap(n)), Numbered(n))
    ensures Encodable(schema, m)
  {
    NumberedEnumerate(n);
  }

  /** A heartbeat with one field too many encodes, and its frame is thrown away. */
  lemma OneFieldTooMany<Q(!new), R(!new)>(schema: Schema<Q, R>, n: nat, p: Packet<Q, R>)
    requires Lawful(schema) && n == MAX_STRING + 1
    ensures var m := HeartbeatMsg(1, Heartbeat([], [], 0, NumberedMap(n)), Numbered(n));
            |m.beat.extra| == n && Encode(schema, m) != [] && !Decode(schema, Encode(schema, m), p).ok
  {
    var m: Message<Q, R> := HeartbeatMsg(1, Heartbeat([], [], 0, NumberedMap(n)), Numbered(n));
    NumberedSize(n);
    NumberedEncodable(schema, n, m);
    FrameLength(schema, m);
    Refused(schema, m, p);
  }

  lemma Refused<Q(!new), R(!new)>(schema: Schema<Q, R>, m: Message<Q, R>, p: Packet<Q, R>)
    requires Lawful(schema) && Encodable(schema, m) && !Sendable(schema, m)
    ensures !Decode(schema, Encode(schema, m), p).ok
  {
    DecodeEncoded(schema, m, [], p);
    assert Encode(schema, m) + [] == Encode(schema, m);
  }
}
