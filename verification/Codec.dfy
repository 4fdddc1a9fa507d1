/** The wire codec: frames of a fixed header, a body and a checksum; the printers of the three
    body kinds; and the decoder that takes one frame at a time off the front of a byte stream. */
module Codec {
  import opened Bytes
  import opened ByteBuffer
  import Crc32

  const MAGIC: nat := 0x52504346
  const VERSION: byte := 1
  const HEADER_SIZE: nat := 18
  const CHECKSUM_SIZE: nat := 4
  const MAX_BODY_LEN: nat := 10 * 1024 * 1024
  const MAX_SCAN_BYTES: nat := 1024
  const MAX_BUFFER_SIZE: nat := 10 * 1024 * 1024
  const MAX_STRING: nat := 65535
  const TWO_64: nat := 0x1_0000_0000_0000_0000

  datatype MsgType = REQUEST | RESPONSE | HEARTBEAT

  datatype Status = SUCCESS | FAILED | TIMEOUT

  datatype Heartbeat = Heartbeat(
    serviceName: seq<byte>, nodeId: seq<byte>, timestamp: int, extra: map<seq<byte>, seq<byte>>)

  /** The outcome of ParseFromString: on failure the message holds whatever was parsed so far. */
  datatype Parsed<+T> = Parsed(ok: bool, value: T)

  /** The generated protobuf code for requests (Q) and responses (R), kept abstract. */
  datatype Schema<!Q, !R> = Schema(
    serializeRequest: Q -> Option<seq<byte>>,
    parseRequest: seq<byte> -> Parsed<Q>,
    serializeResponse: R -> Option<seq<byte>>,
    parseResponse: seq<byte> -> Parsed<R>)

  /** Protobuf's own promise: what it serializes, it parses back. */
  ghost predicate Lawful<Q(!new), R(!new)>(schema: Schema<Q, R>) {
    && (forall q :: schema.serializeRequest(q).Some? ==>
          schema.parseRequest(schema.serializeRequest(q).value) == Parsed(true, q))
    && (forall r :: schema.serializeResponse(r).Some? ==>
          schema.parseResponse(schema.serializeResponse(r).value) == Parsed(true, r))
  }

  /** DecodedPacket: one record that successive decode calls overwrite field by field. */
  datatype Packet<Q, R> = Packet(
    msgType: MsgType, reqId: nat, request: Q, response: R, heartbeat: Heartbeat,
    serviceName: seq<byte>, methodName: seq<byte>, networkStatus: Status)

  // ---------- encoding ----------

  function TypeByte(t: MsgType): byte {
    match t case REQUEST => 0 case RESPONSE => 1 case HEARTBEAT => 2
  }

  function StatusByte(s: Status): byte {
    match s case SUCCESS => 0 case FAILED => 1 case TIMEOUT => 2
  }

  /** A string behind its two-byte length. */
  function Str(s: seq<byte>): seq<byte> {
    BigEndian(|s|, U16) + s
  }

  /** A payload behind its four-byte length. */
  function Block(s: seq<byte>): seq<byte> {
    BigEndian(|s|, U32) + s
  }

  /** appendString: strings longer than 65535 bytes are refused. */
  function AppendString(out: seq<byte>, s: seq<byte>): Option<seq<byte>> {
    if |s| > MAX_STRING then None else Some(out + Str(s))
  }

  /** The empty body stands for failure, as in the source. */
  function EncodeRequestBody<Q, R>(schema: Schema<Q, R>, q: Q, service: seq<byte>, name: seq<byte>): seq<byte> {
    match AppendString([], service)
    case None => []
    case Some(body) =>
      match AppendString(body, name)
      case None => []
      case Some(body) =>
        match schema.serializeRequest(q)
        case None => []
        case Some(payload) => body + Block(payload)
  }

  function EncodeResponseBody<Q, R>(schema: Schema<Q, R>, r: R, status: Status): seq<byte> {
    match schema.serializeResponse(r)
    case None => []
    case Some(payload) => [StatusByte(status)] + Block(payload)
  }

  type Field = (seq<byte>, seq<byte>)

  /** The extra fields in the order in which the map is iterated. */
  function Extras(fields: seq<Field>): Option<seq<byte>> {
    if fields == [] then Some([])
    else if |fields[0].0| > MAX_STRING || |fields[0].1| > MAX_STRING then None
    else Prepend(Str(fields[0].0) + Str(fields[0].1), Extras(fields[1..]))
  }

  function Prepend(front: seq<byte>, rest: Option<seq<byte>>): Option<seq<byte>> {
    match rest case None => None case Some(s) => Some(front + s)
  }

  /** fields are the entries of the map, each of them once. */
  ghost predicate Enumerates(fields: seq<Field>, extra: map<seq<byte>, seq<byte>>) {
    && (forall i :: 0 <= i < |fields| ==> fields[i].0 in extra && extra[fields[i].0] == fields[i].1)
    && (forall i, j :: 0 <= i < j < |fields| ==> fields[i].0 != fields[j].0)
    && (forall k :: k in extra ==> (k, extra[k]) in fields)
  }

  /** fields is the iteration of hb's map. */
  function EncodeHeartbeatBody(hb: Heartbeat, fields: seq<Field>): seq<byte> {
    match AppendString([], hb.serviceName)
    case None => []
    case Some(body) =>
      match AppendString(body, hb.nodeId)
      case None => []
      case Some(body) =>
        match Extras(fields)
        case None => []
        case Some(extras) =>
          body + BigEndian(hb.timestamp % TWO_64, U64) + BigEndian(|hb.extra|, U16) + extras
  }

  function Header(msgType: byte, reqId: nat, bodyLen: nat): (s: seq<byte>)
    ensures |s| == HEADER_SIZE
  {
    BigEndian(MAGIC, U32) + [VERSION] + [msgType] + BigEndian(bodyLen, U32) + BigEndian(reqId, U64)
  }

  function Pack(msgType: byte, reqId: nat, body: seq<byte>): (s: seq<byte>)
    ensures |s| == HEADER_SIZE + |body| + CHECKSUM_SIZE
  {
    var packet := Header(msgType, reqId, |body|) + body;
    packet + Crc32.ToBytes(Crc32.Crc(packet))
  }

  /** A message to be sent. The heartbeat carries the iteration of its map. */
  datatype Message<Q, R> =
    | RequestMsg(id: nat, service: seq<byte>, name: seq<byte>, request: Q)
    | ResponseMsg(id: nat, status: Status, response: R)
    | HeartbeatMsg(id: nat, beat: Heartbeat, fields: seq<Field>)

  function TypeOf<Q, R>(m: Message<Q, R>): MsgType {
    match m
    case RequestMsg(_, _, _, _) => REQUEST
    case ResponseMsg(_, _, _) => RESPONSE
    case HeartbeatMsg(_, _, _) => HEARTBEAT
  }

  function Body<Q, R>(schema: Schema<Q, R>, m: Message<Q, R>): seq<byte> {
    match m
    case RequestMsg(_, service, name, q) => EncodeRequestBody(schema, q, service, name)
    case ResponseMsg(_, status, r) => EncodeResponseBody(schema, r, status)
    case HeartbeatMsg(_, hb, fields) => EncodeHeartbeatBody(hb, fields)
  }

  /** encodeRequest, encodeResponse and encodeHeartbeat: the empty string on failure. */
  function Encode<Q, R>(schema: Schema<Q, R>, m: Message<Q, R>): seq<byte> {
    var body := Body(schema, m);
    if body == [] then [] else Pack(TypeByte(TypeOf(m)), m.id, body)
  }

  /** The loop of encodeHeartbeatBody over the extra fields. */
  method EncodeExtras(fields: seq<Field>) returns (r: Option<seq<byte>>)
    ensures r == Extras(fields)
  {
    var body := [];
    assert fields[0..] == fields;
    PrependNothing(Extras(fields));
    for i := 0 to |fields|
      invariant Extras(fields) == Prepend(body, Extras(fields[i..]))
    {
      assert fields[i..][1..] == fields[i + 1..];
      var withKey := AppendString(body, fields[i].0);
      if withKey.None? { return None; }
      var withValue := AppendString(withKey.value, fields[i].1);
      if withValue.None? { return None; }
      ExtrasTurn(body, Str(fields[i].0), Str(fields[i].1), Extras(fields[i + 1..]));
      body := withValue.value;
    }
    assert body + [] == body;
    r := Some(body);
  }

  lemma ExtrasTurn(body: seq<byte>, key: seq<byte>, value: seq<byte>, rest: Option<seq<byte>>)
    ensures Prepend(body + key + value, rest) == Prepend(body, Prepend(key + value, rest))
  {
    if rest.Some? {
      assert body + key + value + rest.value == body + (key + value + rest.value);
    }
  }

  lemma PrependNothing(rest: Option<seq<byte>>)
    ensures Prepend([], rest) == rest
  {
    if rest.Some? {
      assert [] + rest.value == rest.value;
    }
  }

  // ---------- decoding ----------

  /** readString on the unread rest of a body: the string and what follows it. */
  function TakeString(s: seq<byte>): Option<(seq<byte>, seq<byte>)> {
    if |s| < 2 then None
    else
      var len := FromBigEndian(s[..2]);
      if 2 + len > |s| then None else Some((s[2..2 + len], s[2 + len..]))
  }

  function TakeBlock(s: seq<byte>): Option<(seq<byte>, seq<byte>)> {
    if |s| < 4 then None
    else
      var len := FromBigEndian(s[..4]);
      if 4 + len > |s| then None else Some((s[4..4 + len], s[4 + len..]))
  }

  datatype Decoded<Q, R> = Decoded(ok: bool, packet: Packet<Q, R>)

  function DecodeRequestBody<Q, R>(schema: Schema<Q, R>, body: seq<byte>, p: Packet<Q, R>): Decoded<Q, R> {
    match TakeString(body)
    case None => Decoded(false, p)
    case Some((service, rest)) =>
      var p1 := p.(serviceName := service);
      match TakeString(rest)
      case None => Decoded(false, p1)
      case Some((name, rest)) =>
        var p2 := p1.(methodName := name);
        match TakeBlock(rest)
        case None => Decoded(false, p2)
        case Some((payload, rest)) =>
          if rest != [] then Decoded(false, p2)
          else
            var parsed := schema.parseRequest(payload);
            Decoded(parsed.ok, p2.(request := parsed.value))
  }

  /** Status bytes beyond the last known one are read as FAILED. */
  function StatusOf(b: byte): Status {
    if b == 0 then SUCCESS else if b == 1 then FAILED else if b == 2 then TIMEOUT else FAILED
  }

  function DecodeResponseBody<Q, R>(schema: Schema<Q, R>, body: seq<byte>, p: Packet<Q, R>): Decoded<Q, R> {
    if |body| < 1 then Decoded(false, p)
    else
      match TakeBlock(body[1..])
      case None => Decoded(false, p)
      case Some((payload, rest)) =>
        if rest != [] then Decoded(false, p)
        else
          var parsed := schema.parseResponse(payload);
          var p1 := p.(response := parsed.value);
          if !parsed.ok then Decoded(false, p1)
          else Decoded(true, p1.(networkStatus := StatusOf(body[0])))
  }

  datatype TakenExtras = TakenExtras(ok: bool, rest: seq<byte>, extra: map<seq<byte>, seq<byte>>)

  /** The loop over the extra fields: each pair goes into the map as soon as it is read. */
  function TakeExtras(s: seq<byte>, count: nat, extra: map<seq<byte>, seq<byte>>): TakenExtras
    decreases count
  {
    if count == 0 then TakenExtras(true, s, extra)
    else
      match TakeString(s)
      case None => TakenExtras(false, s, extra)
      case Some((key, rest)) =>
        match TakeString(rest)
        case None => TakenExtras(false, rest, extra)
        case Some((value, rest)) => TakeExtras(rest, count - 1, extra[key := value])
  }

  /** The timestamp field read as a signed 64-bit number. */
  function Signed64(n: nat): int {
    if n < TWO_64 / 2 then n else n - TWO_64
  }

  function DecodeHeartbeatBody<Q, R>(body: seq<byte>, p: Packet<Q, R>): Decoded<Q, R> {
    match TakeString(body)
    case None => Decoded(false, p)
    case Some((service, rest)) =>
      match TakeString(rest)
      case None => Decoded(false, p)
      case Some((node, rest)) => DecodeHeartbeatTail(service, node, rest, p)
  }

  /** The timestamp and the counted extra fields, behind the two names. */
  function DecodeHeartbeatTail<Q, R>(service: seq<byte>, node: seq<byte>, rest: seq<byte>,
                                     p: Packet<Q, R>): Decoded<Q, R> {
    if |rest| < 10 then Decoded(false, p)
    else
      var taken := TakeExtras(rest[10..], FromBigEndian(rest[8..10]), p.heartbeat.extra);
      var p1 := p.(heartbeat := p.heartbeat.(extra := taken.extra));
      if !taken.ok || taken.rest != [] then Decoded(false, p1)
      else Decoded(true, p.(heartbeat :=
             Heartbeat(service, node, Signed64(FromBigEndian(rest[..8])), taken.extra)))
  }

  function DecodeBody<Q, R>(schema: Schema<Q, R>, msgType: byte, body: seq<byte>, p: Packet<Q, R>): Decoded<Q, R> {
    if msgType == 0 then
      var d := DecodeRequestBody(schema, body, p);
      d.(packet := d.packet.(msgType := REQUEST))
    else if msgType == 1 then
      var d := DecodeResponseBody(schema, body, p);
      d.(packet := d.packet.(msgType := RESPONSE))
    else if msgType == 2 then
      var d := DecodeHeartbeatBody(body, p);
      d.(packet := d.packet.(msgType := HEARTBEAT))
    else
      Decoded(false, p)
  }

  predicate MagicAt(data: seq<byte>, i: nat)
    requires i + 4 <= |data|
  {
    FromBigEndian(data[i..i + 4]) == MAGIC
  }

  function Min(a: nat, b: nat): nat { if a < b then a else b }

  /** How many bytes the resynchronisation drops: up to the first magic number found from position i
      within the scanned prefix, or everything. */
  function Resync(data: seq<byte>, i: nat): (n: nat)
    requires i <= |data|
    ensures i <= n <= |data|
    decreases |data| - i
  {
    if i + 4 > Min(|data|, MAX_SCAN_BYTES) then |data|
    else if MagicAt(data, i) then i
    else Resync(data, i + 1)
  }

  function BodyLen(data: seq<byte>): nat
    requires |data| >= HEADER_SIZE
  {
    FromBigEndian(data[6..10])
  }

  predicate ChecksumOk(data: seq<byte>, bodyLen: nat)
    requires |data| >= HEADER_SIZE + bodyLen + CHECKSUM_SIZE
  {
    Crc32.FromBytes(data[HEADER_SIZE + bodyLen..HEADER_SIZE + bodyLen + CHECKSUM_SIZE])
      == Crc32.Crc(data[..HEADER_SIZE + bodyLen])
  }

  /** One decode call: whether it delivered a packet, what it left readable, and the record. */
  datatype Step<Q, R> = Step(ok: bool, rest: seq<byte>, packet: Packet<Q, R>)

  /** What the front of the buffer calls for: waiting, dropping so many bytes, or decoding a complete frame with so
      many bytes of body. */
  datatype Front = Wait | Drop(n: nat) | Frame(bodyLen: nat)

  function Inspect(data: seq<byte>): (front: Front)
    ensures front.Drop? ==> 0 < front.n <= |data|
    ensures front.Frame? ==> HEADER_SIZE + front.bodyLen + CHECKSUM_SIZE <= |data|
  {
    if |data| < HEADER_SIZE then Wait
    else if |data| > MAX_BUFFER_SIZE then Drop(|data|)
    else if !MagicAt(data, 0) then Drop(Resync(data, 1))
    else if data[4] != VERSION then Drop(|data|)
    else if BodyLen(data) > MAX_BODY_LEN then Drop(|data|)
    else if |data| < HEADER_SIZE + BodyLen(data) + CHECKSUM_SIZE then Wait
    else Frame(BodyLen(data))
  }

  function Decode<Q, R>(schema: Schema<Q, R>, data: seq<byte>, p: Packet<Q, R>): Step<Q, R> {
    match Inspect(data)
    case Wait => Step(false, data, p)
    case Drop(n) => Step(false, data[n..], p)
    case Frame(bodyLen) =>
      var d := DecodeFrame(schema, data, bodyLen, p);
      Step(d.ok, data[HEADER_SIZE + bodyLen + CHECKSUM_SIZE..], d.packet)
  }

  /** A complete frame at the front of data. */
  function DecodeFrame<Q, R>(schema: Schema<Q, R>, data: seq<byte>, bodyLen: nat, p: Packet<Q, R>): Decoded<Q, R>
    requires |data| >= HEADER_SIZE + bodyLen + CHECKSUM_SIZE
  {
    if !ChecksumOk(data, bodyLen) then Decoded(false, p)
    else
      var d := DecodeBody(schema, data[5], data[HEADER_SIZE..HEADER_SIZE + bodyLen], p);
      if d.ok then d.(packet := d.packet.(reqId := FromBigEndian(data[10..18]))) else d
  }

  /** readString as written: it reads at pos in data and moves pos. */
  method ReadString(data: seq<byte>, pos: nat) returns (ok: bool, pos': nat, out: seq<byte>)
    requires pos <= |data|
    ensures pos <= pos' <= |data|
    ensures ok == TakeString(data[pos..]).Some?
    ensures ok ==> TakeString(data[pos..]).value == (out, data[pos'..])
  {
    ok, pos', out := false, pos, [];
    if pos + 2 > |data| { return; }
    assert data[pos..][..2] == data[pos..pos + 2];
    var len := FromBigEndian(data[pos..pos + 2]);
    pos' := pos + 2;
    if pos' + len > |data| { return; }
    out := data[pos'..pos' + len];
    assert data[pos..][2..2 + len] == out && data[pos..][2 + len..] == data[pos' + len..];
    pos' := pos' + len;
    ok := true;
  }

  /** The extra-field loop of decodeHeartbeatBody. */
  method ReadExtras(data: seq<byte>, pos: nat, count: nat, extra: map<seq<byte>, seq<byte>>)
    returns (ok: bool, pos': nat, extra': map<seq<byte>, seq<byte>>)
    requires pos <= |data|
    ensures pos' <= |data|
    ensures var t := TakeExtras(data[pos..], count, extra);
            ok == t.ok && extra' == t.extra && (ok ==> data[pos'..] == t.rest)
  {
    ok, pos', extra' := true, pos, extra;
    for i := 0 to count
      invariant ok && pos' <= |data|
      invariant TakeExtras(data[pos'..], count - i, extra') == TakeExtras(data[pos..], count, extra)
    {
      var key, value;
      ok, pos', key := ReadString(data, pos');
      if !ok { return; }
      ok, pos', value := ReadString(data, pos');
      if !ok { return; }
      extra' := extra'[key := value];
    }
  }

  /** The scan for the next magic number. */
  method ScanForMagic(data: seq<byte>) returns (n: nat)
    requires |data| >= 1
    ensures n == Resync(data, 1)
  {
    var scanLimit := Min(|data|, MAX_SCAN_BYTES);
    var i := 1;
    while i + 4 <= scanLimit
      invariant 1 <= i <= |data|
      invariant Resync(data, i) == Resync(data, 1)
    {
      if MagicAt(data, i) { return i; }
      i := i + 1;
    }
    n := |data|;
  }

  /** Codec::decode on a live buffer does what Decode does on its contents. */
  method DecodeBuffer<Q, R>(schema: Schema<Q, R>, buf: Buffer, p: Packet<Q, R>) returns (ok: bool, p': Packet<Q, R>)
    requires buf.Valid()
    modifies buf
    ensures buf.Valid() && buf.store == old(buf.store)
    ensures Step(ok, buf.Contents(), p') == Decode(schema, old(buf.Contents()), p)
  {
    ok, p' := false, p;
    if buf.ReadableBytes() < HEADER_SIZE { return; }
    var data := buf.Peek();
    if buf.ReadableBytes() > MAX_BUFFER_SIZE {
      buf.RetrieveAll();
      return;
    }
    if !MagicAt(data, 0) {
      var n := ScanForMagic(data);
      buf.Retrieve(n);
      return;
    }
    if data[4] != VERSION {
      buf.RetrieveAll();
      return;
    }
    var bodyLen := FromBigEndian(data[6..10]);
    if bodyLen > MAX_BODY_LEN {
      buf.RetrieveAll();
      return;
    }
    var total := HEADER_SIZE + bodyLen + CHECKSUM_SIZE;
    if buf.ReadableBytes() < total { return; }
    ok, p' := DecodeFrameBytes(schema, data, bodyLen, p);
    buf.Retrieve(total);
  }

  method DecodeFrameBytes<Q, R>(schema: Schema<Q, R>, data: seq<byte>, bodyLen: nat, p: Packet<Q, R>)
    returns (ok: bool, p': Packet<Q, R>)
    requires |data| >= HEADER_SIZE + bodyLen + CHECKSUM_SIZE
    ensures Decoded(ok, p') == DecodeFrame(schema, data, bodyLen, p)
  {
    var checksum := Crc32.FromBytes(data[HEADER_SIZE + bodyLen..HEADER_SIZE + bodyLen + CHECKSUM_SIZE]);
    var calcCrc := Crc32.Compute(data[..HEADER_SIZE + bodyLen]);
    if calcCrc != checksum { return false, p; }
    ok, p' := DecodeBodyBytes(schema, data[5], data[HEADER_SIZE..HEADER_SIZE + bodyLen], p);
    if ok {
      p' := p'.(reqId := FromBigEndian(data[10..18]));
    }
  }

  method DecodeBodyBytes<Q, R>(schema: Schema<Q, R>, msgType: byte, body: seq<byte>, p: Packet<Q, R>)
    returns (ok: bool, p': Packet<Q, R>)
    ensures Decoded(ok, p') == DecodeBody(schema, msgType, body, p)
  {
    if msgType == 2 {
      ok, p' := DecodeHeartbeatBytes(body, p);
      p' := p'.(msgType := HEARTBEAT);
    } else {
      var d := DecodeBody(schema, msgType, body, p);
      ok, p' := d.ok, d.packet;
    }
  }

  /** decodeHeartbeatBody with its cursor and its loop. */
  method DecodeHeartbeatBytes<Q, R>(data: seq<byte>, p: Packet<Q, R>) returns (ok: bool, p': Packet<Q, R>)
    ensures Decoded(ok, p') == DecodeHeartbeatBody(data, p)
  {
    p' := p;
    var pos, service, node := 0, [], [];
    assert data[0..] == data;
    ok, pos, service := ReadString(data, pos);
    if !ok { return; }
    ok, pos, node := ReadString(data, pos);
    if !ok { return; }
    ghost var rest := data[pos..];
    if pos + 8 > |data| { return false, p; }
    var timestamp := FromBigEndian(data[pos..pos + 8]);
    assert rest[..8] == data[pos..pos + 8];
    pos := pos + 8;
    if pos + 2 > |data| { return false, p; }
    var extraCount := FromBigEndian(data[pos..pos + 2]);
    assert rest[8..10] == data[pos..pos + 2];
    pos := pos + 2;
    assert rest[10..] == data[pos..];
    var extra;
    ok, pos, extra := ReadExtras(data, pos, extraCount, p.heartbeat.extra);
    p' := p.(heartbeat := p.heartbeat.(extra := extra));
    if !ok { return; }
    if pos != |data| { return false, p'; }
    p' := p.(heartbeat := Heartbeat(service, node, Signed64(timestamp), extra));
  }
}
