/** What the frames look like on the wire, byte by byte, at examples. */
module WireFormat {
  import opened Bytes
  import opened Codec
  import opened RoundTrip
  import Crc32
  import Damage

  /** The big-endian bytes of a number. */
  lemma Writes(s: seq<byte>, n: nat)
    requires FromBigEndian(s) == n
    ensures BigEndian(n, |s|) == s
  {
    WritesBack(s);
  }

  lemma Two(a: byte, b: byte)
    ensures FromBigEndian([a, b]) == a as nat * 256 + b as nat
  {
    assert [a, b][..1] == [a] && [a][..0] == [];
    assert FromBigEndian([a]) == a as nat;
  }

  lemma Four(a: byte, b: byte, c: byte, d: byte)
    ensures FromBigEndian([a, b, c, d]) == ((a as nat * 256 + b as nat) * 256 + c as nat) * 256 + d as nat
  {
    Two(a, b);
    assert [a, b, c, d][..3] == [a, b, c] && [a, b, c][..2] == [a, b];
    assert FromBigEndian([a, b, c]) == FromBigEndian([a, b]) * 256 + c as nat;
  }

  lemma {:induction false} AllOnes(n: nat, k: nat) returns (s: seq<byte>)
    requires n == Limit(k) - 1
    ensures s == BigEndian(n, k) && forall i :: 0 <= i < |s| ==> s[i] == 0xff
    decreases k
  {
    if k == 0 {
      s := [];
    } else {
      var m := Limit(k - 1);
      assert n == 256 * m - 1 && n / 256 == m - 1 && n % 256 == 255;
      var front := AllOnes(m - 1, k - 1);
      s := front + [0xff];
    }
  }

  /** The length of a one-byte string or payload. */
  lemma LengthOne()
    ensures BigEndian(1, U16) == [0x00, 0x01] && BigEndian(1, U32) == [0x00, 0x00, 0x00, 0x01]
  {
    Two(0, 1);
    Writes([0x00, 0x01], 1);
    Four(0, 0, 0, 1);
    Writes([0x00, 0x00, 0x00, 0x01], 1);
  }

  /** The body of a request: service "S", method "M", and one byte of payload. */
  lemma RequestBodyBytes()
    ensures Body(Plain, RequestMsg(0, [0x53], [0x4d], [0xab]))
         == [0x00, 0x01, 0x53, 0x00, 0x01, 0x4d, 0x00, 0x00, 0x00, 0x01, 0xab]
  {
    LengthOne();
    RequestLayout(Plain, [0xab], [0x53], [0x4d], [0xab]);
  }

  /** The body of a response: the status FAILED and one byte of payload. */
  lemma ResponseBodyBytes()
    ensures Body(Plain, ResponseMsg(0, FAILED, [0xab])) == [0x01, 0x00, 0x00, 0x00, 0x01, 0xab]
  {
    LengthOne();
  }

  lemma MinusTwo()
    ensures BigEndian(-2 % TWO_64, U64) == [0xff, 0xff, 0xff, 0xff, 0xff, 0xff, 0xff, 0xfe]
  {
    Limits();
    var n, m := -2 % TWO_64, Limit(7);
    assert TWO_64 == 256 * m;
    assert n / 256 == m - 1 && n % 256 == 254;
    var front := AllOnes(m - 1, 7);
    assert BigEndian(n, U64) == front + [0xfe];
  }

  lemma OneExtra()
    ensures Extras([([0x6b], [0x76])]) == Some([0x00, 0x01, 0x6b, 0x00, 0x01, 0x76])
  {
    LengthOne();
    var fields: seq<Field> := [([0x6b], [0x76])];
    assert fields[1..] == [] && Extras([]) == Some([]);
    var front: seq<byte> := [0x00, 0x01, 0x6b, 0x00, 0x01, 0x76];
    assert Str([0x6b]) + Str([0x76]) == front;
    assert front + [] == front;
  }

  /** A heartbeat with one extra field, from its parts. */
  lemma HeartbeatParts(hb: Heartbeat, fields: seq<Field>, service: seq<byte>, node: seq<byte>, extras: seq<byte>)
    requires |hb.serviceName| <= MAX_STRING && |hb.nodeId| <= MAX_STRING && |hb.extra| == 1
    requires service == Str(hb.serviceName) && node == Str(hb.nodeId) && Extras(fields) == Some(extras)
    ensures EncodeHeartbeatBody(hb, fields)
         == service + node + BigEndian(hb.timestamp % TWO_64, U64) + BigEndian(1, U16) + extras
  {
    assert [] + service == service;
  }

  /** The body of a heartbeat: service "S", node "N", the timestamp -2, and one extra field, "k" with the value "v". */
  lemma HeartbeatBodyBytes(hb: Heartbeat, fields: seq<Field>)
    requires hb == Heartbeat([0x53], [0x4e], -2, map[[0x6b] := [0x76]]) && fields == [([0x6b], [0x76])]
    ensures EncodeHeartbeatBody(hb, fields)
         == [0x00, 0x01, 0x53] + [0x00, 0x01, 0x4e] + [0xff, 0xff, 0xff, 0xff, 0xff, 0xff, 0xff, 0xfe]
            + [0x00, 0x01] + [0x00, 0x01, 0x6b, 0x00, 0x01, 0x76]
  {
    LengthOne();
    MinusTwo();
    OneExtra();
    assert hb.extra.Keys == {[0x6b]} && |hb.extra| == 1;
    HeartbeatParts(hb, fields, [0x00, 0x01, 0x53], [0x00, 0x01, 0x4e], [0x00, 0x01, 0x6b, 0x00, 0x01, 0x76]);
  }

  /** How the frame of any message begins: the magic number, the version and the type. */
  lemma FrameStart<Q, R>(schema: Schema<Q, R>, m: Message<Q, R>)
    requires Encodable(schema, m) && m.id < TWO_64 && |Body(schema, m)| < 0x1_0000_0000
    ensures var f := Encode(schema, m);
            && |f| >= HEADER_SIZE && f[..4] == [0x52, 0x50, 0x43, 0x46] && f[4] == 1
            && f[5] == (if m.RequestMsg? then 0 else if m.ResponseMsg? then 1 else 2)
  {
    SendableBody(schema, m);
    PackedParts(TypeByte(TypeOf(m)), m.id, Body(schema, m), []);
    var f := Encode(schema, m);
    assert f + [] == f && f[0..4] == f[..4];
    Damage.MagicBytes(f[0..4]);
  }

  /** The checksum goes out most significant byte first. */
  lemma ChecksumBytes()
    ensures Crc32.ToBytes(0x01020304) == [0x01, 0x02, 0x03, 0x04]
  {
  }
}
