/** The loop shape shared by all message callbacks: while (decode) handle. */
module DrainLoop {
  import opened Bytes
  import opened ByteBuffer
  import opened Codec
  import opened Framing

  /** In the middle of a drain: done has been delivered, rest and p are the buffer and the record, and
      the drain goes on while ok. */
  ghost predicate Continues<Q, R>(schema: Schema<Q, R>, data: seq<byte>, blank: Packet<Q, R>, done: seq<Packet<Q, R>>,
                                  ok: bool, rest: seq<byte>, p: Packet<Q, R>)
  {
    if ok then Joined(Drain(schema, data, blank), done, Drain(schema, rest, p))
    else Drain(schema, data, blank) == Drained(done, rest)
  }

  ghost predicate Joined<Q, R>(all: Drained<Q, R>, done: seq<Packet<Q, R>>, d: Drained<Q, R>) {
    all.packets == done + d.packets && all.rest == d.rest
  }

  lemma StartDrain<Q, R>(schema: Schema<Q, R>, data: seq<byte>, blank: Packet<Q, R>)
    ensures Continues(schema, data, blank, [], true, data, blank)
  {
    var d := Drain(schema, data, blank);
    assert [] + d.packets == d.packets;
  }

  lemma ContinueDrain<Q, R>(schema: Schema<Q, R>, data: seq<byte>, blank: Packet<Q, R>, done: seq<Packet<Q, R>>,
                            rest: seq<byte>, p: Packet<Q, R>)
    requires Continues(schema, data, blank, done, true, rest, p)
    ensures var s := Decode(schema, rest, p);
            && (s.ok ==> |s.rest| < |rest|)
            && Continues(schema, data, blank, if s.ok then done + [s.packet] else done, s.ok, s.rest, s.packet)
  {
    DecodeProgress(schema, rest, p);
    var s := Decode(schema, rest, p);
    if s.ok {
      DrainStep(schema, rest, p);
      var d := Drain(schema, s.rest, s.packet);
      assert done + ([s.packet] + d.packets) == done + [s.packet] + d.packets;
    } else {
      assert done + [] == done;
    }
  }

  /** One loop test of while (decode) on a live buffer. */
  method Next<Q, R>(schema: Schema<Q, R>, buf: Buffer, p: Packet<Q, R>, ghost data: seq<byte>,
                    ghost blank: Packet<Q, R>, ghost done: seq<Packet<Q, R>>) returns (ok: bool, p': Packet<Q, R>)
    requires buf.Valid() && Continues(schema, data, blank, done, true, buf.Contents(), p)
    modifies buf
    ensures buf.Valid() && buf.store == old(buf.store)
    ensures Continues(schema, data, blank, if ok then done + [p'] else done, ok, buf.Contents(), p')
    ensures ok ==> |buf.Contents()| < |old(buf.Contents())|
  {
    ContinueDrain(schema, data, blank, done, buf.Contents(), p);
    ok, p' := DecodeBuffer(schema, buf, p);
  }
}
