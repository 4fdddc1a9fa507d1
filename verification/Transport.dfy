/** A connection with the codec on both ends: what the peer delivers of the messages that were sent on it. */
module Transport {
  import opened Bytes
  import opened Codec
  import opened RoundTrip
  import opened Framing
  import OutOfStep
  import Tcp = TcpConnection

  /** The messages that the loop has dealt with and not dropped. */
  function Kept(taken: seq<Tcp.Taken>): seq<seq<byte>> {
    if taken == [] then []
    else Kept(taken[..|taken| - 1]) + (if taken[|taken| - 1].dropped then [] else [taken[|taken| - 1].message])
  }

  lemma {:induction false} KeptBytes(taken: seq<Tcp.Taken>)
    ensures Concat(Kept(taken)) == Tcp.Surviving(taken)
    decreases |taken|
  {
    if taken != [] {
      var before, t := taken[..|taken| - 1], taken[|taken| - 1];
      KeptBytes(before);
      var last := if t.dropped then [] else [t.message];
      ConcatAppend(Kept(before), last);
      assert Concat(last) == if t.dropped then [] else t.message;
    }
  }

  /** The kept messages are the encodings of msgs, one by one. */
  ghost predicate Encodes<Q(!new), R(!new)>(schema: Schema<Q, R>, taken: seq<Tcp.Taken>, msgs: seq<Message<Q, R>>) {
    && |Kept(taken)| == |msgs|
    && forall i :: 0 <= i < |msgs| ==> Kept(taken)[i] == Encode(schema, msgs[i]) && Sendable(schema, msgs[i])
  }

  lemma {:induction false} StreamConcat<Q, R>(items: seq<Item<Q, R>>, parts: seq<seq<byte>>)
    requires |items| == |parts| && forall i :: 0 <= i < |parts| ==> items[i].frame == parts[i]
    ensures Stream(items) == Concat(parts)
    decreases |items|
  {
    if items != [] {
      StreamConcat(items[1..], parts[1..]);
    }
  }

  lemma StreamIs<Q(!new), R(!new)>(schema: Schema<Q, R>, taken: seq<Tcp.Taken>, msgs: seq<Message<Q, R>>)
    requires Encodes(schema, taken, msgs)
    ensures Stream(Encoded(schema, msgs)) == Tcp.Surviving(taken)
  {
    StreamConcat(Encoded(schema, msgs), Kept(taken));
    KeptBytes(taken);
  }

  lemma EncodesSendable<Q(!new), R(!new)>(schema: Schema<Q, R>, taken: seq<Tcp.Taken>, msgs: seq<Message<Q, R>>)
    requires Lawful(schema) && Encodes(schema, taken, msgs)
    ensures AllFramed(schema, Encoded(schema, msgs))
  {
    forall m | m in msgs ensures Sendable(schema, m) {
      var i :| 0 <= i < |msgs| && msgs[i] == m;
    }
    SendableAllFramed(schema, msgs);
  }

  /** The receiver has exactly the messages whose frames are complete in data, in order. */
  ghost predicate Has<Q, R>(r: Drained<Q, R>, items: seq<Item<Q, R>>, data: seq<byte>) {
    DeliversAll(r.packets, Done(items, data)) && r.rest == Held(items, data)
  }

  /** At any time in any run of the connection, whatever part of the written bytes has arrived and in whatever chunks:
      the peer has delivered exactly the messages that have arrived completely, in the order in which the loop dealt
      with them. A dropped message leaves no trace in the stream. */
  lemma PeerInStep<Q(!new), R(!new)>(schema: Schema<Q, R>, actions: seq<Tcp.Action>, msgs: seq<Message<Q, R>>,
                                     chunks: seq<seq<byte>>, blank: Packet<Q, R>)
    requires Lawful(schema) && Tcp.CanRun(Tcp.Init(), actions)
    requires Encodes(schema, Tcp.Run(Tcp.Init(), actions).accepted, msgs)
    requires Concat(chunks) <= Tcp.Run(Tcp.Init(), actions).written && Fits(Encoded(schema, msgs), [], chunks)
    ensures Has(Receive(schema, [], chunks, blank), Encoded(schema, msgs), Concat(chunks))
  {
    var s := Tcp.Run(Tcp.Init(), actions);
    Tcp.OutputConserved(actions);
    StreamIs(schema, s.accepted, msgs);
    EncodesSendable(schema, s.accepted, msgs);
    assert s.written <= s.written + s.output;
    OutOfStep.FitsHolds(schema, Encoded(schema, msgs), chunks, blank);
  }

  /** When the write side has been shut down in order and all that was written has arrived, the peer has delivered every
      message that was not dropped, and its buffer is empty. */
  lemma AllArrive<Q(!new), R(!new)>(schema: Schema<Q, R>, actions: seq<Tcp.Action>, msgs: seq<Message<Q, R>>,
                                    chunks: seq<seq<byte>>, blank: Packet<Q, R>)
    requires Lawful(schema) && Tcp.CanRun(Tcp.Init(), actions)
    requires Encodes(schema, Tcp.Run(Tcp.Init(), actions).accepted, msgs)
    requires Tcp.Run(Tcp.Init(), actions).shut && Tcp.Run(Tcp.Init(), actions).ends == 0
    requires Concat(chunks) == Tcp.Run(Tcp.Init(), actions).written && Fits(Encoded(schema, msgs), [], chunks)
    ensures var r := Receive(schema, [], chunks, blank);
            DeliversAll(r.packets, Encoded(schema, msgs)) && r.rest == []
  {
    var s := Tcp.Run(Tcp.Init(), actions);
    Tcp.InitInv();
    Tcp.RunInv(Tcp.Init(), actions);
    assert s.written + [] == s.written == Tcp.Surviving(s.accepted);
    StreamIs(schema, s.accepted, msgs);
    PeerInStep(schema, actions, msgs, chunks, blank);
    AllDone(Encoded(schema, msgs));
  }
}
