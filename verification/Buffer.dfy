/** The growable byte buffer under the codec and the connections: a vector with a read and a
    write index, compacted or enlarged in place, that behaves as a first-in first-out byte queue. */
module ByteBuffer {
  import opened Bytes

  const CHEAP_PREPEND: nat := 8
  const INITIAL_SIZE: nat := 1024
  const EXTRA_SIZE: nat := 65536

  /** What one readv system call returned. */
  datatype Readv = Interrupted | Failed(errno: int) | Received(bytes: seq<byte>)

  /** The first call that EINTR did not interrupt: the one whose result counts. */
  function Completed(calls: seq<Readv>): (c: Readv)
    requires calls != [] && !calls[|calls| - 1].Interrupted?
    ensures c in calls && !c.Interrupted?
  {
    if calls[0].Interrupted? then Completed(calls[1..]) else calls[0]
  }

  lemma {:induction false} CompletedAfter(interrupts: nat, c: Readv)
    requires !c.Interrupted?
    ensures Completed(Retries(interrupts, c)) == c
    decreases interrupts
  {
    if interrupts > 0 {
      CompletedAfter(interrupts - 1, c);
    }
  }

  /** So many interrupted calls before the one that counts. */
  function Retries(interrupts: nat, c: Readv): (calls: seq<Readv>)
    ensures calls != [] && calls[|calls| - 1] == c && forall x :: x in calls ==> x == Interrupted || x == c
  {
    if interrupts == 0 then [c] else [Interrupted] + Retries(interrupts - 1, c)
  }

  datatype Op =
    | Push(data: seq<byte>) | Take(len: nat) | TakeString(len: nat) | TakeAllAsString | Clear
    | Read(interrupts: nat, bytes: seq<byte>) | FailedRead(interrupts: nat, errno: int)

  function After(contents: seq<byte>, op: Op): seq<byte> {
    match op
    case Push(data) => contents + data
    case Take(len) => if len < |contents| then contents[len..] else []
    case TakeString(len) => if len < |contents| then contents[len..] else []
    case TakeAllAsString => []
    case Clear => []
    case Read(_, bytes) => contents + bytes
    case FailedRead(_, _) => contents
  }

  /** What the operation returns to its caller, of the bytes it takes out. */
  function Output(contents: seq<byte>, op: Op): seq<byte> {
    match op
    case TakeString(len) => if len < |contents| then contents[..len] else contents
    case TakeAllAsString => contents
    case _ => []
  }

  /** The abstract byte queue: bytes leave at the front in the order in which they came in at the back. */
  function Queue(contents: seq<byte>, ops: seq<Op>): seq<byte>
    decreases |ops|
  {
    if ops == [] then contents else Queue(After(contents, ops[0]), ops[1..])
  }

  function Outputs(contents: seq<byte>, ops: seq<Op>): seq<seq<byte>>
    decreases |ops|
  {
    if ops == [] then [] else [Output(contents, ops[0])] + Outputs(After(contents, ops[0]), ops[1..])
  }

  /** What was done for op: a read may take only the front of what is offered, but at least 65536 bytes of it. */
  ghost predicate Carried(op: Op, done: Op) {
    if op.Read? then done.Read? && done.bytes <= op.bytes && (done.bytes == op.bytes || |done.bytes| >= EXTRA_SIZE)
    else done == op
  }

  ghost predicate AllCarried(ops: seq<Op>, done: seq<Op>) {
    |done| == |ops| && forall i :: 0 <= i < |ops| ==> Carried(ops[i], done[i])
  }

  function FrontOf(bytes: seq<byte>, n: nat): (front: seq<byte>)
    ensures front <= bytes && |front| <= n && (front == bytes || |front| == n)
  {
    if |bytes| <= n then bytes else bytes[..n]
  }

  lemma CarriedCons(ops: seq<Op>, first: Op, rest: seq<Op>)
    requires ops != [] && Carried(ops[0], first) && AllCarried(ops[1..], rest)
    ensures AllCarried(ops, [first] + rest)
  {
    var done := [first] + rest;
    forall i | 0 <= i < |ops| ensures Carried(ops[i], done[i]) {
      if i > 0 {
        assert Carried(ops[1..][i - 1], rest[i - 1]);
      }
    }
  }

  class Buffer {
    var store: array<byte>
    var readerIndex: nat
    var writerIndex: nat

    ghost predicate Valid()
      reads this
    {
      CHEAP_PREPEND <= readerIndex <= writerIndex <= store.Length
    }

    /** The queue that the buffer stands for: the readable bytes. */
    ghost function Contents(): (s: seq<byte>)
      requires Valid()
      reads this, store
    {
      store[readerIndex..writerIndex]
    }

    constructor ()
      ensures Valid() && fresh(store) && Contents() == []
      ensures store.Length == CHEAP_PREPEND + INITIAL_SIZE
    {
      store := new byte[CHEAP_PREPEND + INITIAL_SIZE](_ => 0);
      readerIndex := CHEAP_PREPEND;
      writerIndex := CHEAP_PREPEND;
    }

    function ReadableBytes(): (n: nat)
      requires Valid()
      reads this, store
      ensures n == |Contents()|
    {
      writerIndex - readerIndex
    }

    function WritableBytes(): nat
      requires Valid()
      reads this
    {
      store.Length - writerIndex
    }

    /** The bytes behind peek(), up to the write index. */
    method Peek() returns (s: seq<byte>)
      requires Valid()
      ensures s == Contents()
    {
      s := store[readerIndex..writerIndex];
    }

    method RetrieveAll()
      requires Valid()
      modifies this
      ensures Valid() && store == old(store) && Contents() == []
      ensures readerIndex == writerIndex == CHEAP_PREPEND
    {
      readerIndex := CHEAP_PREPEND;
      writerIndex := CHEAP_PREPEND;
    }

    method Retrieve(len: nat)
      requires Valid()
      modifies this
      ensures Valid() && store == old(store)
      ensures Contents() == if len < |old(Contents())| then old(Contents())[len..] else []
    {
      if len < ReadableBytes() {
        readerIndex := readerIndex + len;
      } else {
        RetrieveAll();
      }
    }

    method RetrieveAsString(len: nat) returns (s: seq<byte>)
      requires Valid()
      modifies this
      ensures Valid() && store == old(store)
      ensures s + Contents() == old(Contents())
      ensures |s| == if len < |old(Contents())| then len else |old(Contents())|
    {
      var n := if len > ReadableBytes() then ReadableBytes() else len;
      s := store[readerIndex..readerIndex + n];
      Retrieve(n);
    }

    method RetrieveAllAsString() returns (s: seq<byte>)
      requires Valid()
      modifies this
      ensures Valid() && store == old(store)
      ensures s == old(Contents()) && Contents() == []
    {
      s := store[readerIndex..writerIndex];
      RetrieveAll();
    }

    /** Makes len bytes writable without changing the readable ones: by enlarging the vector when
        the free space on both sides is too small, by moving the readable bytes to the front otherwise. */
    method MakeSpace(len: nat)
      requires Valid() && WritableBytes() < len
      modifies this, store
      ensures Valid() && (store == old(store) || fresh(store))
      ensures Contents() == old(Contents()) && WritableBytes() >= len
    {
      if WritableBytes() + readerIndex < len + CHEAP_PREPEND {
        Resize(writerIndex + len);
      } else {
        Compact();
      }
    }

    method Resize(size: nat)
      requires Valid() && store.Length <= size
      modifies this`store
      ensures Valid() && fresh(store) && store.Length == size
      ensures Contents() == old(Contents())
    {
      ghost var was := Contents();
      var bigger := new byte[size](_ => 0);
      for i := 0 to store.Length
        invariant store == old(store) && store != bigger && Contents() == was
        invariant forall k :: 0 <= k < i ==> bigger[k] == store[k]
      {
        bigger[i] := store[i];
      }
      assert bigger[readerIndex..writerIndex] == was;
      store := bigger;
    }

    method Compact()
      requires Valid() && CHEAP_PREPEND < readerIndex
      modifies this`readerIndex, this`writerIndex, store
      ensures Valid() && readerIndex == CHEAP_PREPEND
      ensures Contents() == old(Contents())
    {
      var readable := ReadableBytes();
      ghost var was := Contents();
      for i := 0 to readable
        invariant readable == writerIndex - readerIndex == |was|
        invariant readerIndex == old(readerIndex) && writerIndex == old(writerIndex)
        invariant forall k :: 0 <= k < i ==> store[CHEAP_PREPEND + k] == was[k]
        invariant forall k :: i <= k < readable ==> store[readerIndex + k] == was[k]
      {
        store[CHEAP_PREPEND + i] := store[readerIndex + i];
      }
      assert store[CHEAP_PREPEND..CHEAP_PREPEND + readable] == was;
      readerIndex := CHEAP_PREPEND;
      writerIndex := readerIndex + readable;
    }

    method EnsureWritableBytes(len: nat)
      requires Valid()
      modifies this, store
      ensures Valid() && (store == old(store) || fresh(store))
      ensures Contents() == old(Contents()) && WritableBytes() >= len
      ensures old(WritableBytes()) >= len ==> store == old(store)
    {
      if WritableBytes() < len {
        MakeSpace(len);
      }
    }

    /** Stores data at the write index and moves the index past it. */
    method Fill(data: seq<byte>)
      requires Valid() && |data| <= WritableBytes()
      modifies this`writerIndex, store
      ensures Valid() && Contents() == old(Contents()) + data
      ensures writerIndex == old(writerIndex) + |data| && readerIndex == old(readerIndex)
    {
      ghost var was := store[..];
      for i := 0 to |data|
        invariant writerIndex == old(writerIndex) && readerIndex == old(readerIndex)
        invariant store[..writerIndex] == was[..writerIndex]
        invariant store[writerIndex..writerIndex + i] == data[..i]
      {
        store[writerIndex + i] := data[i];
        assert store[writerIndex..writerIndex + i + 1] == store[writerIndex..writerIndex + i] + [data[i]];
      }
      assert data[..|data|] == data;
      assert store[..writerIndex][readerIndex..writerIndex] == was[..writerIndex][readerIndex..writerIndex];
      assert store[readerIndex..writerIndex + |data|]
          == store[readerIndex..writerIndex] + store[writerIndex..writerIndex + |data|];
      writerIndex := writerIndex + |data|;
    }

    method Append(data: seq<byte>)
      requires Valid()
      modifies this, store
      ensures Valid() && (store == old(store) || fresh(store))
      ensures Contents() == old(Contents()) + data
    {
      EnsureWritableBytes(|data|);
      Fill(data);
    }

    /** Reads from a descriptor into the free space and a second segment of 65536 bytes, retrying
        on EINTR. calls are the results of the readv calls in turn; the kernel never returns more
        than it was given room for. */
    method ReadFd(calls: seq<Readv>) returns (n: int, errno: int)
      requires Valid()
      requires calls != [] && !calls[|calls| - 1].Interrupted?
      requires forall c :: c in calls && c.Received? ==> |c.bytes| <= ReadRoom()
      modifies this, store
      ensures Valid() && (store == old(store) || fresh(store))
      ensures match Completed(calls)
              case Received(bytes) => n == |bytes| && Contents() == old(Contents()) + bytes
              case Failed(e) => n == -1 && errno == e && Contents() == old(Contents())
    {
      n, errno := -1, 0;
      var i := 0;
      while calls[i].Interrupted?
        invariant 0 <= i < |calls|
        invariant Completed(calls[i..]) == Completed(calls)
        decreases |calls| - i
      {
        i := i + 1;
      }
      match calls[i]
      case Failed(e) =>
        errno := e;
      case Received(bytes) =>
        n := |bytes|;
        var writable := WritableBytes();
        if n <= writable {
          Fill(bytes);
        } else {
          Fill(bytes[..writable]);
          Append(bytes[writable..]);
          Associate(old(Contents()), bytes[..writable], bytes[writable..]);
          assert bytes == bytes[..writable] + bytes[writable..];
        }
    }

    method TakeFront(len: nat) returns (out: seq<byte>)
      requires Valid()
      modifies this
      ensures Valid() && store == old(store)
      ensures Contents() == After(old(Contents()), TakeString(len)) && out == Output(old(Contents()), TakeString(len))
    {
      ghost var was := Contents();
      out := RetrieveAsString(len);
      assert out == was[..|out|] && Contents() == was[|out|..];
    }

    /** A read in which the kernel offers the bytes: it takes no more than there is room for. */
    method ReadOffered(interrupts: nat, bytes: seq<byte>) returns (taken: seq<byte>)
      requires Valid()
      modifies this, store
      ensures Valid() && (store == old(store) || fresh(store))
      ensures taken <= bytes && (taken == bytes || |taken| >= EXTRA_SIZE) && Contents() == old(Contents()) + taken
    {
      taken := FrontOf(bytes, ReadRoom());
      CompletedAfter(interrupts, Received(taken));
      var calls := Retries(interrupts, Received(taken));
      var n, errno := ReadFd(calls);
    }

    method Perform(op: Op) returns (done: Op, out: seq<byte>)
      requires Valid()
      modifies this, store
      ensures Valid() && (store == old(store) || fresh(store))
      ensures Carried(op, done) && Contents() == After(old(Contents()), done) && out == Output(old(Contents()), done)
    {
      done, out := op, [];
      match op
      case Push(data) => Append(data);
      case Take(len) => Retrieve(len);
      case TakeString(len) => out := TakeFront(len);
      case TakeAllAsString => out := RetrieveAllAsString();
      case Clear => RetrieveAll();
      case Read(interrupts, bytes) =>
        var taken := ReadOffered(interrupts, bytes);
        done := Read(interrupts, taken);
      case FailedRead(interrupts, e) =>
        CompletedAfter(interrupts, Failed(e));
        var n, errno := ReadFd(Retries(interrupts, Failed(e)));
    }

    /** Over every sequence of operations the readable bytes, and what is returned, are those of the abstract queue.
        A read takes as much of what the kernel offers as the room allows, which is 65536 bytes or more. */
    method Replay(ops: seq<Op>) returns (done: seq<Op>, outs: seq<seq<byte>>)
      requires Valid()
      modifies this, store
      ensures Valid() && (store == old(store) || fresh(store))
      ensures AllCarried(ops, done)
      ensures Contents() == Queue(old(Contents()), done) && outs == Outputs(old(Contents()), done)
      decreases |ops|
    {
      if ops == [] { return [], []; }
      var first, out := Perform(ops[0]);
      var rest, others := Replay(ops[1..]);
      done, outs := [first] + rest, [out] + others;
      assert done[1..] == rest;
      CarriedCons(ops, first, rest);
    }

    /** The size of the segments handed to readv: the second one only when the first is small. */
    function ReadRoom(): nat
      requires Valid()
      reads this
    {
      if WritableBytes() < EXTRA_SIZE then WritableBytes() + EXTRA_SIZE else WritableBytes()
    }
  }
}
