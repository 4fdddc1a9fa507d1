# A verified model of the RPC framework's protocol and client core

The framework frames protobuf messages over TCP. A server drains its input buffer frame by frame and answers; two
clients, a single-threaded pipelining one and a multi-threaded asynchronous one, match answers to requests by id.
Below them are an epoll loop with timers and an eventfd wakeup, a buffered connection, a connector with backoff and
a connection pool; beside them a consistent-hash ring, a token bucket and a circuit breaker. This project models
that core in Dafny and proves what it is meant to guarantee. `dafny verify dfyconfig.toml` checks everything.

## How it is organised

Code that computes is a function. Code that updates fields is a class whose methods are proved against step functions
on a state value; the properties are then proved of those functions over every run. Where several threads share an
object, a section under a lock is one step, and so is every load, store or exchange of an atomic between which another
thread can make a difference; the runs are all interleavings. The exceptions are listed under "Left out".

| file | what it models |
|---|---|
| `Bytes.dfy`, `Crc32.dfy`, `Buffer.dfy` | big-endian integers, the checksum, the byte buffer |
| `Codec.dfy`, `WireFormat.dfy`, `RoundTrip.dfy` | the codec, its bytes at examples, and that decoding undoes encoding |
| `Framing.dfy`, `DrainLoop.dfy` | streams cut into chunks, the drain loop |
| `Damage.dfy`, `OutOfStep.dfy` | garbage and damage; streams on which the receiver loses its place |
| `Server.dfy`, `PipelineClient.dfy`, `AsyncClient.dfy` | the server and the two clients |
| `Session.dfy` | a pipelining client and a server on one connection, from submission to callback |
| `Wakeup.dfy`, `Timers.dfy`, `EventLoop.dfy` | the event loop: functors, timers, and both with the length of the sleep |
| `TcpConnection.dfy`, `Transport.dfy` | output buffering and shutdown; the same with the codec on both ends |
| `Connector.dfy` | connecting and retrying |
| `Ownership.dfy`, `Pool.dfy` | exclusive claims on pooled connections; the search for a free one |
| `ConsistentHash.dfy`, `TokenBucket.dfy`, `CircuitBreaker.dfy` | the policies |

## Where the code falls short of its promise

Each of these is kept as the code has it. The first lemma named says exactly when the promise holds, or that it never
does; the second shows an input or a run at which it fails.

- The limit on the receive buffer equals the limit on a body, so a body within 22 bytes of its limit is never
  delivered, however it arrives (`Framing.AloneExactlyWhen`, `Framing.LargestBodyLost`), and a chunk that takes the
  buffer over the limit costs the complete messages in it as well (`Framing.InStepExactlyWhen`, `Framing.OverLimit`).
- The encoder has no limit. The receiver forgets the header of a body over its limit and reads the body as new frames,
  so that a message nobody sent can be delivered (`OutOfStep.OversizedReadOn`, `OutOfStep.PhantomDelivered`). The same
  happens behind a chunk that overfills the buffer, with every message within its limits (`OutOfStep.OverLimitReadOn`,
  `OutOfStep.PhantomOverLimit`).
- Damage to the version or the length of a frame is not contained to it (`OutOfStep.HeaderDamageExactlyWhen`,
  `OutOfStep.VersionDamage`, `OutOfStep.LengthDamage`). Neither is damage to its magic number: the search for the next
  one goes on inside the body, and a message encoded there is delivered though nobody sent it
  (`OutOfStep.MagicDamageExactlyWhen`, `OutOfStep.PhantomDamaged`).
- A heartbeat with more than 65535 extra fields wraps its counter and is dropped (`RoundTrip.HeartbeatBodyBack`,
  `RoundTrip.OneFieldTooMany`); extra fields of earlier heartbeats stay in the record of a drain
  (`Framing.HeartbeatExact`, `Framing.LeftoverShown`).
- After dropping garbage a drain always stops, and the frames behind it wait for the next input
  (`Damage.DrainStallsAfterGarbage`, `Damage.StrayByte`). The same happens after a frame that is rejected for its
  checksum, its type or its body (`Damage.DrainStopsAtRejected`, `Damage.RequestStranded`).
- If only one to three bytes of a frame have arrived behind garbage, they are dropped with it, and so is a frame that
  starts beyond the scan (`Damage.KeptExactlyWhen`, `Damage.FrameStartLost`; for every chunking `OutOfStep.GarbageMet`).
- A functor queued by the loop thread after the swap gets no wakeup (`Wakeup.LeftBehindExactlyWhen`,
  `Wakeup.LoopThreadGetsNoWakeup`).
- `runEvery` with a positive interval below a millisecond makes a one-shot timer (`Timers.PeriodicExactlyWhen`,
  `Timers.HalfMillisecondOnce`).
- A message that passed the check in `send` is lost in three cases: a direct write meets a broken connection, another
  thread sent it and its functor runs after a `shutdown` or close, or the connection goes down while it is in the buffer
  (`TcpConnection.GoneExactlyWhen`, `TcpConnection.MessageDropped`, `TcpConnection.PostedDropped`,
  `TcpConnection.BufferStranded`).
- `shutdown` loads the state and then stores it. A close in between is undone, and a later `handleClose`, which is meant
  to be idempotent, runs in full again (`TcpConnection.EndsTwiceExactlyWhen`, `TcpConnection.ClosedTwice`).
- A `stop` between the check of `connect_` and the callback does not keep the callback from being invoked
  (`Connector.HandsOverExactlyWhen`, `Connector.HandedAfterStop`).
- `restart` or `start` while a connect is under way can lose a descriptor (`Connector.LosesExactlyWhen`,
  `Connector.DescriptorLost`).
- A `stop` whose queued work runs after a later `start` or `restart` gives up the attempt that this one has begun,
  though the connection is wanted (`Connector.StuckExactlyWhen`, `Connector.WantedGivenUp`).
- A client destroyed after an explicit `disconnect()` keeps its claim on a pooled connection for good
  (`Ownership.GivenBackExactlyWhen`, `Ownership.ClaimAbandoned`), and a connection that is being built when its owner
  finishes `clearCallbacks` can deliver to that owner later (`Ownership.TroubleExactlyWhen`, `Ownership.StaleCallback`).
- A connection that is being built when a new owner finishes `setupCallbacks` can leave that owner without its answers
  (`Ownership.DeafExactlyWhen`, `Ownership.AnswersUnheard`).
- The pool search can miss a client when its 64-bit cursor wraps inside it (`Pool.AcquireExactlyWhen`,
  `Pool.FreeClientMissed`).
- Nodes whose virtual nodes collide make the ring depend on history (`ConsistentHash.ForgottenExactlyWhen`,
  `ConsistentHash.LastOneWins`), and removing one of them can move keys of another
  (`ConsistentHash.RemoveExactlyWhen`, `ConsistentHash.MemberWithoutSlot`).
- The half-open breaker admits a second probe, though its header promises one (`CircuitBreaker.SingleProbeExactlyWhen`,
  `CircuitBreaker.TwoProbes`).
- The pipelining client is destroyed without a word to the callers of pending requests
  (`PipelineClient.NeverCompletedExactlyWhen`, `PipelineClient.CallbackNeverRuns`).
- An asynchronous call caught by the destructor between taking its id and registering is never completed
  (`AsyncClient.DestructorCompletes`, `AsyncClient.CallForgotten`).

## Model

| member | source | states |
|---|---|---|
| `Bytes.ReadsBack` | src/codec/rpc_codec.cc:86-93 | a number that fits k bytes is read back from its k big-endian bytes |
| `Bytes.ReadsLow` | src/codec/rpc_codec.cc:86-93 | reading back k bytes of a number that does not fit gives its remainder |
| `Bytes.WritesBack` | src/codec/rpc_codec.cc:86-93 | k bytes are the big-endian form of the number read from them, so the two directions are inverse |
| `Crc32.TableEntry` | src/codec/rpc_codec.cc:11-76 | each of the 256 table entries is eight bit steps of its index under the reflected polynomial |
| `Crc32.TableStep` | src/codec/rpc_codec.cc:80-82 | one turn of the table loop is eight bit-by-bit steps of the register |
| `Crc32.Compute` | src/codec/rpc_codec.cc:78-84 | the table loop returns the bit-by-bit CRC-32 of every input |
| `Crc32.CrcOfNothing` | src/codec/rpc_codec.cc:78-84 | the checksum of nothing is 0 |
| `Crc32.CheckValue` | src/codec/rpc_codec.cc:78-84 | the checksum of the digits 1 to 9 is the check value of the IEEE 802.3 CRC-32 |
| `Crc32.Residue` | src/codec/rpc_codec.cc:78-84 | every input followed by its own checksum, lowest byte first, has the checksum 0x2144DF1C |
| `Crc32.BitStepsLinear` | src/codec/rpc_codec.cc:78-84 | the bit steps are linear over exclusive or, which is why a table can replace them |
| `Crc32.BurstDetected` | src/codec/rpc_codec.cc:78-84 | two inputs that differ only inside 32 consecutive bits, in the order of transmission, never share a checksum |
| `Crc32.ByteBurstDetected` | src/codec/rpc_codec.cc:78-84 | in particular inputs that differ only inside four consecutive bytes |
| `Crc32.RegisterIsBits` | src/codec/rpc_codec.cc:80-82 | feeding bytes is feeding their bits one by one, lowest first |
| `Crc32.ChecksumDetermined` | src/codec/rpc_codec.cc:369-371 | a word is read from four bytes if and only if they are its big-endian bytes |
| `WireFormat.ChecksumBytes` | src/codec/rpc_codec.cc:193-196 | the checksum goes out most significant byte first |
| `WireFormat.FrameStart` | src/codec/rpc_codec.cc:180-191 | the frame of every message begins with the four bytes of the magic number, the version 1 and the byte of its type |
| `WireFormat.RequestBodyBytes` | src/codec/rpc_codec.cc:126-143 | the bytes of a request body, field by field |
| `WireFormat.ResponseBodyBytes` | src/codec/rpc_codec.cc:145-158 | the bytes of a response body |
| `WireFormat.HeartbeatBodyBytes` | src/codec/rpc_codec.cc:160-177 | the bytes of a heartbeat body with a negative timestamp and an extra field |
| `ByteBuffer.Buffer.constructor` | src/network/buffer.cc:10-14 | a new buffer is valid, empty and of the initial size |
| `ByteBuffer.Buffer.Retrieve` | src/network/buffer.cc:32-38 | drops the given number of bytes from the front, or all if there are no more |
| `ByteBuffer.Buffer.RetrieveAll` | src/network/buffer.cc:40-43 | empties the buffer and resets both indices |
| `ByteBuffer.Buffer.RetrieveAllAsString` | src/network/buffer.cc:45-49 | returns all readable bytes and empties the buffer |
| `ByteBuffer.Buffer.RetrieveAsString` | src/network/buffer.cc:52-60 | what is returned followed by what is left is what was readable, cut at the length or the end |
| `ByteBuffer.Buffer.MakeSpace` | src/network/buffer.cc:132-143 | makes room, by enlarging or by moving to the front, without changing the readable bytes |
| `ByteBuffer.Buffer.Compact` | src/network/buffer.cc:136-141 | the overlapping copy to the front in place keeps the readable bytes |
| `ByteBuffer.Buffer.Resize` | src/network/buffer.cc:134 | the enlarged vector holds the same readable bytes |
| `ByteBuffer.Buffer.EnsureWritableBytes` | src/network/buffer.cc:72-76 | afterwards the room suffices and the readable bytes are unchanged |
| `ByteBuffer.Buffer.Append` | src/network/buffer.cc:62-70 | the readable bytes are the old ones followed by the data |
| `ByteBuffer.Buffer.ReadFd` | src/network/buffer.cc:78-110 | over interrupted calls and both segments, the received bytes follow the old ones; an error changes nothing and is reported |
| `ByteBuffer.Buffer.Replay` | src/network/buffer.cc:10-143 | over every sequence of operations, interrupted and failed reads included, the indices stay ordered and the readable bytes, and the strings returned, are those of an abstract first-in first-out queue |
| `Codec.EncodeExtras` | src/codec/rpc_codec.cc:170-173 | the loop over the extra fields prints them in turn, or fails at the first string over 65535 bytes |
| `Codec.ReadString` | src/codec/rpc_codec.cc:110-122 | reading at a cursor is taking a length-prefixed string off the unread rest; the cursor stays inside the body |
| `Codec.ReadExtras` | src/codec/rpc_codec.cc:297-302 | the field loop stores exactly the pairs read so far and never leaves the body |
| `Codec.ScanForMagic` | src/codec/rpc_codec.cc:331-341 | finds the first magic number within the scanned prefix, or gives up on everything |
| `Codec.DecodeHeartbeatBytes` | src/codec/rpc_codec.cc:278-310 | the cursor version of the heartbeat decoder agrees with the grammar of the body, including what a failure leaves in the record |
| `Codec.DecodeBuffer` | src/codec/rpc_codec.cc:314-408 | decode on a live buffer does what Decode does on its readable bytes: result, bytes left and record, on every path |
| `RoundTrip.RequestBodyBack` | src/codec/rpc_codec.cc:126-143 | a request body decodes to the service, method and request it was made from |
| `RoundTrip.ResponseBodyBack` | src/codec/rpc_codec.cc:145-158 | a response body decodes to its response and status |
| `RoundTrip.InsertAll` | src/codec/rpc_codec.cc:170-173 | storing the printed entries one by one rebuilds the map, whatever the order of iteration |
| `RoundTrip.CounterBack` | src/codec/rpc_codec.cc:168 | the field counter is read back modulo 65536 |
| `RoundTrip.HeartbeatBodyBack` | src/codec/rpc_codec.cc:160-176 | a heartbeat body decodes if and only if it has at most 65535 extra fields, and then adds them to the record |
| `RoundTrip.DecodePacked` | src/codec/rpc_codec.cc:180-198 | a packed frame in front of anything is checked, taken off exactly and handed to the body decoder |
| `RoundTrip.DecodeEncoded` | src/codec/rpc_codec.cc:202-224 | an encoded message is delivered if and only if it is within the size limits and its counter fits; it then leaves the rest of the buffer and fills the record |
| `RoundTrip.OneFieldTooMany` | src/codec/rpc_codec.cc:168 | a heartbeat with 65536 extra fields encodes to a nonempty frame, and decode rejects that frame |
| `Framing.DecodeProgress` | src/codec/rpc_codec.cc:314-408 | each decode call consumes from the front or leaves everything, the latter if and only if the input is an incomplete header or frame |
| `Framing.PrefixIncomplete` | src/codec/rpc_codec.cc:315-367 | a proper prefix of a frame is always waited for |
| `Framing.SendableFramed` | src/codec/rpc_codec.cc:180-224 | the encoding of every sendable message is a frame in the sense the stream theorems use |
| `Framing.CutLater` | src/codec/rpc_codec.cc:314-408 | going on after a prefix of the stream is starting over with the bytes held back |
| `Framing.DrainRecords` | src/codec/rpc_codec.cc:314-408 | the records handed out by a drain are exactly those obtained by filling one record with the complete messages in turn |
| `Framing.DrainPrefix` | src/codec/rpc_codec.cc:314-408 | a drain delivers exactly the frames complete by then and holds back the rest |
| `Framing.ReceivePrefix` | src/codec/rpc_codec.cc:314-408 | after any chunks that make up a prefix of the stream, exactly the complete messages have been delivered in order |
| `Framing.AnyChunking` | src/codec/rpc_codec.cc:101-408 | however the encodings of sendable messages are cut into chunks, exactly those messages are delivered, in order, and the buffer ends empty |
| `Framing.AloneExactlyWhen` | src/codec/rpc_codec.cc:314-408 | a message whose body is within its limit and that arrives alone, in any chunks, is delivered if and only if it is sendable; otherwise nothing is delivered. `OutOfStep.OversizedReadOn` covers longer bodies |
| `Framing.LargestBodyLost` | src/codec/rpc_codec.h:17-19 | a request whose body has exactly the greatest allowed length encodes and is not delivered, in whatever chunks it arrives |
| `Framing.InStepExactlyWhen` | src/codec/rpc_codec.cc:323-327 | for any chunks of a stream of frames, delivery stays in step with the stream after every chunk if and only if the buffer limit is kept |
| `Framing.OverLimit` | src/codec/rpc_codec.cc:323-327 | a chunk that takes the buffer over its limit costs everything in it, at least one complete message included |
| `Framing.SmallChunksFit` | src/codec/rpc_codec.h:17-19 | frame and chunk sizes that together stay under the buffer limit keep it in every run |
| `Framing.HeartbeatExact` | src/codec/rpc_codec.cc:301 | in every drain the i-th record shows its heartbeat as sent if and only if the keys of the initial record and of all earlier heartbeats of the drain are among its own |
| `Framing.ReceiveNoExtras` | src/codec/rpc_codec.cc:301 | messages without extra fields, however they are cut, come out with the fields of the blank record and no others |
| `Framing.LeftoverShown` | src/codec/rpc_codec.cc:301 | draining two encoded heartbeats, the first with a field and the second without, hands out the second with that field |
| `DrainLoop.ContinueDrain` | src/codec/rpc_codec.cc:314-408 | one more turn of the drain loop keeps its meaning, and the loop ends because the buffer shrinks |
| `DrainLoop.Next` | src/codec/rpc_codec.cc:314-408 | the loop test on a live buffer moves the drain on by one packet |
| `Damage.NoMagicBefore` | src/codec/rpc_codec.cc:97-99 | no magic number starts inside garbage and ends in the magic number that follows it |
| `Damage.GarbageDropped` | src/codec/rpc_codec.cc:329-343 | garbage in front of what has arrived of a frame is dropped to the byte if the first four bytes of the frame are there and within the scan; otherwise everything readable is |
| `Damage.KeptExactlyWhen` | src/codec/rpc_codec.cc:329-343 | what has arrived of the frame behind garbage is kept if and only if it is nothing, or its first four bytes are within the scan |
| `Damage.FrameStartLost` | src/codec/rpc_codec.cc:329-343 | seventeen stray bytes and the first byte of a frame: that byte is lost |
| `Damage.DrainStallsAfterGarbage` | src/codec/rpc_codec.cc:333-339 | a drain stops after dropping garbage; the frames behind it are all delivered by the next drain |
| `Damage.StrayByte` | src/codec/rpc_codec.cc:333-339 | one stray byte in front of any sendable message leaves the whole message undelivered in the buffer |
| `Damage.AcceptsAnyRecord` | src/codec/rpc_codec.cc:374-403 | whether a frame is accepted does not depend on what is in the record |
| `Damage.DrainStopsAtRejected` | src/codec/rpc_codec.cc:366-403 | a drain of complete frames with good headers delivers exactly those before the first rejected one, each as decoded by itself, drops that one, and leaves all that is behind it, complete frames included |
| `Damage.RequestStranded` | src/codec/rpc_codec.cc:374-403 | a heartbeat with more than 65535 fields in front of any sendable message leaves the whole message undelivered in the buffer |
| `Damage.DamageRejected` | src/codec/rpc_codec.cc:366-377 | damage within four consecutive bytes of id and body, in the type, or in the checksum is always rejected, and exactly that frame is consumed |
| `Damage.BitBurstRejected` | src/codec/rpc_codec.cc:366-377 | a frame whose type, id and body differ from what was sent inside 32 consecutive bits, wherever they start, is rejected and consumed exactly |
| `OutOfStep.ReadOnBehind` | src/codec/rpc_codec.cc:345-360 | a stream that begins with a header of another version or with a length over the limit: in any chunks, all that has arrived with the chunk that completes the header is forgotten, and the chunks behind it are read as a stream of their own |
| `OutOfStep.OversizedReadOn` | src/codec/rpc_codec.cc:180-198 | a message with a body over the limit encodes, and in any chunks, with anything behind it, the receiver reads on in the middle of it |
| `OutOfStep.PhantomDelivered` | src/codec/rpc_codec.cc:357-360 | for any message x, a request that carries its encoding and is too large, cut in three: x, which nobody sent, is delivered |
| `OutOfStep.OverLimitReadOn` | src/codec/rpc_codec.cc:323-327 | up to the first chunk that overfills the buffer delivery is in step; that chunk is forgotten with what was held back, and the chunks behind it are read as a stream of their own |
| `OutOfStep.PhantomOverLimit` | src/codec/rpc_codec.cc:323-327 | two messages within all limits, in four chunks with the first message cut anywhere: neither is delivered, and exactly one message that nobody sent is |
| `OutOfStep.HeaderDamageExactlyWhen` | src/codec/rpc_codec.cc:345-367 | if the version or the length of a frame is damaged and its magic number is not, decode takes off exactly that frame if and only if nothing is behind it and the header is given up |
| `OutOfStep.VersionDamage` | src/codec/rpc_codec.cc:345-349 | one wrong version byte: all that has arrived behind the damaged frame, good frames included, is lost with it |
| `OutOfStep.LengthDamage` | src/codec/rpc_codec.cc:351-367 | a damaged length that announces more than has arrived: the good frames behind it are held back as if they were part of the damaged one |
| `OutOfStep.MagicDamageExactlyWhen` | src/codec/rpc_codec.cc:329-343 | if the magic number of a frame is damaged, decode takes off exactly that frame if and only if nothing is behind it and no magic number is within the scan, or the first magic number is that of what follows it, within the scan |
| `OutOfStep.MagicDamage` | src/codec/rpc_codec.cc:329-343 | a buffer that does not begin with the magic number: the drain keeps exactly what starts at the first magic number, inside a body too, if that is within the scan, and nothing otherwise |
| `OutOfStep.DamageDelivers` | src/codec/rpc_codec.cc:329-343 | a message whose frame starts at that magic number is the first that the next drain delivers |
| `OutOfStep.PhantomDamaged` | src/codec/rpc_codec.cc:329-343 | for every message x a request within all limits that, with its magic number overwritten, makes the receiver deliver x, whatever comes next |
| `OutOfStep.NothingYet` | src/codec/rpc_codec.cc:329-343 | garbage in front of a stream, in any chunks: until a drain sees the end of the garbage nothing is delivered |
| `OutOfStep.GarbageMet` | src/codec/rpc_codec.cc:329-343 | garbage in front of a stream, in any chunks: what has arrived of the stream when a drain sees the end of the garbage is kept exactly if it is nothing or its first four bytes are there and within the scan; reception goes on from there, or from the middle of the stream |
| `OutOfStep.BackInStep` | src/codec/rpc_codec.cc:329-343 | if it was kept, the next chunk brings delivery back into step, as if the garbage had not been there |
| `Server.RpcServer.OnMessage` | src/server/rpc_server.cc:44-101 | the callback puts on the wire exactly the encoded answers to the packets that draining the buffer delivers, in order; an answer that does not encode puts nothing |
| `Server.Serve` | src/server/rpc_server.cc:44-101 | over a run of chunks the output is the encoded answers to the packets of a draining receiver |
| `Server.ReplyAnswers` | src/server/rpc_server.cc:47-99 | a request is answered with the handler's outcome or the error for an unknown service, a heartbeat with an acknowledgement that carries the time and no extra fields, under the same id; a response is not answered |
| `Server.ServerAnswers` | src/server/rpc_server.cc:44-101 | for every list of sendable messages and every chunking, exactly one right answer per request and heartbeat, in order of arrival |
| `Server.EndToEnd` | src/server/rpc_server.cc:44-101 | from the caller's messages to the caller's packets, for every chunking both ways: one packet for each request and heartbeat, in order, under its id, with the handler's outcome and status, or with the time of the acknowledgement and no new extra fields |
| `Server.AckSendable` | src/server/rpc_server.cc:49-57 | the acknowledgement of a heartbeat can always be sent |
| `PipelineClient.ExactlyOnce` | src/client/inline_pipeline_client.cc:84-172 | over every run the issued ids are the disjoint union of pending and completed, each was sent once and in order, and no callback runs twice |
| `PipelineClient.RunSettles` | src/client/inline_pipeline_client.cc:84-158 | a request is completed by its first response or the first sweep after its deadline, whichever comes first, and by nothing else |
| `PipelineClient.IssuedSettles` | src/client/inline_pipeline_client.cc:84-158 | in every run every issued request comes from one accepted submission, and is completed by the first response or by the first sweep at or after the deadline that this submission asked for (its timeout after it, three seconds if it gives none), and by nothing else; without either it is pending |
| `PipelineClient.AcceptedIsIssued` | src/client/inline_pipeline_client.cc:101-124 | in every run every accepted submission, from outside or from a callback, issues a request under the next number |
| `PipelineClient.NeverCompletedExactlyWhen` | src/client/inline_pipeline_client.cc:53-56 | of all requests issued in the life of a client, exactly those that were neither answered nor swept after their deadline, the pending ones, never get a callback |
| `PipelineClient.CallbackNeverRuns` | src/client/inline_pipeline_client.cc:53-56 | a request submitted and destroyed with its client |
| `PipelineClient.RoundIsRun` | src/client/inline_pipeline_client.cc:160-172 | the packets of a drain and a sweep are a run of single events, so the run theorems hold of a round |
| `PipelineClient.SweepInv` | src/client/inline_pipeline_client.cc:136-158 | a sweep keeps the invariant although its callbacks submit new requests while others are still owed |
| `PipelineClient.MsUntilNeverLate` | src/client/inline_pipeline_client.cc:14-20 | the wait, rounded down to whole milliseconds, does not pass the deadline, and ends less than a millisecond before it unless it is cut off at an hour |
| `PipelineClient.InlinePipelineClient.Submit` | src/client/inline_pipeline_client.cc:101-124 | registers a request under the next id and hands its packet to the connection; a failed encoding still uses up its id |
| `PipelineClient.InlinePipelineClient.Finish` | src/client/inline_pipeline_client.cc:92-97 | the callback runs once, after the request left the table, with the submissions it makes |
| `PipelineClient.InlinePipelineClient.OnMessage` | src/client/inline_pipeline_client.cc:84-99 | the callback completes the requests answered by the drained packets; unknown ids are ignored |
| `PipelineClient.InlinePipelineClient.NextWaitMs` | src/client/inline_pipeline_client.cc:126-134 | the wait does not exceed the time left to any pending deadline |
| `PipelineClient.InlinePipelineClient.TakeExpired` | src/client/inline_pipeline_client.cc:136-150 | erasing while iterating takes out exactly the expired requests, each once |
| `PipelineClient.InlinePipelineClient.SweepTimeouts` | src/client/inline_pipeline_client.cc:136-158 | completes exactly the expired requests with a timeout and returns their number |
| `PipelineClient.InlinePipelineClient.PumpOnce` | src/client/inline_pipeline_client.cc:160-172 | a round waits no longer than to any pending deadline, takes the arriving chunks and then sweeps; its result is the number of callbacks that ran |
| `Session.FateIsVerdict` | src/client/inline_pipeline_client.cc:84-158 | when exactly one incoming packet answers a request, its fate is a timeout if a sweep at or after the deadline comes before that packet, else the answer |
| `Session.Completes` | src/client/inline_pipeline_client.cc:84-172 | if the packets answer the requests in the order of sending, every request is completed by its own answer unless a sweep at or after the deadline of its submission comes first |
| `Session.RequestToCallback` | src/client/inline_pipeline_client.cc:84-172 | for every chunking both ways: a request, named by the submission it comes from, is completed with the handler's outcome if its answer comes in before a sweep at or after the deadline that the submission asked for, as timed out if such a sweep comes first, and is still pending if neither has happened |
| `AsyncClient.RunMatches` | src/client/rpc_async_client.cc:58-656 | over every interleaving, tables and log agree with the fate of each id read off the actions alone: in at most one table, completed by the first response, timeout or end of the destructor after its registration |
| `AsyncClient.AtMostOnce` | src/client/rpc_async_client.cc:565-656 | no caller ever sees two outcomes, and no id is in both tables |
| `AsyncClient.DestructorCompletes` | src/client/rpc_async_client.cc:58-90 | when the destructor returns, a request has exactly one outcome if it was registered or refused by then, and none otherwise |
| `AsyncClient.CallForgotten` | src/client/rpc_async_client.cc:58-90 | a run in which a call takes its id, the destructor comes and goes, and the call never gets an outcome |
| `AsyncClient.ExpirySettles` | src/client/rpc_async_client.cc:565-604 | a timeout that gets past the destroyed flag and takes the lock leaves its request with exactly one outcome |
| `AsyncClient.AlarmRings` | src/client/rpc_async_client.cc:434-604 | in every run a pending request that has a timer, or could not be sent, has its timeout to come, and one or two steps answer it, unless the destructor has begun |
| `AsyncClient.NoFalseAlarm` | src/client/rpc_async_client.cc:434-604 | in every run a timeout is handled only for a timer that was set or a send that failed, and once for each |
| `AsyncClient.RunOfKind` | src/client/rpc_async_client.cc:429-432 | in every run promises belong to blocking calls and callbacks to the others |
| `AsyncClient.DrainOutcomes` | src/client/rpc_async_client.cc:73-89 | the destructor answers each entry of a table once, in any order of iteration |
| `AsyncClient.RpcAsyncClient.Register` | src/client/rpc_async_client.cc:429-432 | the entry goes into the table of its kind |
| `AsyncClient.RpcAsyncClient.HandleTimeout` | src/client/rpc_async_client.cc:565-604 | does nothing once the flag is set; otherwise completes the request if it is still pending |
| `AsyncClient.RpcAsyncClient.SendRequest` | src/client/rpc_async_client.cc:547-559 | without a connection the request is completed as timed out |
| `AsyncClient.RpcAsyncClient.AsyncCall` | src/client/rpc_async_client.cc:390-505 | takes the next id; then the chain refuses, or the request is registered, its timer set, and it is completed at once if encoding or sending fails |
| `AsyncClient.CallResult` | src/client/rpc_async_client.cc:390-505 | that course of a call is a run of the steps over which the interleaving theorems range |
| `AsyncClient.CallIsRun` | src/client/rpc_async_client.cc:390-505 | any run can go on with a whole call, as steps of the interleaving machine, to the outcome the class method computes |
| `AsyncClient.TimeoutIsRun` | src/client/rpc_async_client.cc:565-604 | likewise with a whole handleTimeout of the loop thread: the flag, then the lock |
| `AsyncClient.PacketsAreRun` | src/client/rpc_async_client.cc:613-656 | likewise with the responses among the packets of a message callback |
| `AsyncClient.DestructIsRun` | src/client/rpc_async_client.cc:58-90 | likewise with the destructor: the flag, then both tables |
| `AsyncClient.RpcAsyncClient.HandleResponse` | src/client/rpc_async_client.cc:622-656 | the first table that has the id gives it up, and its caller gets the response |
| `AsyncClient.RpcAsyncClient.OnMessage` | src/client/rpc_async_client.cc:613-620 | completes the requests answered by the drained packets |
| `AsyncClient.RpcAsyncClient.Destruct` | src/client/rpc_async_client.cc:58-90 | every entry of both tables, and no other request, gets the destructor's answer |
| `Wakeup.StepInv` | src/network/event_loop.cc:80-118 | every step of every thread keeps: ran, batch and pending make up the queue, and an announced functor is ahead of a wakeup |
| `Wakeup.NoLostWakeup` | src/network/event_loop.cc:304-355 | when the loop sleeps with nothing to read, every functor announced by another thread has run |
| `Wakeup.RunsInOrderOnce` | src/network/event_loop.cc:322-339 | functors run in queue order, each at most once |
| `Wakeup.OneRoundRunsAll` | src/network/event_loop.cc:80-118 | one full round runs everything queued when it began |
| `Wakeup.LeftBehindExactlyWhen` | src/network/event_loop.cc:312-339 | when the loop goes to sleep, a functor has not run if and only if it was queued after the last swap; with nothing to read it is the loop thread's own or not yet announced |
| `Wakeup.LoopThreadGetsNoWakeup` | src/network/event_loop.cc:312-320 | a run in which a functor that was pushed and announced runs and queues another, which is left behind asleep without a wakeup |
| `Wakeup.CountersAre` | src/network/event_loop.cc:341-355 | in every run the counter of the eventfd holds the writes since it was last read, up to its maximum |
| `Timers.FiringsOnPlan` | src/network/event_loop.cc:140-241 | over every interleaving: one-shot timers fire at most once, nothing fires early, and the k-th firing is due k intervals after the first |
| `Timers.TimersGoOn` | src/network/event_loop.cc:166-183 | over every run: a timer that was not cancelled and is periodic, or has not fired, is live, and between rounds waits in the heap for its next due time; a one-shot timer that has not fired is in the heap or in the batch |
| `Timers.DueFires` | src/network/event_loop.cc:140-184 | a timer that is due and not cancelled when a round collects has fired once more when the round is over, whatever happens in between |
| `Timers.RoundEnds` | src/network/event_loop.cc:166-183 | a round that has collected comes to its end by firing and finishing alone |
| `Timers.FiringsRecorded` | src/network/event_loop.cc:166-183 | in every run every firing is recorded, once, in the order of time |
| `Timers.PlansGranted` | src/network/event_loop.cc:186-232 | over every run: the calls get the ids from 1 on, and each timer has the due time and the interval its call asked for, short of the seconds given by less than a millisecond |
| `Timers.NoDrift` | src/network/event_loop.cc:177-182 | due times are renewed from due times, so lateness never adds up |
| `Timers.TrackedBetweenRounds` | src/network/event_loop.cc:140-184 | between rounds the flag table has exactly the timers in the heap |
| `Timers.CancelStops` | src/network/event_loop.cc:234-241 | after cancelTimer a timer fires at most once more, and only if it was waiting in the running batch |
| `Timers.OnlyCancelledByName` | src/network/event_loop.cc:234-241 | in every run a timer that no later call names is not cancelled, even if a call named its id before it existed |
| `Timers.PollNeverOversleeps` | src/network/event_loop.cc:120-138 | the poll timeout never passes the earliest timer and ends less than a millisecond before it unless cut off |
| `Timers.PeriodicExactlyWhen` | src/network/event_loop.cc:186-209 | runEvery is periodic if and only if the interval is at least a millisecond or not positive |
| `Timers.HalfMillisecondOnce` | src/network/event_loop.cc:186-209 | a timer made by runEvery with half a millisecond fires at most once in every run |
| `Timers.TimerQueue.RunAfter` | src/network/event_loop.cc:211-232 | adds a one-shot timer under a new id |
| `Timers.TimerQueue.RunEvery` | src/network/event_loop.cc:186-209 | adds a periodic timer whose first run is one interval away |
| `Timers.TimerQueue.CancelTimer` | src/network/event_loop.cc:234-241 | sets the flag of a tracked timer; others are ignored |
| `Timers.TimerQueue.NextTimerTimeoutMs` | src/network/event_loop.cc:120-138 | the timeout passes no timer of the heap, and is zero if one is due |
| `Timers.TimerQueue.PopExpired` | src/network/event_loop.cc:147-162 | takes exactly the due timers off the heap, earliest first, and keeps those not cancelled |
| `Timers.TimerQueue.CollectExpired` | src/network/event_loop.cc:143-163 | the locked part of a round is the collecting step of the state machine |
| `Timers.NoneLeftDue` | src/network/event_loop.cc:147-162 | after the collecting step no timer in the heap is due |
| `Timers.TimerQueue.RunTask` | src/network/event_loop.cc:166-183 | a callback and the scheduling calls it makes are a run of the state machine |
| `Timers.TimerQueue.RunBatch` | src/network/event_loop.cc:166-183 | every collected task fires exactly once |
| `Timers.TimerQueue.ProcessTimers` | src/network/event_loop.cc:140-184 | a round collects the due timers in order and fires each that was not cancelled once; it is a run of the state machine, so the run theorems hold of it |
| `EventLoop.NothingIsLate` | src/network/event_loop.cc:80-138 | over every interleaving of the loop with threads that queue functors and add or cancel timers: when the loop is in epoll_wait with nothing to read and no thread is inside runAfter or runEvery, the sleep passes no timer of the heap by more than the time from the look at the heap to epoll_wait, no timer is collected and still to run, and every announced functor has run |
| `EventLoop.LookInTime` | src/network/event_loop.cc:120-138 | a sleep computed from the top of the heap, counted from the look at it, passes no timer of the heap, or has no length; it ends less than a millisecond before the first one unless it is cut off |
| `EventLoop.LookIdle` | src/network/event_loop.cc:80-138 | without timers the sleep is ten seconds, or what the caller allows if that is less |
| `EventLoop.StepInv` | src/network/event_loop.cc:186-232 | a timer that another thread adds while the loop sleeps keeps the eventfd readable from the end of the call until the loop looks again |
| `EventLoop.PartsRun` | src/network/event_loop.cc:80-118 | in every run of the loop the functors take part in a run of their own and so do the timers, so all that is proved of those runs holds of the loop |
| `EventLoop.SleepsAndAdds` | src/network/event_loop.cc:80-118 | the loop sleeps from its look at the heap until epoll_wait returns, and a thread is inside runAfter or runEvery from its push to its write |
| `TcpConnection.OutputConserved` | src/network/tcp_connection.cc:109-268 | over every run, each message that passed the check in send is dealt with, waiting or being sent as often as it passed; written followed by buffered is the messages dealt with, without the dropped ones, and all of them if and only if no byte was dropped; until the connection has ended the buffer is nonempty iff write interest is on |
| `TcpConnection.PassedExactly` | src/network/tcp_connection.cc:109-125 | in every run exactly the messages that are sent while the connection is up pass the check, in order |
| `TcpConnection.PostedInOrder` | src/network/tcp_connection.cc:109-125 | in every run the loop takes the messages of the other threads in the order in which they passed |
| `TcpConnection.NonePassesAfter` | src/network/tcp_connection.cc:109-155 | shutdown and forceClose on a connection that is up, and every close, take effect at once: in every run no message passes after them |
| `TcpConnection.WrittenIsTaken` | src/network/tcp_connection.cc:157-268 | in every run the bytes that count as written are as many as the kernel has taken |
| `TcpConnection.QueueCounts` | src/network/tcp_connection.cc:148-155 | in every run the queued shutdowns and closes are those queued less those that have run |
| `TcpConnection.ShutdownAfterLastByte` | src/network/tcp_connection.cc:205-210 | write shutdown of a connection that has not ended comes after the last byte of every message dealt with and not dropped, and every other message that passed the check is still waiting for the loop |
| `TcpConnection.ShutdownRemembered` | src/network/tcp_connection.cc:205-268 | in every run: when a shutdown was asked for and its work is not queued any more, no message is on its way, and an empty buffer means that the write side is shut down, unless the connection has ended or is being closed by force |
| `TcpConnection.ShutdownCompletes` | src/network/tcp_connection.cc:157-268 | from every state of such a shutdown a run of the loop alone writes out the buffer and shuts the write side down, unless the connection is down |
| `TcpConnection.NothingAfterShutdown` | src/network/tcp_connection.cc:148-210 | after the shutdown nothing is written, and every message that the loop still gets to is dropped |
| `TcpConnection.DropsExactlyWhen` | src/network/tcp_connection.cc:109-203 | bytes of a message that passed the check are dropped exactly by a direct write that meets a broken connection and by a functor that runs when the connection is no longer up |
| `TcpConnection.NothingAfterDown` | src/network/tcp_connection.cc:92-285 | once the connection has ended or its channel was removed, no run changes what was written or what is in the buffer |
| `TcpConnection.WritableExactlyWhen` | src/network/tcp_connection.cc:244-285 | what is in the buffer can still be written by some run if and only if the connection is not down |
| `TcpConnection.GoneExactlyWhen` | src/network/tcp_connection.cc:92-285 | bytes that passed the check are lost for good exactly by a direct write that meets a broken connection, a functor that comes too late, and a step that takes the connection down while bytes are in the buffer |
| `TcpConnection.ToldExactlyWhen` | src/network/tcp_connection.cc:92-302 | the user is told that the connection is down by a close or a breakdown on a connection that is not down, by the removal of one that is up, and by nothing else |
| `TcpConnection.MessageDropped` | src/network/tcp_connection.cc:184-195 | a run that drops any given message and leaves the connection up |
| `TcpConnection.PostedDropped` | src/network/tcp_connection.cc:109-155 | a run in which another thread sends and shuts down: the message is dropped and the write side shut, without any error |
| `TcpConnection.BufferStranded` | src/network/tcp_connection.cc:270-315 | a run in which a message waits in the buffer when the connection is closed by force: no step drops it, and it is never written |
| `TcpConnection.RunEndsOnce` | src/network/tcp_connection.cc:270-285 | in every run without a stale store the user is told at most once that the connection is down |
| `TcpConnection.EndsTwiceExactlyWhen` | src/network/tcp_connection.cc:148-155 | a step can lead to a second end, with no other stale store after it, if and only if it is the store of a shutdown that loaded the state before the connection ended |
| `TcpConnection.ClosedTwice` | src/network/tcp_connection.cc:148-155 | a run in which handleClose runs in full twice |
| `TcpConnection.ShutdownIsRun` | src/network/tcp_connection.cc:148-155 | shutdown without interruption is the load and the store |
| `TcpConnection.Connection.Send` | src/network/tcp_connection.cc:109-125 | only while connected; the loop thread sends at once, another thread hands the message to the loop |
| `TcpConnection.Connection.SendPosted` | src/network/tcp_connection.cc:119-123 | the functor of a posted message sends it only if the connection is still up, and drops it otherwise |
| `TcpConnection.Connection.SendInLoop` | src/network/tcp_connection.cc:157-203 | writes what it can at once and buffers the rest in order |
| `TcpConnection.Connection.HandleWrite` | src/network/tcp_connection.cc:244-268 | moves bytes from the front of the buffer to the socket, and shuts down after the last one if asked |
| `TcpConnection.Connection.Shutdown` | src/network/tcp_connection.cc:148-155 | defers the shutdown while output is pending |
| `TcpConnection.Connection.HandleClose` | src/network/tcp_connection.cc:270-285 | ends the connection once |
| `TcpConnection.Connection.HandleError` | src/network/tcp_connection.cc:287-302 | closes the connection if the socket reports an error |
| `TcpConnection.Connection.ForceClose` | src/network/tcp_connection.cc:308-315 | a connection that is up starts disconnecting, and one close is queued; nothing happens otherwise |
| `TcpConnection.Connection.CloseInLoop` | src/network/tcp_connection.cc:270-285 | the queued close ends the connection |
| `TcpConnection.Connection.ConnectDestroyed` | src/network/tcp_connection.cc:92-103 | a connection that is up ends, and the channel is taken off the loop in any case |
| `Transport.PeerInStep` | src/network/tcp_connection.cc:157-268 | at any time in any run, and for any part of the written bytes in any chunks, the peer has delivered exactly the messages that have arrived completely, in the order in which the loop dealt with them; dropped messages leave no trace |
| `Transport.AllArrive` | src/network/tcp_connection.cc:205-210 | after an orderly shutdown, when all that was written has arrived, the peer has delivered every message that was not dropped |
| `Connector.DescriptorsConserved` | src/network/connector.cc:47-244 | in every run in which no attempt overlaps a connect under way, each descriptor is closed once, handed over once, held by the channel, which exists iff connecting, or in the hands of handleWrite, and the k-th retry waits within [d/2, d], d = min(500 * 2^k, 30000) |
| `Connector.BackoffIs` | src/network/connector.cc:206-228 | repeated capped doubling is min(500 * 2^k, 30000) |
| `Connector.BackoffFromRestart` | src/network/connector.cc:56-62 | after a restart, whatever came before it, the i-th retry waits as the i-th retry of a new connector does |
| `Connector.EveryWaitHasATimer` | src/network/connector.cc:206-228 | in every run the waits are the retry timers that are pending and those that have fired |
| `Connector.StuckExactlyWhen` | src/network/connector.cc:47-228 | a step leaves a wanted connection with no attempt under way or to come if and only if it is an attempt that fails for good, or stopInLoop on a connect that is wanted again, and nothing else is queued |
| `Connector.WantedGivenUp` | src/network/connector.cc:56-91 | a run in which a restart overtakes a stop and its attempt is given up although it is wanted |
| `Connector.WantedGoesOn` | src/network/connector.cc:47-228 | in every run without such a step a wanted connection is made, or an attempt is under way or to come |
| `Connector.NextAttempt` | src/network/connector.cc:206-228 | a wanted connection that was not given up has a run to its next attempt without another call of start or restart |
| `Connector.FailedConnectRetries` | src/network/connector.cc:168-204 | a connect that fails, by its own event or an error event, gives its descriptor back, and its next attempt is on its way |
| `Connector.ConnectIsHandedOver` | src/network/connector.cc:168-185 | a connect that succeeds and is wanted is handed over |
| `Connector.RetriesAreOrderly` | src/network/connector.cc:206-228 | in every run without a call of start or restart no attempt begins while a connect is under way or a connection is made |
| `Connector.StoppedStaysQuiet` | src/network/connector.cc:64-82 | in every run a stopped connector makes no new attempt until start or restart is called |
| `Connector.HandlerEnds` | src/network/connector.cc:76-228 | whatever handler the loop thread is in, it comes to its end by itself |
| `Connector.QueueCounts` | src/network/connector.cc:47-70 | in every run the queued starts and stops are those queued less those that have run |
| `Connector.DestroyIsLast` | src/network/connector.cc:33-41 | after its destruction a connector does nothing |
| `Connector.LosesExactlyWhen` | src/network/connector.cc:47-120 | a step can lead to a lost descriptor, with no other overlap after it, if and only if a connect is under way and it is a restart, a dial that opens a socket and does not fail for good, or the retry of a dial without a socket |
| `Connector.DescriptorLost` | src/network/connector.cc:156-159 | two runs that overwrite the channel and lose its descriptor: restart, and a second start, while connecting |
| `Connector.StopSilences` | src/network/connector.cc:64-91 | after stop and until start or restart, at most one more descriptor is handed to the callback, and only one whose handler had passed its check when stop came |
| `Connector.HandsOverExactlyWhen` | src/network/connector.cc:168-185 | a stop can be followed by a hand-over if and only if a handler has passed its check |
| `Connector.HandedAfterStop` | src/network/connector.cc:168-185 | a run in which stop comes between the check and the callback |
| `Connector.StartIsRun` | src/network/connector.cc:76-150 | startInLoop without interruption is a run of its single accesses of connect_ |
| `Connector.WriteIsRun` | src/network/connector.cc:168-228 | handleWrite without interruption is a run of its single accesses of connect_ |
| `Connector.TcpConnector.Start` | src/network/connector.cc:47-54 | asks the loop to connect |
| `Connector.TcpConnector.StartInLoop` | src/network/connector.cc:76-82 | makes an attempt if one is still wanted, in whatever state it finds the connector |
| `Connector.TcpConnector.Stop` | src/network/connector.cc:64-70 | clears the wish to connect and asks the loop to stop |
| `Connector.TcpConnector.StopInLoop` | src/network/connector.cc:84-91 | gives up a connect under way and closes its descriptor |
| `Connector.TcpConnector.Connect` | src/network/connector.cc:97-150 | a result of connect leads to a channel, a retry or a closed descriptor, by its errno |
| `Connector.TcpConnector.HandleWrite` | src/network/connector.cc:168-185 | hands over the descriptor, or retries or closes it |
| `Connector.TcpConnector.HandleError` | src/network/connector.cc:191-200 | retries after an error while connecting |
| `Connector.TcpConnector.Retry` | src/network/connector.cc:206-228 | closes the descriptor and waits, with the backoff doubled for next time |
| `Connector.TcpConnector.Restart` | src/network/connector.cc:56-62 | starts over with the initial backoff |
| `Ownership.TroubleExactlyWhen` | src/network/tcp_client.cc:77-87 | a step can lead to a callback that is not the owner's, with no other disturbance after it, if and only if it finishes clearCallbacks while a connection being built carries a copy |
| `Ownership.OneOwner` | src/network/tcp_client.h:43-51 | in every interleaving without such a step at most one client holds the claim, and every callback in use is its own or empty |
| `Ownership.ClaimExclusive` | src/network/tcp_client.h:43-51 | the claim is exclusive in every run |
| `Ownership.ClaimedExactlyWhen` | src/network/tcp_client.h:43-51 | in every run a new client gets the claim if and only if no client holds it and none was destroyed after an explicit disconnect |
| `Ownership.CurrentIs` | src/network/tcp_client.cc:107-150 | in every run the current connection is the one published last, unless it was lost since |
| `Ownership.PoolReleaseRepairs` | src/pool/connection_pool.h:36 | with no owner and no connection being built, release of the pool puts the callbacks in order again, whatever was left behind |
| `Ownership.GivenBackExactlyWhen` | src/pool/connection_pool.h:36 | a destroyed client has given its claim back if and only if it was not destroyed after an explicit disconnect |
| `Ownership.ClaimAbandoned` | src/client/rpc_async_client.cc:353-362 | a run in which a client is disconnected explicitly, destroyed, and still owns the connection |
| `Ownership.AbandonedForever` | src/client/rpc_async_client.cc:353-362 | in every run, a claim held by a client that was disconnected explicitly is never given up, whatever happens next |
| `Ownership.StaleCallback` | src/network/tcp_client.cc:107-134 | a run in which a connection built across a change of owner answers the old owner |
| `Ownership.DeafExactlyWhen` | src/client/rpc_async_client.cc:96-119 | a step can lead to a client that is set up and does not get what arrives on the current connection, with no other such step after it, if and only if it finishes setupCallbacks while a connection created without its callback is being built |
| `Ownership.OwnerHears` | src/client/rpc_async_client.cc:96-119 | in every interleaving without such a step a client that is set up gets what arrives on the current connection |
| `Ownership.AnswersUnheard` | src/network/tcp_client.cc:107-134 | a run in which a client binds while a connection is being built and that connection has no callback |
| `Pool.CoversExactlyWhen` | src/pool/connection_pool.cc:128-129 | the n attempts look at every client if and only if the cursor does not wrap inside the search or n divides 2^64 |
| `Pool.AcquireFinds` | src/pool/connection_pool.cc:115-139 | a claimed client is never returned; and if the attempts cover the pool, none is returned if and only if all are claimed, and a connected one whenever an unclaimed one is connected |
| `Pool.AcquireExactlyWhen` | src/pool/connection_pool.cc:115-139 | acquire keeps that promise to every pool of n clients if and only if the cursor does not wrap inside the search or n divides 2^64 |
| `Pool.TakesFirstFree` | src/pool/connection_pool.cc:115-139 | the search takes the first free client that it meets from the cursor on, and leaves the cursor behind it |
| `Pool.TakesFirstUnclaimed` | src/pool/connection_pool.cc:115-139 | if it meets none, it takes the first unclaimed client |
| `Pool.FallsBack` | src/pool/connection_pool.cc:115-139 | the cursor has then gone round |
| `Pool.AllFreeRotates` | src/pool/connection_pool.cc:115-139 | in a pool of free clients successive searches go round |
| `Pool.FreeClientMissed` | src/pool/connection_pool.cc:128-138 | three clients, the last one free, and a cursor about to wrap: none is given out |
| `Pool.EndpointPool.Acquire` | src/pool/connection_pool.cc:115-139 | returns the first free connected client in search order, else the first free one, which it asks to reconnect, and advances the cursor by the attempts made |
| `ConsistentHash.RunInv` | src/loadbalance/consistent_hash.cc:17-56 | over every history, collisions or not, every slot of the ring is owned by a current member to whom it belongs |
| `ConsistentHash.VirtualKeyInjective` | src/loadbalance/consistent_hash.cc:123-127 | different virtual nodes, of one node or two, have different keys, whatever the names |
| `ConsistentHash.SlotsAre` | src/loadbalance/consistent_hash.cc:17-41 | the slots of a node are the hashes of its virtual nodes 0 to v - 1 |
| `ConsistentHash.SlotsDistinct` | src/loadbalance/consistent_hash.cc:17-41 | without hash collisions all virtual nodes have slots of their own |
| `ConsistentHash.FoundIsNearest` | src/loadbalance/consistent_hash.cc:66-74 | lower_bound with wrap-around finds a slot if and only if it minimises the clockwise distance |
| `ConsistentHash.LookupClockwise` | src/loadbalance/consistent_hash.cc:58-76 | the lookup returns the owner of the nearest slot clockwise, always a current member |
| `ConsistentHash.AddMovesToNewOnly` | src/loadbalance/consistent_hash.cc:17-41 | adding a node moves keys to that node only |
| `ConsistentHash.RemoveExactlyWhen` | src/loadbalance/consistent_hash.cc:43-56 | removing a member moves no key that was not on it if and only if each of its slots that another member took over is followed, among the slots that are not its own, by one of that member |
| `ConsistentHash.MemberWithoutSlot` | src/loadbalance/consistent_hash.cc:43-56 | under a constant hash the removal of the earlier of two nodes leaves the other a member that serves nothing |
| `ConsistentHash.RemoveMovesOwnOnly` | src/loadbalance/consistent_hash.cc:43-56 | removing a node that has lost none of its slots to another member moves no key that was not on it |
| `ConsistentHash.ApartUndisputed` | src/loadbalance/consistent_hash.cc:17-56 | a node whose slots collide with no other member's has lost none |
| `ConsistentHash.AddThenRemove` | src/loadbalance/consistent_hash.cc:17-56 | adding a new node and removing it is the identity if and only if none of its slots was taken |
| `ConsistentHash.OrderMattersExactlyWhen` | src/loadbalance/consistent_hash.cc:17-41 | two insertions into the empty ring commute if and only if the nodes' slots do not collide |
| `ConsistentHash.LastOneWins` | src/loadbalance/consistent_hash.cc:17-41 | under a constant hash the ring belongs to whichever of two nodes was added last |
| `ConsistentHash.HistoryForgotten` | src/loadbalance/consistent_hash.cc:17-56 | without collisions the ring is a function of the members, whatever the history |
| `ConsistentHash.ForgottenExactlyWhen` | src/loadbalance/consistent_hash.cc:17-56 | all histories over a set of names that end with the same members end with the same ring if and only if no two of the names collide |
| `ConsistentHash.LowerBound` | src/loadbalance/consistent_hash.cc:66-72 | finds the least slot not below the hash, or the least of all |
| `ConsistentHash.HashRing.AddNode` | src/loadbalance/consistent_hash.cc:17-41 | a node that is present is removed first; then its virtual nodes take their slots |
| `ConsistentHash.HashRing.RemoveNode` | src/loadbalance/consistent_hash.cc:43-56 | erases every slot of the node, whoever owns it |
| `ConsistentHash.HashRing.GetNode` | src/loadbalance/consistent_hash.cc:58-76 | the owner of the slot that serves the key, or the empty string on an empty ring |
| `TokenBucket.DecisionsExact` | src/rate_limiter/token_bucket.cc:13-44 | a request is admitted if and only if, for every request up to it, the capacity plus the gain since minus the admissions since leaves a token |
| `TokenBucket.ChangesExact` | src/rate_limiter/token_bucket.cc:6-44 | the decisions of a bucket whose rate and capacity change: a request is admitted if and only if a bucket full at any earlier call, with the capacity then in force and the gain since then counted piecewise, has a token left |
| `TokenBucket.ExactUnique` | src/rate_limiter/token_bucket.cc:13-22 | that condition determines all decisions: no other sequence satisfies it |
| `TokenBucket.WindowBound` | src/rate_limiter/token_bucket.cc:13-22 | no window of length d admits more than capacity plus rate times d |
| `TokenBucket.QueriesUnseen` | src/rate_limiter/token_bucket.cc:32-36 | calls of availableTokens, whenever they come, change no decision |
| `TokenBucket.RefillTwice` | src/rate_limiter/token_bucket.cc:38-44 | refilling in two steps is refilling in one |
| `TokenBucket.Bucket.RefillAt` | src/rate_limiter/token_bucket.cc:38-44 | adds the gain since the last refill, up to the capacity |
| `TokenBucket.Bucket.Allow` | src/rate_limiter/token_bucket.cc:13-22 | refills and takes a token if there is one |
| `TokenBucket.Bucket.SetRate` | src/rate_limiter/token_bucket.cc:24-30 | settles the old rate first; a negative capacity keeps the old one |
| `TokenBucket.Replay` | src/rate_limiter/token_bucket.cc:6-44 | a new bucket asked at any times gives the characterised decisions |
| `TokenBucket.ReplayChanges` | src/rate_limiter/token_bucket.cc:6-44 | a new bucket with any calls of allow and setRate gives those decisions |
| `CircuitBreaker.RunInv` | src/circuit_breaker/circuit_breaker.cc:12-102 | over every run: closed means the count is the current streak of failures and below the threshold, otherwise it stands at the threshold |
| `CircuitBreaker.TripsExactlyWhen` | src/circuit_breaker/circuit_breaker.cc:66-82 | a closed breaker opens if and only if a failure brings the streak to the threshold |
| `CircuitBreaker.OpenHolds` | src/circuit_breaker/circuit_breaker.cc:19-36 | an open breaker admits nothing before its timeout, and no result changes it |
| `CircuitBreaker.Opens` | src/circuit_breaker/circuit_breaker.cc:66-96 | a failure that makes the streak reach the threshold, or that comes half open, opens the breaker; counted from that failure nothing passes before the timeout, and a request passes if and only if it comes after it |
| `CircuitBreaker.Closes` | src/circuit_breaker/circuit_breaker.cc:54-64 | a success on a breaker that is not open leaves it closed |
| `CircuitBreaker.ClosedHolds` | src/circuit_breaker/circuit_breaker.cc:19-82 | a closed breaker stays closed and admits every request as long as the streak is below the threshold |
| `CircuitBreaker.EpisodeAdmits` | src/circuit_breaker/circuit_breaker.cc:38-52 | a half-open episode admits one request per window reset and one more if it found the slot free |
| `CircuitBreaker.HalfOpenExactlyWhen` | src/circuit_breaker/circuit_breaker.cc:38-52 | half open, a request passes if and only if it comes five seconds after the opening, which starts a new window, or finds the slot free |
| `CircuitBreaker.ResetsSpaced` | src/circuit_breaker/circuit_breaker.cc:41-45 | window resets are at least five seconds apart |
| `CircuitBreaker.EpisodeBound` | src/circuit_breaker/circuit_breaker.cc:28-52 | a whole episode admits at most two requests and one per reset |
| `CircuitBreaker.SingleProbeExactlyWhen` | src/circuit_breaker/circuit_breaker.h:42-43 | an episode admits a single probe if and only if no second request comes |
| `CircuitBreaker.TwoProbes` | src/circuit_breaker/circuit_breaker.cc:93-96 | two probes a millisecond apart are both admitted |
| `CircuitBreaker.Breaker.AllowRequest` | src/circuit_breaker/circuit_breaker.cc:12-52 | the answer and new state in each mode, with the probe slot and the window |
| `CircuitBreaker.Breaker.RecordSuccess` | src/circuit_breaker/circuit_breaker.cc:54-64 | clears the count when closed and closes a half-open breaker |
| `CircuitBreaker.Breaker.RecordFailure` | src/circuit_breaker/circuit_breaker.cc:66-82 | counts when closed and trips at the threshold; reopens a half-open breaker |
| `CircuitBreaker.Replay` | src/circuit_breaker/circuit_breaker.cc:12-102 | a new breaker fed with any events admits the counted requests and reports the streak as its count |

## Left out

- Protobuf: requests and responses are opaque, with serialisation and parsing as parameters; where a round trip is
  claimed, the schema is assumed to parse back what it serialises.
- System calls (`readv`, `write`, `connect`, `epoll_wait`, `getsockopt`) and clocks are parameters with every possible
  result; the time is a non-decreasing input.
- Object lifetime, memory orders and data races: steps are atomic, and nothing happens to a client after its
  destructor. The `assert` of `startInLoop` is taken as compiled out, as in the documented Release build; a build that
  keeps it stops in the runs where it fails.
- Wakeup, Ownership: threads interleave inside the operations, so these are modelled on values, step by step, and not
  as classes; update in place and aliasing are not captured there.
- PipelineClient.InlinePipelineClient.Finish: a callback may call `submit` any number of times; a callback that calls
  `pumpOnce` is not modelled.
- AsyncClient: callbacks are log entries (the code calls them under its lock, so they cannot call back); calls on a
  client that was refused its connection, which fail at once and take no id, are not modelled.
- AsyncClient: what is reported to the circuit breaker is not modelled. `handleTimeout` reports a failure before it
  looks for the request, so a request can report more than one result.
- CircuitBreaker: each operation is one step; the re-check of the state under the lock never sees a change.
- TokenBucket, Timers: `double` arithmetic (tokens and seconds) is exact arithmetic over the reals, and rounding is not
  modelled.
- Session: the client sends requests only, and a packet comes in only after as many requests have been sent.
- OutOfStep.OversizedReadOn: a body of 2^32 bytes or more whose length modulo 2^32 is within the limit is not covered;
  protobuf serialises at most 2^31 bytes, so only a heartbeat can have one.
- TcpConnection: the check in `send` on another thread and the queueing of its functor are one step; whatever comes
  between them has the same effect after both. The order of functors of different kinds in the loop's queue is left open.
- TcpConnection, Connector: events that epoll has already reported when a channel is removed are not modelled beyond
  repeated calls of `handleClose`; the connector is destroyed only between its handlers.
- Ownership: the check and the clearing in `release` of the pool are one step.
- ConsistentHash: MurmurHash is an arbitrary function to 32-bit numbers; the number of virtual nodes is not negative.
- 64-bit request and timer ids do not wrap; the cursor of the pool does.
- Pool.AcquireFinds: claims by other threads during one search are not modelled.
- Service discovery, etcd and redis clients, load-balancing endpoints (`getTcpClient`), interceptors other than their
  power to refuse, the memory registry, heartbeat timers, idle timeouts, logging: they would only add easy members.
