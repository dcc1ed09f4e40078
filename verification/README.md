# A verified model of EasyMicro

EasyMicro is an RPC framework in Go. This project models three parts of it and proves what they guarantee:

1. **The wire format.** The bit-packed header, the offset-and-copy encoder, the streaming encoder, the metadata
   block in 32-bit arithmetic, decoding into reused buffers, the message pool, and the server loop that reads
   frames through one buffered reader.
2. **One client connection, closed with the server.** A state machine whose steps are the sections under the
   client's mutex, the writes, the frames in transit, the running handlers and the reading goroutine, in every
   interleaving, with reordering, loss, failed writes, heartbeats, keepalive, reconnects and `Close`.
3. **What sits around a connection.** The list of nodes that discovery keeps, the round-robin selector, trace
   contexts and user metadata on their way into a handler, and the timing of heartbeats.

`dafny verify dfyconfig.toml` checks everything.

## How the files fit together

| files | content |
|---|---|
| `Bytes`, `Header`, `MetadataCodec`, `Frame`, `FrameLaws` | bytes, header fields, metadata block, frames as values and their laws |
| `Streams`, `Messages`, `Pool`, `Server`, `Responses` | reader, writer, message objects, pool, server loop and the client's reading of a response as imperative code, proved against those values |
| `PoolRuns` | the pool under any number of handlers at once |
| `Transitions`, `Client` | the sections under the mutex as functions, and the client object proved against them |
| `Connection` | the state machine of one connection and its server |
| `Exchange`, `Ledger`, `InFlight`, `Correlation`, `Completions`, `Origins`, `Traced` | what every run of it keeps |
| `Sending` | when the client last sent something |
| `Delivery` | how a frame gets through behind the frames sent before it |
| `Lifecycle`, `NilCalls`, `Unanswered`, `Answerable`, `Ends` | closing and reconnecting, failed writes, exactly which calls can still be answered, and who can still go on |
| `Witnesses` | runs that show which hypotheses are needed, and what the code does without them |
| `Text`, `Nodes`, `NodeLaws`, `Selector`, `Trace`, `TraceLaws`, `Keepalive` | discovery, selection, tracing and keepalive |

In the state machine a frame is its bytes: a request is encoded by the client's encoder and decoded by the server's
decoder, and so is the reply on its way back. `Exchange` follows one call through both encodings. The history
fields of a state (`taken`, `refused`, `closes`, `issued`, `heard`, `completions`, and `origin` in a frame) never decide
what a step does. A write is three steps, since its frame may leave and even be answered before the write returns, with
success or with an error. Client and server have codec tables of their own, and a codec decodes into the type of the
object it is given.

## What the model found

The code, not its documentation, is followed everywhere. These are the places where they differ or where a
property holds only under a condition; each has a lemma.

- A handler that returns an error is not answered (`server/easyconn.go:110-115`), although `handleError` fills in a
  response and the client of `examples/error` expects the error. So no caller is ever told of a remote error
  (`Correlation.EndToEnd`). A request is answered exactly when every look-up, decoding, the method and the encoding
  succeed (`Unanswered.AnsweredExactly`); otherwise no response ever reaches its caller
  (`Unanswered.DroppedForEver`, `Witnesses.RefusedHappens`), who waits for a close.
- A successful reconnect loses the responses of all calls that are pending then, because their frames and handlers
  belong to the old connection. Exactly those whose send has not ended can still be completed by something else than a
  close, namely by the error of the send (`Unanswered.RedialledExactly`).
- A `Close` between the first and last section of `reconnect` is undone by the reconnect, and the next `Close` closes
  `doneChan` a second time and panics. A close is final exactly when it does not land there
  (`Lifecycle.CloseIsFinalExactly`), and such a close happens (`Lifecycle.CloseInWindowHappens`).
- After a reconnect that fails for good, the reading goroutine locks the mutex and calls `close`, which locks it
  again. From then on nothing in the client changes (`Lifecycle.FrozenForEver`).
- When a heartbeat fails, keepalive closes the connection without completing its pending calls and without closing
  `doneChan`; a later `Close` has no effect, and the goroutine that waits for `doneChan` never ends
  (`Lifecycle.NeverCompleted`). Of the calls then pending, exactly those still being sent and the one whose response is
  in hand can still be completed, by the error of the send or by the response (`Lifecycle.KeepaliveOrphans`).
- A heartbeat whose write fails after its frame has left makes the reading goroutine call `done` on a nil call; any other
  call in its place does not (`NilCalls.NilCallExactly`, `Witnesses.DeliveredFailedWrite`).
- The client decodes every response into one message and never resets it, so a reply whose handler sent no metadata is
  delivered with the last metadata of the responses before it (`Origins.MetadataExactly`, `Witnesses.LeakHappens`).
- The client decodes into the caller's own reply object with its own codec table, so a genuine answer may still end in an
  error: a missing codec exactly when serialization is switched off and the table has no codec for that, an undecodable
  payload exactly when the codec rejects it for the type of the reply object (`Correlation.UnderstoodExactly`).
- The client reads every response through a new buffered reader of 1024 bytes and drops what that has read ahead. For
  frames shorter than the buffer nothing is lost if and only if the frame ends where one piece of the connection ends
  (`Responses.NothingDroppedExactly`); two short responses that arrive together lose the second
  (`Responses.SecondIsLost`). Larger frames are safe at such an end too (`Responses.NothingDropped`), and a frame that
  arrives in one piece with more behind it is safe exactly when it has the size of the buffer or at least twice that
  (`Responses.OnePieceExactly`).
- With `SerializeNone` the arguments of a call are not sent (`Exchange.ReplyIsGenuine`, through `ArgsAtServer`).
- Freeing a message whose magic byte was overwritten by a failed read would poison the pool
  (`Pool.MessagePool.Free`); the server never does this, because it drops messages it could not read.
- A node whose service path is not in lower case is added again by every event and never deleted
  (`NodeLaws.LowerNamesExactly`), and deleting its lower-case spelling then slices out of range
  (`NodeLaws.UpperCaseNode`).
- `Pick` on an empty list divides by zero (`Selector.RoundRobinSelector.Pick`).
- Trace contexts survive exactly when the baggage keys are in lower case and no key of the user is reserved
  (`TraceLaws.TraceRoundTrip`), also through both encodings and into the handler that answers (`Traced.TracedEndToEnd`).

## Model

| member | source | states |
|---|---|---|
| `Bytes.BigEndianDigit` | protocol/message.go:204-212 | each byte of a number is its digit in base 256, the most significant first |
| `Header.FieldBits` | protocol/message.go:135-212 | which bits of bytes 2 and 3 each getter reads, and that the number lies in bytes 4 to 11 |
| `Header.SetMessageTypeLaw` | protocol/message.go:135-143 | setting the message type changes that field only, and can turn a request into a response but not back |
| `Header.SetHeartbeatLaw` | protocol/message.go:145-157 | the heartbeat flag reads back, every other field keeps its value |
| `Header.SetOnewayLaw` | protocol/message.go:159-172 | the one-way flag reads back, every other field keeps its value |
| `Header.SetCompressTypeLaw` | protocol/message.go:174-182 | the three low bits of the compression type read back, every other field keeps its value |
| `Header.SetStatusTypeLaw` | protocol/message.go:184-192 | the two low bits of the status read back, every other field keeps its value |
| `Header.SetSerializeTypeLaw` | protocol/message.go:194-202 | the four low bits of the serialization type read back, every other field keeps its value |
| `Header.SetSeqLaw` | protocol/message.go:204-212 | every 64-bit sequence number reads back, every other field keeps its value |
| `Header.BlankFields` | protocol/message.go:105-113 | a new header has the magic byte 8 and every field zero |
| `MetadataCodec.EncodeMetadata` | protocol/message.go:344-360 | for every iteration order the loop writes the concatenation of the length-prefixed pairs in that order |
| `MetadataCodec.DecodeMetadata` | protocol/message.go:362-388 | the loop, with wrap-around and slice panics, computes the parse that the laws of blocks below describe |
| `MetadataCodec.StoreLastWins` | protocol/message.go:384-384 | of several pairs with one key the last one is kept |
| `MetadataCodec.BlockRoundTrip` | protocol/message.go:344-388 | encoding a map in any iteration order and decoding the block gives the same map, whatever follows it in the buffer |
| `MetadataCodec.BlockAcceptance` | protocol/message.go:362-388 | every block, whatever its length fields hold, is accepted exactly when it is a concatenation of complete pairs, with the last-wins map as result |
| `MetadataCodec.BlockTrichotomy` | protocol/message.go:362-388 | every block, whatever its lengths: accepted exactly if made of complete pairs, a slice panic exactly if behind complete pairs a length field ends behind the capacity or carries the offset past 32 bits to a value that passes the comparison, ErrMetaKVMissing otherwise |
| `MetadataCodec.BlockRejection` | protocol/message.go:362-388 | for blocks of at least four bytes in which no length the decoder comes to wraps: the panic is exactly a length field cut off by the capacity, and with three bytes of room every incomplete block is reported as ErrMetaKVMissing |
| `Frame.DecodeComplete` | protocol/message.go:401-490 | every frame of the grammar is decoded to its meaning and consumes exactly its bytes, whatever the reused buffer held |
| `Frame.DecodeSound` | protocol/message.go:401-490 | whatever is decoded without error was a frame of the grammar with that meaning |
| `Frame.Acceptance` | protocol/message.go:401-490 | decoding succeeds with a message and a rest if and only if the stream starts with a frame of the grammar meaning that message |
| `FrameLaws.WireLayout` | protocol/message.go:226-274 | where each part of an encoded frame lies, and that every length is four bytes, the most significant first |
| `FrameLaws.PairLayout` | protocol/message.go:344-360 | in a metadata block the key of a pair comes before its value, each behind its length |
| `FrameLaws.CompressedExactly` | protocol/message.go:232-245 | a payload that can be compressed goes out compressed under its own header, any other raw without compress bits |
| `FrameLaws.ReadErrorsExactly` | protocol/message.go:404-442 | for every stream, exactly when a wrong magic byte, a message above the limit, EOF and unexpected EOF are reported, the limit before a missing body |
| `FrameLaws.BodyErrorsExactly` | protocol/message.go:444-476 | for every body, a slice panic exactly if it does not start with three sections that can be passed, and ErrMetaKVMissing exactly if it starts with three sections of which the metadata block is incomplete |
| `FrameLaws.UnzipErrorsExactly` | protocol/message.go:478-489 | the compress bits decide: the raw payload, an unsupported compressor, a failed unzip, or the unzipped payload |
| `FrameLaws.RoundTrip` | protocol/message.go:226-274 | decoding an encoded message recovers header, path, method, metadata and payload, whether the payload is raw, compressed or fell back to raw |
| `FrameLaws.RoundTripExactly` | protocol/message.go:226-274 | the round trip holds exactly for messages with the magic byte, a body below 2^32 bytes and within the receiver's limit |
| `FrameLaws.StrictPrefix` | protocol/message.go:404-442 | every strict prefix of a frame is an error, EOF at the four cuts between reads and unexpected EOF elsewhere |
| `FrameLaws.Framing` | server/easyconn.go:77-87 | reading a concatenation of frames yields their messages in order, and what follows decides how the reading ends |
| `FrameLaws.BufferIndependence` | protocol/message.go:432-441 | a successful decode gives the same result for all stale contents of the reused buffer |
| `FrameLaws.MetadataLeak` | protocol/message.go:464-469 | decoding into a used message accepts the same frames as into a blank one, and differs in nothing but the metadata, which survives exactly when the frame has none |
| `Streams.Reader.Receive` | server/easyconn.go:77-77 | one read of the connection hands over its next piece, or as much of it as was asked for, nothing only at the end |
| `Streams.Reader.Read` | server/easyconn.go:77-77 | the buffered reader loses and reorders no byte, and what it keeps is what one refill of 1024 bytes leaves; larger requests pass it by when it is empty |
| `Streams.Reader.ReadFull` | protocol/message.go:405-441 | a full read takes exactly n bytes or reports EOF or unexpected EOF, independently of the cuts |
| `Streams.Writer.Write` | protocol/message.go:277-281 | a failing write leaves a prefix of its bytes behind |
| `Messages.Message.constructor` | protocol/message.go:105-113 | a new message is blank |
| `Messages.Message.Compress` | protocol/message.go:232-245 | the payload goes out compressed, or raw with the shared header's compress bits cleared |
| `Messages.Message.Encode` | protocol/message.go:226-274 | the buffer filled at computed offsets is the plain concatenation of the length-prefixed sections |
| `Messages.Message.WriteTo` | protocol/message.go:277-342 | the streaming encoder writes the same bytes when the payload can be compressed, a prefix of them when the writer fails, and at most the header when compression fails |
| `Messages.Message.ReadHeader` | protocol/message.go:404-416 | the magic byte is checked before the rest of the header is read, with the error each short stream gives |
| `Messages.Message.ReadData` | protocol/message.go:418-442 | the body lands in the reused or a new buffer, with stale bytes left behind it only in the reused one |
| `Messages.Message.DecodeData` | protocol/message.go:444-490 | the cursor over the buffer reads the sections that the value-level decoder reads, with the same panics |
| `Messages.Message.Decompress` | protocol/message.go:478-489 | the payload is unzipped, or the missing compressor or failed unzip is reported |
| `Messages.Message.Decode` | protocol/message.go:401-490 | for every way of cutting the stream the object ends up as the message that the grammar gives, with the reader behind the frame |
| `Messages.Message.Reset` | protocol/message.go:493-507 | everything but the magic byte is blank and the buffer is kept |
| `Pool.MessagePool.Get` | protocol/pool.go:5-19 | a message from the pool is blank and shares no array with a pooled one |
| `Pool.MessagePool.Free` | protocol/pool.go:21-27 | freeing keeps every pooled message blank exactly when the freed one has its magic byte |
| `Pool.Clone` | protocol/message.go:215-223 | the clone keeps header without compression, path and method, is otherwise blank, and shares nothing with the original |
| `Pool.CloneHeader` | protocol/message.go:215-223 | the header of a clone differs in the compress bits only |
| `PoolRuns.RunClean` | protocol/pool.go:17-27 | under every interleaving of handlers that get, read, clone, change, encode, free and drop messages, all pooled messages are blank |
| `PoolRuns.PooledIsNew` | protocol/pool.go:17-27 | in every such interleaving a message taken from the pool is blank, and decodes every stream as a new message does |
| `Server.HandledHeader` | server/server.go:305-377 | every response has message type 1, no compression, status 1 exactly if the request failed, and the other fields, path and method of its request |
| `Server.EchoHeader` | server/easyconn.go:89-92 | the echo of a heartbeat differs from it in the message type only |
| `Server.FailedExactly` | server/server.go:305-377 | exactly when a request fails and with which error, in the order of the look-ups; the error joins what the method sent, and there is no payload |
| `Server.SucceededWith` | server/server.go:335-368 | an answered request carries what the method sent and, unless it is one-way, its encoded reply |
| `Server.Fail` | server/server.go:370-377 | the response gets status 1 and the error text under `easymicro_error__` beside its other metadata, and no other header field changes |
| `Server.Invoke` | server/server.go:326-367 | the object ends up as the method's answer demands, on each of the four ways out |
| `Server.Dispatch` | server/server.go:305-368 | look-ups, decoding, call and encoding fill the response step by step to the value that the handler function gives, marked as a response |
| `Server.Handle` | server/server.go:305-368 | the response object and error agree with the handler function, the response is marked as one without compression, the request is unchanged, and the pool stays blank |
| `Server.WriteResponse` | server/easyconn.go:44-51 | one frame encoding the response goes out |
| `Server.Reply` | server/easyconn.go:110-118 | a handled request is answered by one frame, a failed one by nothing |
| `Server.ReceiveRequest` | server/easyconn.go:38-42 | a request is read into a blank message of the pool, and is the next message of the stream |
| `Server.ServeRequest` | server/easyconn.go:102-119 | the handler gets a context that some iteration order makes of the metadata; corrupt trace fields and handler errors are answered by nothing, everything else by the response, and the pool stays blank |
| `Server.ServeOne` | server/easyconn.go:89-97 | a heartbeat is echoed with nothing but its message type changed to 1, any other message is served, and the pool stays blank |
| `Server.ServeNext` | server/easyconn.go:80-97 | one turn of the loop handles the next message of the stream, and ends exactly when there is none |
| `Server.ServeConn` | server/easyconn.go:61-100 | through the single reader and the pool the loop sees exactly the messages of the byte stream, in order, and each answer depends on its message alone |
| `Responses.ClientConn.ReadResponse` | client/rpcclient.go:273-277 | a response is the next message of the stream; what the buffer holds behind it is dropped, which is nothing if the frame ends where a piece of the connection ends, and only then for frames shorter than the buffer |
| `Responses.NothingDroppedExactly` | client/rpcclient.go:273-277 | for every cut of the stream, a frame shorter than the buffer leaves nothing to drop if and only if it is a whole number of pieces |
| `Responses.NothingDropped` | client/rpcclient.go:273-277 | a frame of any size that is a whole number of pieces leaves the connection exactly behind it |
| `Responses.OnePieceExactly` | client/rpcclient.go:273-277 | of a frame in one piece with what follows, nothing is dropped if and only if nothing follows, or the frame has the size of the buffer or at least twice that |
| `Responses.SecondIsLost` | client/rpcclient.go:340-344 | of two short responses in one piece the first is read, and then the stream seems to end |
| `Client.CallObject.Finish` | client/rpcclient.go:411-421 | a completion sets the error and signals once, dropping the signal when the channel is full |
| `Client.RPCClient.EndPending` | client/rpcclient.go:329-332 | in any order every pending call gets the error and one signal |
| `Client.RPCClient.constructor` | client/rpcclient.go:596-605 | a new client is available, with an open connection and nothing pending |
| `Client.RPCClient.Register` | client/rpcclient.go:232-243 | an available client files the call under the next number, stores the time and leaves the call alone; any other completes it with ErrShutdown and one signal and stores nothing |
| `Client.RPCClient.Take` | client/rpcclient.go:359-363 | the entry is looked up and deleted in one section, and no other field changes |
| `Client.RPCClient.Abandon` | client/rpcclient.go:246-256 | a failed encode or write completes the call under that number, with its error and one signal, and no other |
| `Client.RPCClient.BeginReconnect` | client/rpcclient.go:177-184 | a client closed on purpose does not start to reconnect, any other is reconnecting |
| `Client.RPCClient.EndReconnect` | client/rpcclient.go:213-226 | the outcome of dialling overwrites the status whatever it was; a dialled connection is open, a failed dial leaves the connection alone |
| `Client.RPCClient.KeepaliveClose` | client/rpcclient.go:301-308 | an available client is closed together with its connection, without touching its calls or `doneChan`; any other is left alone |
| `Client.RPCClient.Close` | client/rpcclient.go:323-338 | for every visiting order each pending call is completed once with ErrShutdown and stays filed, and the connection is closed; it panics exactly when it takes effect on a closed `doneChan` |
| `Exchange.RequestHeaderFields` | client/rpcclient.go:108-135 | every header field of a request, from the options of its call |
| `Exchange.ReadEncoded` | protocol/message.go:401-490 | an encoded message that decodes at all decodes to itself, also under a length limit |
| `Exchange.RequestAtServerFields` | client/rpcclient.go:108-147 | the server's copy of a request has the call's own number, flags, path, method and metadata |
| `Exchange.ReadRequest` | server/easyconn.go:38-42 | the bytes of a request decode to that copy or not at all |
| `Exchange.DecodedArgs` | server/server.go:335-339 | the handler gets what its codec makes of the call's own arguments for the method's type, or of an empty payload when serialization is switched off |
| `Exchange.ReplyIsGenuine` | server/server.go:305-368 | whatever the server sends back for a request is marked as a response, carries its number, path and method, never an error status, and the encoded answer of the method it names |
| `Exchange.ReadReply` | client/rpcclient.go:273-277 | the bytes of a reply decode to that reply, with metadata left over if it has none |
| `Exchange.OutcomeJustified` | client/rpcclient.go:365-397 | what the client makes of a reply is what its codec makes of the method's answer for the reply object, with the metadata it sent or the metadata left over |
| `Exchange.ErrorReply` | client/rpcclient.go:423-429 | a response ends as a remote error exactly if its status is 1, with the text under `easymicro_error__` |
| `Exchange.TypedReply` | client/rpcclient.go:378-391 | with codecs that undo each other and matching types the reply is the method's own value for the call's own arguments |
| `Ledger.StepBalanced` | client/rpcclient.go:233-270 | every step, whatever arrives or fails, keeps the keys 1..seq split between pending and taken entries, each call under one key |
| `Ledger.TakenOnce` | client/rpcclient.go:246-270 | in every run what has been taken, by a response, a failed encode or a failed write, is never pending and never taken again |
| `Ledger.Conservation` | client/rpcclient.go:233-243 | `seq` is the number of pending entries plus the number taken |
| `InFlight.StepCoherent` | client/rpcclient.go:230-271 | every step, also a write that fails after delivery, keeps each frame, handler and response in flight under the number of one registered call with that call's own content, no number twice |
| `InFlight.ReadKeepsLast` | client/rpcclient.go:340-344 | the reused response always holds the last metadata that was read |
| `Correlation.RunCoherent` | client/rpcclient.go:230-271 | that invariant holds in every state of every run with fewer than 2^64 calls |
| `Correlation.MarkedResponses` | client/rpcclient.go:340-363 | in every such run whatever the client has read is marked as a response and names path and method of the call under its number |
| `Correlation.Containment` | client/rpcclient.go:359-368 | if failed writes deliver nothing, the numbers in flight are pending and pairwise different, also after timeouts and closes, and every response finds its call |
| `Correlation.StepHeld` | client/rpcclient.go:230-271 | every step keeps the numbers in flight pending, all of them or those of heartbeats, unless a write of such a call fails after its frame has left |
| `Correlation.NoNilHeartbeat` | client/rpcclient.go:365-368 | runs in which no heartbeat's write fails after its frame has left never end in the nil call |
| `NilCalls.NilCallExactly` | client/rpcclient.go:260-270 | from every such run, a frame now leaves although its write fails, within the limit and on a live connection whose frames can all be decoded: the client can panic, also with nothing lost and each connection's frames in their order, if and only if it is a heartbeat |
| `Correlation.OriginIsSeq` | protocol/message.go:204-212 | the number a frame's bytes decode to is the one its call was filed under |
| `Correlation.EndToEnd` | client/rpcclient.go:340-400 | in every run with fewer than 2^64 calls, whatever is lost, reordered or delivered by failing writes, what a caller is told of a reply is what the client makes of the answer of the method under the call's own path and name to its own arguments, heartbeats end as such, and no caller is told of a remote error |
| `Correlation.UnderstoodExactly` | client/rpcclient.go:378-391 | in those runs a call that is told of a response has been answered, and ends as a missing codec, an undecodable payload or a reply exactly as the codec of the client and the type of the reply object decide |
| `Correlation.TypedEndToEnd` | client/rpcclient.go:378-391 | in those runs, with codecs that undo each other and matching types, the reply is the method's own value for the call's own arguments |
| `Origins.MetadataOrigin` | client/rpcclient.go:340-393 | in every run all metadata that the client reads was sent for some call of this connection |
| `Origins.MetadataExactly` | client/rpcclient.go:393-395 | in every run a reply is delivered with its own handler's metadata if it sent any, and otherwise with exactly the last metadata of the responses before it |
| `Traced.TracedEndToEnd` | server/context.go:39-91 | in every run the handler whose answer a caller is told of was given the caller's own span and user metadata if and only if baggage keys are in lower case and no user key is reserved, for all iteration orders at both ends |
| `Completions.CountShutdown` | client/rpcclient.go:329-332 | the completions of a close count one for each pending call and none for others, in every visiting order |
| `Completions.CloseCompletesEach` | client/rpcclient.go:323-338 | an effective close adds one ErrShutdown to every pending call, and to no other, and leaves the table alone |
| `Completions.RunCounted` | client/rpcclient.go:246-270 | that count, in every state of every run with fewer than 2^64 calls |
| `Completions.ConservationOfCalls` | client/rpcclient.go:233-270 | in every run with fewer than 2^64 calls `seq` counts pending plus taken, no call is filed twice, registration never overwrites, completions other than ErrShutdown number one exactly for calls taken and dealt with, and those with ErrShutdown are exactly the refusal and the effective closes at which the call was pending |
| `Lifecycle.SuicideRun` | client/rpcclient.go:177-184 | in every run `suicide` holds exactly while the status is closed, so no reconnect starts from a closed client |
| `Lifecycle.CloseIsFinal` | client/rpcclient.go:319-338 | if no close lands inside a reconnect, closed is for ever, nothing is registered afterwards, and `doneChan` is closed at most once |
| `Lifecycle.CloseIsFinalExactly` | client/rpcclient.go:221-225 | a close stays in effect on all continuations if and only if it does not land inside a reconnect |
| `Lifecycle.ReopenAndCrash` | client/rpcclient.go:221-225 | a close inside a reconnect is followed by an available client and by a panic of the next close |
| `Lifecycle.CloseInWindowHappens` | client/rpcclient.go:177-228 | a run that closes inside a reconnect |
| `Lifecycle.FrozenForEver` | client/rpcclient.go:403-407 | from there no call is registered or completed and nothing is closed on any continuation |
| `Lifecycle.FailedReconnectHappens` | client/rpcclient.go:213-219 | a run that ends there |
| `Lifecycle.NeverCompleted` | client/rpcclient.go:301-308 | all others are never completed on any continuation, a later close has no effect, and `doneChan` stays as it is |
| `Lifecycle.KeepaliveOrphans` | client/rpcclient.go:301-308 | of the calls pending at keepalive's close, exactly those still being sent and the one whose response is in hand can still be completed, by the error of the write or the response |
| `Unanswered.AnsweredExactly` | server/easyconn.go:102-119 | a request is answered if and only if its trace fields parse, service, method and codec are found, its arguments decode, the method replies, and the reply can be encoded |
| `Unanswered.NeverInformed` | client/rpcclient.go:359-363 | once nothing on the way can lead to a response for a call, because of a dead connection, a failed decode or a handler without an answer, no continuation tells its caller of one |
| `Unanswered.NeverAnswered` | server/easyconn.go:110-115 | if its send has ended as well, no continuation completes it with anything but ErrShutdown |
| `Unanswered.DroppedForEver` | server/easyconn.go:110-115 | so it is after every loss of its frame, handler or response, and after every request that is not answered; while its write has not returned, only that can still complete it |
| `Unanswered.RedialledExactly` | client/rpcclient.go:221-225 | a reconnect loses the responses of all calls pending then, and exactly those whose send has not ended can still be completed by something else than a close |
| `Sending.LastSendExactly` | client/rpcclient.go:233-243 | in every run `lastSend` is the time of the last call that was registered, zero before the first |
| `Delivery.Fetched` | client/rpcclient.go:340-363 | on a connection whose frames can be decoded, every response comes into the client's hand after all those sent before it, with nothing lost and no write failing |
| `Delivery.Admits` | server/easyconn.go:77-99 | every request is accepted after all those sent before it, as an echo or as a handler |
| `Answerable.AnswerableExactly` | client/rpcclient.go:340-400 | in runs in which no heartbeat's write has failed after its frame left, and on a connection whose frames can be decoded: a pending call can still be told of a response if and only if it is not lost in that sense, also with nothing lost and the frames in their order |
| `Ends.ClosedIsSilent` | client/rpcclient.go:323-338 | after a close that takes effect no frame leaves on its connection, and none is read from it, in any run |
| `Ends.EndedIsSilent` | server/easyconn.go:61-87 | once the server loop of a connection has ended, by itself or by a frame it cannot decode, nothing is accepted from it or sent back over it |
| `Ends.GoesOnExactly` | client/rpcclient.go:340-409 | in every run before a panic the reading goroutine can go on unless it has ended or deadlocked, and calls can be sent and ended and the client closed exactly unless it has deadlocked |
| `Witnesses.DeliveredFailedWrite` | client/rpcclient.go:260-270 | a run in which a failed write that was delivered makes the client panic |
| `Witnesses.RaceHappens` | client/rpcclient.go:260-270 | a run in which the response comes first and the failing write finds nothing to take |
| `Witnesses.RefusedHappens` | server/easyconn.go:110-115 | a run in which a handler returns an error and its call is forgotten |
| `Witnesses.LeakHappens` | client/rpcclient.go:340-344 | a run in which the second caller is given the metadata of the first |
| `Witnesses.OrphanHappens` | client/rpcclient.go:301-308 | a run in which keepalive leaves a call behind |
| `Witnesses.SequenceWraps` | client/rpcclient.go:241-242 | a run of 2^64 + 1 registrations in which the last overwrites the first, whose call is lost without completion |
| `Selector.RoundRobinSelector.Pick` | client/selector.go:22-38 | the loop without a break returns the first available client strictly after the old index, nil exactly when there is none, and panics exactly on the empty list, also when the list has shrunk below the index |
| `Selector.PicksFollowCycle` | client/selector.go:22-38 | any number of picks follows the cyclic order of the available clients |
| `Selector.OneTurn` | client/selector.go:22-38 | one turn from any index meets every available client exactly once |
| `Selector.RoundRobin` | client/selector.go:22-38 | with k available clients any k consecutive picks return each of them exactly once, in cyclic order |
| `Selector.PickRound` | client/selector.go:22-38 | that many picks in a row return one turn of the cycle |
| `Nodes.NodeList.Find` | client/client.go:163-170 | the search finds the node exactly when it is listed |
| `Nodes.NodeList.Append` | client/client.go:184-185 | appending in place or into a larger array adds one element at the end |
| `Nodes.NodeList.Add` | client/client.go:161-191 | a node is dialled and appended under its lower-cased name exactly when it is not listed |
| `Nodes.NodeList.Remove` | client/client.go:198-202 | the rest of the list moves down inside the same array |
| `Nodes.NodeList.SweepAt` | client/client.go:196-205 | one turn of the loop over the old slice header |
| `Nodes.NodeList.Delete` | client/client.go:193-209 | the loop over the old slice header leaves the swept list, and panics exactly when the last element and an earlier one match |
| `NodeLaws.SweptExactly` | client/client.go:196-205 | the loop deletes exactly the matching nodes if and only if no two of them are neighbours |
| `NodeLaws.UniqueDeletes` | client/client.go:196-205 | without duplicates it never goes out of range and deletes exactly the node |
| `NodeLaws.AddedExactly` | client/client.go:164-188 | an addition keeps the list free of duplicates exactly when the lower-cased node is not listed under another spelling |
| `NodeLaws.ListRefinesSet` | client/client.go:161-209 | with lower-case names every history of additions, deletions and dial outcomes keeps the list free of duplicates, equal to the set it describes, in order of addition, and free of panics |
| `NodeLaws.UpperCaseNode` | client/rpcclient.go:595-604 | for every other name two additions duplicate the node, and a deletion of the lower-case spelling then panics |
| `NodeLaws.LowerNamesExactly` | client/client.go:161-209 | under one spelling of a name no history panics, and all are free of duplicates if and only if that spelling is in lower case |
| `Text.ToLower` | metadata/metadata.go:16-16 | every capital letter becomes the letter 32 places on, every other character stays |
| `Trace.New` | metadata/metadata.go:13-20 | for every iteration order the keys are lower-cased and each value comes from a key of that spelling |
| `Trace.NewClientSpanContext` | metadata/metadata.go:44-59 | for every iteration order the metadata of a span is its three fields under their names and its baggage under its prefix |
| `Trace.ExtractMdFromClientCtx` | client/rpcclient.go:611-626 | for every iteration order each key of the span has the value of the span, and every other key that of the user |
| `Trace.ExtractClientMd` | server/context.go:39-91 | for every iteration order the split takes each trace field from a key of that lower-case name, the rest as user metadata, and fails exactly when some trace field does not parse, as `Trace.CorruptExactly` says |
| `Trace.HexRoundTrip` | metadata/metadata.go:50-51 | every number printed in base 16 reads back |
| `Trace.ParseFormat` | server/context.go:48-72 | ids below 2^64 and both booleans parse back from their text |
| `Trace.ParseHexExactly` | server/context.go:48-59 | an id parses exactly if its text is not empty, spells digits of base 16 in either case, and their value is below 2^64 |
| `Trace.FormatHexExactly` | metadata/metadata.go:50-51 | an id is printed in lower-case digits without leading zeros |
| `Trace.BoolTexts` | server/context.go:60-64 | exactly the six texts for each of the two booleans parse, and how they are printed |
| `Trace.CorruptExactly` | server/context.go:46-65 | by the names and texts themselves: which keys are reserved, and which values of them are corrupt |
| `TraceLaws.TraceRoundTrip` | server/context.go:39-91 | printing, merging and splitting restore the span and the user metadata if and only if baggage keys are in lower case and no user key is reserved, for all iteration orders |
| `TraceLaws.PlainRoundTrip` | server/context.go:39-91 | without a span the user metadata arrives unchanged and alone if and only if no key is reserved |
| `TraceLaws.LoweredClean` | metadata/metadata.go:13-20 | lower-casing the keys neither frees nor creates reserved ones, and is idempotent |
| `Keepalive.NeverSilent` | client/rpcclient.go:279-311 | in every run consecutive sends are at most interval plus heartbeat timeout apart, and every delay computed from `lastSend` is between one second and the interval |
| `Keepalive.TickExactly` | client/rpcclient.go:283-311 | a tick sends a heartbeat exactly if the interval has passed since the second of the last send; otherwise the timer falls due within a second of the last send plus the interval |
| `Keepalive.OtherEventsExactly` | client/rpcclient.go:300-311 | after the answer to a heartbeat the timer is set to the whole interval, and a call leaves it alone |
| `Keepalive.GapsExactly` | server/easyconn.go:80-80 | that bound is the least one, and the default of 5 and 2 seconds is below the server's idle deadline of 10 |
| `Keepalive.SlowestRun` | client/rpcclient.go:279-311 | a run that reaches the bound |

## Left out

- Sockets, dialling, HTTP CONNECT and signals: a read, write or dial succeeds or fails, and a frame is delivered or lost, as it pleases.
- The `gateway` package and the HTTP handlers of the server: near copies of what is modelled, and the package refers to names that are defined nowhere.
- The etcd publisher and subscriber: the node list starts from a given sequence of additions and deletions.
- gzip, JSON, protobuf, msgpack and Thrift: compressors and codecs are arbitrary partial functions with an inverse law.
- Circuit breaker and rate limiter: the libraries are not part of this model.
- Reflection: a service is a map from method names to functions of the context extracted from the metadata, of the arguments and of an arbitrary rest of the world.
- `selectRPCClient` and the other wrappers of `Client`: they pass results on.
- The conversions between strings and byte slices that share memory: treated as the identity on contents, so a payload or path that aliases a reused buffer is not followed.
- Waiting between attempts in `reconnect`, `sendHeartBeat` and the accept loop: the attempts are one step that succeeds or fails.
- EndToEnd: assumes that each read of the client delivers one whole frame, because the client drops what a reader has buffered behind a frame (`Responses.ClientConn.ReadResponse`), and that fewer than 2^64 calls are registered, after which entries are overwritten (`Witnesses.SequenceWraps`); without serialization the `[]byte` reply that the codec hands over (codec/codec.go:39-42) shares the reused buffer of the response (protocol/message.go:432-435), so that the next response overwrites it, which the model does not show.
- Containment: assumes that a failed write delivers nothing; `NilCalls.NilCallExactly` says what happens otherwise.
- Connection: frames of one connection may overtake each other, which only adds runs, and the lemmas that promise a run from any state keep their order (`Delivery.Smooth`); a frame leaves whole or not at all, also when its write fails; messages whose body reaches 2^32 bytes cannot be encoded correctly (`FrameLaws.RoundTripExactly`) and do not occur in its runs; both ends share their compressors and length limit.
- ServeConn: runs each handler to its end before the next read; handlers that run concurrently and reorder responses are in `Connection`.
- Invoke: does not model the pools of argument and reply objects.
- PooledIsNew: works on values and does not follow the sharing of arrays, which `Pool.MessagePool` does for one handler at a time.
- RPCClient: its methods are the sections under the mutex; the loops of `input`, `keepalive` and `reconnect`, which wait between sections, are steps of `Connection`.
- NeverSilent: assumes ideal timers, a connection that stays available, sends that take no time, and heartbeats answered at the first attempt within their timeout.
- Pick: the statuses do not change while it runs, and the index does not reach the largest `int64`.
- Add: events are sequential; two concurrent additions of one node may both find it missing, because the lock is released for dialling.
- ToLower: lower-cases ASCII only, where the original follows Unicode.
- ExtractClientMd: a byte above 127 is one character here, where the original decodes UTF-8.
- WriteTo: its error values are not told apart.
