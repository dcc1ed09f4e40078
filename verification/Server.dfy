/** The server side of one connection: dispatch of a request, and the loop that reads and answers. */
module Server {
  import opened Bytes
  import opened Header
  import opened MetadataCodec
  import opened Frame
  import opened FrameLaws
  import opened Streams
  import opened Messages
  import opened Pool
  import Trace

  /** Arguments and replies, and their Go types. */
  type Value(==, !new, 0)

  type Shape(==, !new, 0)

  /** A payload codec; decoding is directed by the type of the object decoded into, and both may fail. */
  datatype Codec = Codec(encode: Value -> Option<Bytes>, decode: (Shape, Bytes) -> Option<Value>)

  /** What a service method does: its reply or error, and the map given to `SendMetaData`, if it was called. */
  datatype Answer =
    | Replied(reply: Value, sent: Option<Metadata>)
    | Refused(error: Bytes, sent: Option<Metadata>)

  /** What a handler is given besides its arguments: the context from the request, and the rest of the world. */
  datatype World = World(ctx: Trace.Extracted, rest: nat)

  /** The context is one that some iteration order makes of the metadata. */
  ghost predicate Conveyed(md: Metadata, world: World) { Trace.Split(Trace.Texts(md), Some(world.ctx)) }

  ghost predicate Possible(md: Metadata, world: World) { Trace.Parses(md) ==> Conveyed(md, world) }

  /** A service method: the type of its arguments, and a function of the world and the arguments. */
  datatype Method = Method(args: Shape, run: (World, Value) -> Answer)

  /**
   * The processes at both ends: the type of each value, the wire configuration, the codec table of the server and
   * that of the client, the registered services, and the texts of the errors made by `handleRequest` itself.
   */
  datatype Env = Env(
    shapeOf: Value -> Shape,
    wire: Wire,
    codecs: map<bv8, Codec>,
    clientCodecs: map<bv8, Codec>,
    services: map<Bytes, map<Bytes, Method>>,
    text: Problem -> Bytes)

  datatype Problem = NoService | NoMethod | NoCodec | BadArguments | BadReply

  const RESPONSE: bv8 := 1
  const ERROR_STATUS: bv8 := 1

  /** "easymicro_error__" */
  const SERVICE_ERROR: Bytes :=
    [101, 97, 115, 121, 109, 105, 99, 114, 111, 95, 101, 114, 114, 111, 114, 95, 95]

  datatype Handled = Handled(res: Msg, err: Option<Bytes>)

  /** `handleError`: the error goes into the response as well as to the caller. */
  function HandleError(res: Msg, err: Bytes): (h: Handled)
    ensures h.err == Some(err) && h.res.metadata.Some? && h.res.path == res.path && h.res.method_ == res.method_
  {
    Handled(res.(header := WithStatusType(res.header, ERROR_STATUS),
                 metadata := Some(res.Entries()[SERVICE_ERROR := err])),
            Some(err))
  }

  function HandleRequest(env: Env, req: Msg, world: World): Handled {
    var clone := CloneOf(req);
    var res := clone.(header := WithMessageType(clone.header, RESPONSE));
    if req.path !in env.services then HandleError(res, env.text(NoService))
    else if req.method_ !in env.services[req.path] then HandleError(res, env.text(NoMethod))
    else if SerializeType(req.header) !in env.codecs then HandleError(res, env.text(NoCodec))
    else
      Served(env, req, res, world)
  }

  /** The part of `handleRequest` behind the look-ups. */
  function Served(env: Env, req: Msg, res: Msg, world: World): Handled
    requires req.path in env.services && req.method_ in env.services[req.path]
    requires SerializeType(req.header) in env.codecs
  {
    var codec := env.codecs[SerializeType(req.header)];
    var m := env.services[req.path][req.method_];
    match codec.decode(m.args, req.payload)
    case None => HandleError(res, env.text(BadArguments))
    case Some(args) =>
      match m.run(world, args)
      case Refused(e, sent) => HandleError(res.(metadata := sent), e)
      case Replied(reply, sent) =>
        var res1 := res.(metadata := sent);
        if IsOneway(req.header) then Handled(res1, None)
        else
          match codec.encode(reply)
          case None => HandleError(res1, env.text(BadReply))
          case Some(data) => Handled(res1.(payload := data), None)
  }

  /** What a response says of its request: marked as one, without compression, with the error status if it failed. */
  ghost predicate IsResponseTo(req: Msg, res: Msg, failed: bool) {
    && MessageType(res.header) == 1
    && View(res.header)
    == View(req.header).(response := true, compress := 0, status := if failed then 1 else View(req.header).status)
    && res.path == req.path && res.method_ == req.method_
  }

  /** Whatever became of the request. */
  lemma HandledHeader(env: Env, req: Msg, world: World)
    ensures var h := HandleRequest(env, req, world); IsResponseTo(req, h.res, h.err.Some?)
  {
    hide View;
    var h0 := WithCompressType(req.header, 0);
    var h1 := WithMessageType(h0, RESPONSE);
    SetCompressTypeLaw(req.header, 0);
    SetMessageTypeLaw(h0, RESPONSE);
    SetStatusTypeLaw(h1, ERROR_STATUS);
    ResponseFlag(HandleRequest(env, req, world).res.header);
  }

  lemma ResponseFlag(h: HeaderBytes)
    ensures View(h).response <==> MessageType(h) == 1
  {
  }

  /** The echo of a heartbeat differs from it in the response flag only. */
  lemma EchoHeader(req: Msg)
    ensures MessageType(Echo(req).header) == 1 && View(Echo(req).header) == View(req.header).(response := true)
    ensures Echo(req) == req.(header := Echo(req).header)
  {
    hide View;
    SetMessageTypeLaw(req.header, RESPONSE);
    ResponseFlag(Echo(req).header);
  }

  /** The metadata that the method set, if it was reached and called `SendMetaData`. */
  function SentBy(answer: Answer): Metadata { if answer.sent.Some? then answer.sent.value else map[] }

  /** Why a request fails; the look-ups come in this order. */
  ghost predicate FailsWith(env: Env, req: Msg, world: World, err: Bytes, sent: Metadata) {
    if req.path !in env.services then err == env.text(NoService) && sent == map[]
    else if req.method_ !in env.services[req.path] then err == env.text(NoMethod) && sent == map[]
    else
      var m, t := env.services[req.path][req.method_], SerializeType(req.header);
      if t !in env.codecs then err == env.text(NoCodec) && sent == map[]
      else if env.codecs[t].decode(m.args, req.payload) == None then err == env.text(BadArguments) && sent == map[]
      else
        var args: Option<Value> := env.codecs[t].decode(m.args, req.payload);
        var answer := m.run(world, args.value);
        sent == SentBy(answer)
        && match answer
           case Refused(e, _) => err == e
           case Replied(reply, _) =>
             err == env.text(BadReply) && !IsOneway(req.header) && env.codecs[t].encode(reply) == None
  }

  /** A request fails exactly then, and gets its error under one key, beside what the method sent, and no payload. */
  lemma FailedExactly(env: Env, req: Msg, world: World) returns (sent: Metadata, key: Bytes)
    ensures var h := HandleRequest(env, req, world);
            if h.err.Some? then
              && FailsWith(env, req, world, h.err.value, sent) && Trace.Chars(key) == "easymicro_error__"
              && h.res.metadata == Some(sent[key := h.err.value]) && h.res.payload == []
            else
              forall err, any :: !FailsWith(env, req, world, err, any)
  {
    hide WithCompressType, WithMessageType, WithStatusType, SerializeType, IsOneway;
    sent, key := map[], SERVICE_ERROR;
    ServiceErrorText();
    if req.path in env.services && req.method_ in env.services[req.path] && SerializeType(req.header) in env.codecs {
      var m := env.services[req.path][req.method_];
      var args: Option<Value> := env.codecs[SerializeType(req.header)].decode(m.args, req.payload);
      if args != None {
        sent := SentBy(m.run(world, args.value));
      }
    }
  }

  lemma ServiceErrorText()
    ensures Trace.Chars(SERVICE_ERROR) == "easymicro_error__"
  {
  }

  /** An answered request gets what the method sent, and its encoded reply unless it is one-way. */
  lemma SucceededWith(env: Env, req: Msg, world: World) returns (args: Value, answer: Answer)
    requires HandleRequest(env, req, world).err == None
    ensures req.path in env.services && req.method_ in env.services[req.path]
    ensures SerializeType(req.header) in env.codecs
    ensures var h, m := HandleRequest(env, req, world), env.services[req.path][req.method_];
            var codec := env.codecs[SerializeType(req.header)];
            && codec.decode(m.args, req.payload) == Some(args) && m.run(world, args) == answer && answer.Replied?
            && h.res.metadata == answer.sent
            && (if IsOneway(req.header) then h.res.payload == []
                else codec.encode(answer.reply) == Some(h.res.payload))
  {
    hide WithCompressType, WithMessageType, WithStatusType, SerializeType, IsOneway;
    var m := env.services[req.path][req.method_];
    var read: Option<Value> := env.codecs[SerializeType(req.header)].decode(m.args, req.payload);
    assert read != None;
    args := read.value;
    answer := m.run(world, args);
  }

  /** No step of the handler touches the magic byte. */
  lemma HandledMagic(env: Env, req: Msg, world: World)
    ensures HandleRequest(env, req, world).res.header[0] == req.header[0]
  {
  }

  /** The response that goes out for a request, if any: none for a request that fails in any way. */
  function Response(env: Env, req: Msg, world: World): Option<Msg> {
    if !Trace.Parses(req.Entries()) then None
    else
      var h := HandleRequest(env, req, world);
      if h.err.Some? then None else Some(h.res)
  }

  /** The answer to a heartbeat is the heartbeat itself, marked as a response. */
  function Echo(req: Msg): Msg { req.(header := WithMessageType(req.header, RESPONSE)) }

  // The same on message objects.

  method Fail(res: Message, err: Bytes)
    requires res.Valid()
    modifies res`metadata, res.header
    ensures res.Valid() && res.Value() == HandleError(old(res.Value()), err).res
    ensures View(res.header[..]) == View(old(res.header[..])).(status := 1)
    ensures exists key :: Trace.Chars(key) == "easymicro_error__"
              && res.metadata == Some(old(res.Value()).Entries()[key := err])
  {
    SetStatusTypeLaw(res.header[..], 1);
    assert Trace.Chars(SERVICE_ERROR) == "easymicro_error__";
    res.SetStatusType(ERROR_STATUS);
    var md := if res.metadata.Some? then res.metadata.value else map[];
    res.metadata := Some(md[SERVICE_ERROR := err]);
  }

  method Handle(pool: MessagePool, env: Env, req: Message, world: World) returns (res: Message, err: Option<Bytes>)
    requires pool.Valid() && pool.InUse(req)
    modifies pool, pool.free
    ensures pool.Valid() && pool.InUse(req) && pool.InUse(res) && res.Apart(req)
    ensures req.Value() == old(req.Value()) && req.header == old(req.header) && req.data == old(req.data)
    ensures Handled(res.Value(), err) == HandleRequest(env, old(req.Value()), world)
    ensures IsResponseTo(old(req.Value()), res.Value(), err.Some?)
    ensures pool.free <= old(pool.free) && fresh(res.header)
    ensures res in old(pool.free) || fresh(res)
    ensures pool.repr == old(pool.repr) && (res.data in pool.repr || fresh(res.data))
  {
    hide CloneOf, HandleRequest, IsResponseTo;
    res := Clone(pool, req);
    err := Dispatch(env, req, res, world);
  }

  method Dispatch(env: Env, req: Message, res: Message, world: World) returns (err: Option<Bytes>)
    requires req.Valid() && res.Valid() && req.Apart(res) && res.Value() == CloneOf(req.Value())
    modifies res`metadata, res`payload, res.header
    ensures res.Valid() && Handled(res.Value(), err) == HandleRequest(env, req.Value(), world)
    ensures IsResponseTo(req.Value(), res.Value(), err.Some?)
  {
    hide CloneOf, HandleError, Served, IsResponseTo;
    HandledHeader(env, req.Value(), world);
    res.SetMessageType(RESPONSE);
    if req.path !in env.services {
      err := Some(env.text(NoService));
    } else if req.method_ !in env.services[req.path] {
      err := Some(env.text(NoMethod));
    } else if SerializeType(req.header[..]) !in env.codecs {
      err := Some(env.text(NoCodec));
    } else {
      err := Invoke(env, req, res, world);
    }
    if err.Some? {
      Fail(res, err.value);
    }
  }

  /** Decoding the arguments, calling the method and encoding the reply. */
  method Invoke(env: Env, req: Message, res: Message, world: World) returns (err: Option<Bytes>)
    requires req.Valid() && res.Valid() && req.Apart(res)
    requires req.path in env.services && req.method_ in env.services[req.path]
    requires SerializeType(req.header[..]) in env.codecs
    modifies res`metadata, res`payload
    ensures res.Valid()
    ensures if err == None then Handled(res.Value(), None) == Served(env, req.Value(), old(res.Value()), world)
            else HandleError(res.Value(), err.value) == Served(env, req.Value(), old(res.Value()), world)
  {
    hide HandleError;
    var codec := env.codecs[SerializeType(req.header[..])];
    var m := env.services[req.path][req.method_];
    match codec.decode(m.args, req.payload)
    case None => return Some(env.text(BadArguments));
    case Some(args) =>
      match m.run(world, args)
      case Refused(e, sent) =>
        res.metadata := sent;
        return Some(e);
      case Replied(reply, sent) =>
        res.metadata := sent;
        if !IsOneway(req.header[..]) {
          match codec.encode(reply)
          case None => return Some(env.text(BadReply));
          case Some(data) => res.payload := data;
        }
        return None;
  }

  /** `writeResponse`: the bytes handed to the connection, a frame with some order of the metadata. */
  method WriteResponse(w: Wire, m: Message) returns (sent: Bytes)
    requires m.Valid()
    modifies m.header
    ensures m.header[0] == old(m.header[0])
    ensures IsEncoding(w, old(m.Value()), sent)
  {
    ghost var before := m.Value();
    var order := AnyOrder(m.Value().Entries());
    var frame := m.Encode(w, order);
    sent := frame[..];
    SetCompressTypeLaw(before.header, 0);
  }

  ghost predicate IsEncoding(w: Wire, m: Msg, frame: Bytes) {
    exists order :: Enumerates(order, m.Entries()) && frame == Encoded(w, m, order)
  }

  /** The iteration order of a range loop over a map. */
  method AnyOrder(m: Metadata) returns (order: seq<Bytes>)
    ensures Enumerates(order, m)
  {
    order := [];
    var left := m.Keys;
    while left != {}
      invariant left <= m.Keys
      invariant forall k :: k in order <==> k in m && k !in left
      invariant forall i, j | 0 <= i < j < |order| :: order[i] != order[j]
      decreases |left|
    {
      var k :| k in left;
      left := left - {k};
      order := order + [k];
    }
  }

  const NO_CONTEXT := Trace.Extracted(None, None)

  /** `handleTrueRequest`. */
  method ServeRequest(pool: MessagePool, env: Env, req: Message, rest: nat) returns (ghost world: World, sent: Bytes)
    requires pool.Valid() && pool.InUse(req) && req.header[0] == MAGIC
    modifies pool, pool.free, req, req.header
    ensures pool.Valid() && fresh(pool.repr - old(pool.repr) - old(req.Objects()))
    ensures Possible(old(req.Value()).Entries(), world) && Answers(env, old(req.Value()), world, sent)
  {
    hide IsEncoding, HandleRequest, Trace.Split, Trace.Texts, Trace.Parses;
    sent := [];
    var entries := if req.metadata.Some? then req.metadata.value else map[];
    world := World(NO_CONTEXT, rest);
    var ctx := Trace.ExtractClientMd(Trace.Texts(entries));
    Trace.SplitParses(entries, ctx);
    if ctx.Some? {
      world := World(ctx.value, rest);
      sent := Reply(pool, env, req, World(ctx.value, rest));
    }
    pool.Free(req);
  }

  /** A response is written, and goes back to the pool. */
  method WriteBack(pool: MessagePool, w: Wire, m: Message) returns (sent: Bytes)
    requires pool.Valid() && pool.InUse(m) && m.header[0] == MAGIC
    modifies pool, m, m.header
    ensures pool.Valid() && pool.repr == old(pool.repr) + old(m.Objects()) && pool.free == old(pool.free) + {m}
    ensures m.header == old(m.header) && m.data == old(m.data)
    ensures IsEncoding(w, old(m.Value()), sent)
  {
    hide IsEncoding;
    sent := WriteResponse(w, m);
    pool.Free(m);
  }

  /** Handling and writing back; on an error the response object is dropped without being pooled. */
  method Reply(pool: MessagePool, env: Env, req: Message, world: World) returns (sent: Bytes)
    requires pool.Valid() && pool.InUse(req) && req.header[0] == MAGIC
    modifies pool, pool.free
    ensures pool.Valid() && pool.InUse(req) && fresh(pool.repr - old(pool.repr))
    ensures req.header[0] == MAGIC && req.header == old(req.header) && req.data == old(req.data)
    ensures var h := HandleRequest(env, old(req.Value()), world);
            if h.err.Some? then sent == [] else IsEncoding(env.wire, h.res, sent)
  {
    hide IsEncoding, HandleRequest, IsResponseTo;
    sent := [];
    HandledMagic(env, req.Value(), world);
    var res, err := Handle(pool, env, req, world);
    if err == None {
      sent := WriteBack(pool, env.wire, res);
    }
  }

  /** What is written for a request: one frame with the response, or nothing. */
  ghost predicate Answers(env: Env, req: Msg, world: World, sent: Bytes) {
    match Response(env, req, world)
    case None => sent == []
    case Some(m) => IsEncoding(env.wire, m, sent)
  }

  ghost predicate Serves(env: Env, req: Msg, world: World, sent: Bytes) {
    if IsHeartbeat(req.header) then IsEncoding(env.wire, Echo(req), sent)
    else Possible(req.Entries(), world) && Answers(env, req, world, sent)
  }

  /** Handling of one decoded message; the handler goroutine is run to its end before the next read. */
  method ServeOne(pool: MessagePool, env: Env, req: Message, rest: nat) returns (ghost world: World, sent: Bytes)
    requires pool.Valid() && pool.InUse(req) && req.header[0] == MAGIC
    modifies pool, pool.free, req, req.header
    ensures pool.Valid() && fresh(pool.repr - old(pool.repr) - old(req.Objects()))
    ensures Serves(env, old(req.Value()), world, sent)
    ensures IsHeartbeat(old(req.header[..])) ==> exists m ::
              && IsEncoding(env.wire, m, sent) && m == old(req.Value()).(header := m.header)
              && MessageType(m.header) == 1 && View(m.header) == View(old(req.header[..])).(response := true)
  {
    EchoHeader(req.Value());
    hide Answers, IsEncoding;
    if IsHeartbeat(req.header[..]) {
      SetMessageTypeLaw(req.header[..], RESPONSE);
      req.SetMessageType(RESPONSE);
      world := World(NO_CONTEXT, rest);
      sent := WriteBack(pool, env.wire, req);
    } else {
      world, sent := ServeRequest(pool, env, req, rest);
    }
  }

  /** `readRequest`: a pooled message, and a decode into it. */
  method ReceiveRequest(pool: MessagePool, w: Wire, r: Reader) returns (req: Message, done: bool)
    requires pool.Valid() && r.Valid()
    modifies pool, pool.repr, r
    ensures pool.Valid() && r.Valid() && pool.repr == old(pool.repr)
    ensures done <==> DecodeAll(w, old(r.Rest())) == []
    ensures !done ==>
      && pool.InUse(req) && req.header[0] == MAGIC && fresh(req.Objects() - pool.repr)
      && |r.Rest()| < |old(r.Rest())|
      && DecodeAll(w, old(r.Rest())) == [req.Value()] + DecodeAll(w, r.Rest())
  {
    hide Frame.Decode, DecodeAll, AfterFrame, LengthAt;
    req := pool.Get();
    ghost var stream, stale := r.Rest(), req.data[..];
    var res := req.Decode(w, r);
    DecodeFresh(w, stale, stream);
    done := res != Done;
  }

  /** One turn of the loop: reading a message, and the handling of what was read. */
  method ServeNext(pool: MessagePool, env: Env, r: Reader)
    returns (done: bool, ghost m: Msg, ghost world: World, sent: Bytes)
    requires pool.Valid() && r.Valid()
    modifies pool, pool.repr, r
    ensures pool.Valid() && r.Valid() && fresh(pool.repr - old(pool.repr))
    ensures done <==> DecodeAll(env.wire, old(r.Rest())) == []
    ensures !done ==>
      && |r.Rest()| < |old(r.Rest())|
      && DecodeAll(env.wire, old(r.Rest())) == [m] + DecodeAll(env.wire, r.Rest())
      && Serves(env, m, world, sent)
  {
    hide Serves, DecodeAll;
    var req;
    req, done := ReceiveRequest(pool, env.wire, r);
    m, world, sent := BLANK_MSG, World(NO_CONTEXT, 0), [];
    if !done {
      var any: nat := *;
      m := req.Value();
      world, sent := ServeOne(pool, env, req, any);
    }
  }

  /**
   * The loop of one connection: through the single reader it sees exactly the messages of the stream, and
   * what it sends for each is decided by that message alone.
   */
  method ServeConn(pool: MessagePool, env: Env, r: Reader)
    returns (ghost seen: seq<Msg>, ghost worlds: seq<World>, sent: seq<Bytes>)
    requires pool.Valid() && r.Valid()
    modifies pool, pool.repr, r
    ensures pool.Valid()
    ensures seen == DecodeAll(env.wire, old(r.Rest())) && |worlds| == |sent| == |seen|
    ensures forall i | 0 <= i < |seen| :: Serves(env, seen[i], worlds[i], sent[i])
  {
    hide Serves, DecodeAll;
    seen, worlds, sent := [], [], [];
    while true
      invariant pool.Valid() && r.Valid() && fresh(pool.repr - old(pool.repr))
      invariant DecodeAll(env.wire, old(r.Rest())) == seen + DecodeAll(env.wire, r.Rest())
      invariant |worlds| == |sent| == |seen|
      invariant forall i | 0 <= i < |seen| :: Serves(env, seen[i], worlds[i], sent[i])
      decreases |r.Rest()|
    {
      ghost var m, world;
      var done, frame;
      done, m, world, frame := ServeNext(pool, env, r);
      if done {
        return;
      }
      seen, worlds, sent := seen + [m], worlds + [world], sent + [frame];
    }
  }

  /** Decoding into a blank message of the pool continues the list of messages of the stream. */
  lemma DecodeFresh(w: Wire, stale: Bytes, stream: Bytes)
    ensures var r := Decode(w, None, stale, stream);
            if r.Ok? then DecodeAll(w, stream) == [r.msg] + DecodeAll(w, r.rest) && |r.rest| < |stream|
            else DecodeAll(w, stream) == []
  {
    if Decode(w, None, stale, stream).Ok? {
      BufferIndependence(w, None, stale, [], stream);
    } else if Decode(w, None, [], stream).Ok? {
      BufferIndependence(w, None, [], stale, stream);
    }
  }
}
