/** One request and its reply, followed through both encodings: the content of every frame of an exchange. */
module Exchange {
  import opened Bytes
  import opened Header
  import opened MetadataCodec
  import opened Frame
  import opened FrameLaws
  import opened Pool
  import opened Server
  import Trace
  import opened Connection

  /** Compressors undo themselves. */
  ghost predicate LawfulEnv(env: Env) { Lawful(env.wire) }

  lemma RequestHeaderFields(call: Call, k: nat)
    requires k < U64
    ensures RequestHeader(call, k)[0] == MAGIC
    ensures View(RequestHeader(call, k))
         == Fields(0x08, 0, false, call.heartbeat, false, if call.compress then 1 else 0, 0,
                   call.serialize & 0x0F, k)
  {
    hide View;
    var h := WithHeartbeat(BLANK, call.heartbeat);
    var h1 := if call.compress then WithCompressType(h, GZIP) else h;
    var h2 := WithSeqNo(h1, k);
    BlankFields();
    SetHeartbeatLaw(BLANK, call.heartbeat);
    SetCompressTypeLaw(h, GZIP);
    SetSeqLaw(h1, k);
    SetSerializeTypeLaw(h2, call.serialize);
  }

  /** The header that arrives differs from the one built at most in the compress bits. */
  lemma CompressedHeader(w: Wire, h: HeaderBytes, payload: Bytes)
    ensures var h' := Compressed(w, h, payload).0;
            h'[0] == h[0] && exists c :: View(h') == View(h).(compress := c)
  {
    hide View;
    SetCompressTypeLaw(h, 0);
    assert View(h) == View(h).(compress := View(h).compress);
  }

  /** A frame that decodes at all decodes to its message. */
  lemma ReadEncoded(w: Wire, m: Msg, order: seq<Bytes>, prior: Option<Metadata>)
    requires Lawful(w) && Enumerates(order, m.Entries()) && |BodyOf(w, m, order)| < U32 && m.header[0] == MAGIC
    ensures var r := Decode(w, prior, [], Encoded(w, m, order));
            r.Ok? ==> r == Ok(Received(w, m, prior), [])
  {
    var frame := Encoded(w, m, order);
    assert frame + [] == frame;
    if Sendable(w, m, order) {
      RoundTrip(w, m, order, prior, [], []);
    } else {
      hide BodyOf, DecodeBody;
      LayoutOffsets(Compressed(w, m.header, m.payload).0, BodyOf(w, m, order), []);
    }
  }

  // The request at the server.

  /** The message the server decodes for a call sent under `k`. */
  function RequestAtServer(env: Env, call: Call, k: nat): Msg
    requires Request(env, call, k).Some?
  {
    Received(env.wire, Request(env, call, k).value, None)
  }

  lemma RequestAtServerFields(env: Env, call: Call, k: nat)
    requires k < U64 && Request(env, call, k).Some?
    ensures var req := RequestAtServer(env, call, k);
            && req.header[0] == MAGIC && SeqNo(req.header) == k
            && IsHeartbeat(req.header) == call.heartbeat && !IsOneway(req.header)
            && StatusType(req.header) == 0 && SerializeType(req.header) == call.serialize & 0x0F
            && req.path == call.path && req.method_ == call.method_ && req.Entries() == call.md
            && req.payload == Request(env, call, k).value.payload
  {
    hide Compressed, RequestHeader, MessageType, IsHeartbeat, IsOneway, CompressType, StatusType, SerializeType, SeqNo;
    var m := Request(env, call, k).value;
    RequestHeaderFields(call, k);
    CompressedHeader(env.wire, m.header, m.payload);
    assert m.header == RequestHeader(call, k);
    assert m.Entries() == call.md;
  }

  ghost predicate RequestFrame(env: Env, call: Call, k: nat, bytes: Bytes) {
    && Request(env, call, k).Some?
    && var m := Request(env, call, k).value;
       exists order :: Framed(env, m, order) && bytes == Encoded(env.wire, m, order)
  }

  lemma ReadRequest(env: Env, call: Call, k: nat, bytes: Bytes)
    requires LawfulEnv(env) && k < U64 && RequestFrame(env, call, k, bytes)
    ensures var r := Frame.Decode(env.wire, None, [], bytes); r.Ok? ==> r.msg == RequestAtServer(env, call, k)
  {
    hide Encoded, Frame.Decode, Received, RequestHeader;
    var m := Request(env, call, k).value;
    var order :| Framed(env, m, order) && bytes == Encoded(env.wire, m, order);
    RequestHeaderFields(call, k);
    ReadEncoded(env.wire, m, order, None);
  }

  // The reply.

  /** The type of serialization of a call, as both headers carry it. */
  function Serialization(call: Call): bv8 { call.serialize & 0x0F }

  /** The arguments a handler of that type sees: nothing is sent when serialization is switched off. */
  function ArgsAtServer(env: Env, call: Call, shape: Shape): Option<Value> {
    var t := Serialization(call);
    if t !in env.codecs then None
    else if call.serialize == 0 then env.codecs[t].decode(shape, [])
    else if t !in env.clientCodecs then None
    else
      match env.clientCodecs[t].encode(call.args)
      case None => None
      case Some(data) => env.codecs[t].decode(shape, data)
  }

  /** The service method registered for the call's own path and method, run on the call's own arguments. */
  ghost predicate Answered(env: Env, call: Call, world: World, reply: Value, sent: Option<Metadata>) {
    && Conveyed(call.md, world) && call.path in env.services && call.method_ in env.services[call.path]
    && var m := env.services[call.path][call.method_];
       var args := ArgsAtServer(env, call, m.args);
       args.Some? && m.run(world, args.value) == Replied(reply, sent)
  }

  /** An answer together with its encoding. */
  ghost predicate AnsweredAs(env: Env, call: Call, world: World, reply: Value, sent: Option<Metadata>, data: Bytes) {
    && Answered(env, call, world, reply, sent)
    && Serialization(call) in env.codecs && env.codecs[Serialization(call)].encode(reply) == Some(data)
  }

  /** A message that the server sends back for the call. */
  ghost predicate ReplyMsg(env: Env, call: Call, k: nat, m: Msg) {
    && Request(env, call, k).Some?
    && var req := RequestAtServer(env, call, k);
       if call.heartbeat then m == Echo(req)
       else exists world :: Possible(call.md, world) && Response(env, req, world) == Some(m)
  }

  /** What the fields of a response say about it. */
  ghost predicate Genuine(env: Env, call: Call, k: nat, m: Msg) {
    && m.header[0] == MAGIC && SeqNo(m.header) == k && IsHeartbeat(m.header) == call.heartbeat
    && MessageType(m.header) == 1 && StatusType(m.header) == 0 && SerializeType(m.header) == Serialization(call)
    && m.path == call.path && m.method_ == call.method_
    && (!call.heartbeat ==> exists world, reply :: AnsweredAs(env, call, world, reply, m.metadata, m.payload))
  }

  lemma EchoFields(h: HeaderBytes)
    ensures var h' := WithMessageType(h, RESPONSE);
            && h'[0] == h[0] && SeqNo(h') == SeqNo(h) && IsHeartbeat(h') == IsHeartbeat(h)
            && StatusType(h') == StatusType(h) && SerializeType(h') == SerializeType(h) && IsOneway(h') == IsOneway(h)
  {
    hide SeqNo, IsHeartbeat, StatusType, SerializeType, IsOneway, CompressType, MessageType;
    SetMessageTypeLaw(h, RESPONSE);
  }

  lemma UncompressedFields(h: HeaderBytes)
    ensures var h' := WithCompressType(h, 0);
            && h'[0] == h[0] && SeqNo(h') == SeqNo(h) && IsHeartbeat(h') == IsHeartbeat(h)
            && StatusType(h') == StatusType(h) && SerializeType(h') == SerializeType(h) && IsOneway(h') == IsOneway(h)
  {
    hide SeqNo, IsHeartbeat, StatusType, SerializeType, IsOneway, CompressType, MessageType;
    SetCompressTypeLaw(h, 0);
  }

  /** The handler is given the call's own arguments. */
  lemma DecodedArgs(env: Env, call: Call, k: nat, shape: Shape)
    requires k < U64 && Request(env, call, k).Some? && Serialization(call) in env.codecs
    ensures env.codecs[Serialization(call)].decode(shape, Request(env, call, k).value.payload)
         == ArgsAtServer(env, call, shape)
    ensures call.serialize != 0 ==> Serialization(call) in env.clientCodecs
  {
    hide RequestHeader;
    RequestHeaderFields(call, k);
    if call.serialize == 0 {
      assert Request(env, call, k).value.payload == [];
    }
  }

  lemma ReplyIsGenuine(env: Env, call: Call, k: nat, m: Msg)
    requires LawfulEnv(env) && k < U64 && ReplyMsg(env, call, k, m)
    ensures Genuine(env, call, k, m)
  {
    if call.heartbeat {
      hide SeqNo, IsHeartbeat, StatusType, SerializeType, IsOneway, WithMessageType, RequestAtServer, MessageType;
      RequestAtServerFields(env, call, k);
      EchoFields(RequestAtServer(env, call, k).header);
      EchoHeader(RequestAtServer(env, call, k));
    } else {
      hide RequestAtServer, Response, Possible, Genuine;
      var world :| Possible(call.md, world) && Response(env, RequestAtServer(env, call, k), world) == Some(m);
      AnswerIsGenuine(env, call, k, world, m);
    }
  }

  lemma AnswerIsGenuine(env: Env, call: Call, k: nat, world: World, m: Msg)
    requires k < U64 && Request(env, call, k).Some? && !call.heartbeat && Possible(call.md, world)
    requires Response(env, RequestAtServer(env, call, k), world) == Some(m)
    ensures Genuine(env, call, k, m)
  {
    hide SeqNo, IsHeartbeat, StatusType, SerializeType, IsOneway, CompressType, MessageType, Request, Conveyed;
    hide WithMessageType, WithCompressType, RequestAtServer, HandleError, ArgsAtServer, Trace.Parses;
    var req := RequestAtServer(env, call, k);
    RequestAtServerFields(env, call, k);
    UncompressedFields(req.header);
    EchoFields(CloneOf(req).header);
    HandledHeader(env, req, world);
    var t := SerializeType(req.header);
    var service := env.services[req.path][req.method_];
    DecodedArgs(env, call, k, service.args);
    var args := env.codecs[t].decode(service.args, req.payload).value;
    var answer := service.run(world, args);
    assert AnsweredAs(env, call, world, answer.reply, answer.sent, m.payload);
  }

  ghost predicate ReplyFrame(env: Env, call: Call, k: nat, bytes: Bytes) {
    exists m, order ::
      ReplyMsg(env, call, k, m) && Framed(env, m, order) && bytes == Encoded(env.wire, m, order)
  }

  /** A response as the client holds it after decoding, given what its metadata field held before. */
  ghost predicate ReplyRead(env: Env, call: Call, k: nat, prior: Option<Metadata>, msg: Msg) {
    exists m :: ReplyMsg(env, call, k, m) && msg == Received(env.wire, m, prior)
  }

  lemma ReadReply(env: Env, call: Call, k: nat, bytes: Bytes, prior: Option<Metadata>)
    requires LawfulEnv(env) && k < U64 && ReplyFrame(env, call, k, bytes)
    ensures var r := Frame.Decode(env.wire, prior, [], bytes);
            r.Ok? ==> ReplyRead(env, call, k, prior, r.msg) && SeqNo(r.msg.header) == k
  {
    hide Encoded, Frame.Decode, Compressed, Genuine, SeqNo, ReplyMsg;
    var m, order :| ReplyMsg(env, call, k, m) && Framed(env, m, order) && bytes == Encoded(env.wire, m, order);
    ReplyIsGenuine(env, call, k, m);
    assert m.header[0] == MAGIC && SeqNo(m.header) == k by { GenuineFields(env, call, k, m); }
    CompressedHeader(env.wire, m.header, m.payload);
    ReadEncoded(env.wire, m, order, prior);
  }

  lemma GenuineFields(env: Env, call: Call, k: nat, m: Msg)
    requires Genuine(env, call, k, m)
    ensures m.header[0] == MAGIC && SeqNo(m.header) == k
  {
  }

  // What the caller is told.

  /** The metadata delivered with a reply: that of its handler, or else what an earlier response left. */
  function Leftover(sent: Option<Metadata>, prior: Option<Metadata>): Option<Metadata> {
    if sent == None || sent == Some(map[]) then prior else sent
  }

  /** `checkReplyError`: exactly the error status makes an error of a response, with the text under its key, if any. */
  lemma ErrorReply(env: Env, want: Shape, msg: Msg) returns (key: Bytes)
    ensures Trace.Chars(key) == "easymicro_error__"
    ensures var outcome := OutcomeOf(env, want, msg);
            && (outcome.RemoteError? <==> StatusType(msg.header) == 1)
            && (outcome.RemoteError? ==> outcome.text == if key in msg.Entries() then msg.Entries()[key] else [])
  {
    hide StatusType, SerializeType;
    key := SERVICE_ERROR;
    ServiceErrorText();
  }

  /** The outcome is what the client makes of an answer to the call itself. */
  ghost predicate Told(env: Env, call: Call, prior: Option<Metadata>, outcome: Ending) {
    !call.heartbeat && exists world, reply, sent, data ::
      && AnsweredAs(env, call, world, reply, sent, data)
      && outcome == Understood(env, call.want, Serialization(call), data, Leftover(sent, prior))
  }

  /** The outcome of a call, justified by the call itself. */
  ghost predicate Justified(env: Env, call: Call, prior: Option<Metadata>, outcome: Ending) {
    match outcome
    case Reply(_, _) => Told(env, call, prior, outcome)
    case Undecodable => Told(env, call, prior, outcome)
    case NoReplyCodec => Told(env, call, prior, outcome) && call.serialize == 0 && 0 !in env.clientCodecs
    case HeartbeatOk => call.heartbeat
    case RemoteError(_) => false
    case _ => true
  }

  lemma OutcomeJustified(env: Env, call: Call, k: nat, prior: Option<Metadata>, msg: Msg)
    requires LawfulEnv(env) && k < U64 && ReplyRead(env, call, k, prior, msg)
    ensures IsHeartbeat(msg.header) == call.heartbeat
    ensures !call.heartbeat ==> Justified(env, call, prior, OutcomeOf(env, call.want, msg))
  {
    hide SeqNo, IsHeartbeat, StatusType, SerializeType, IsOneway, CompressType, MessageType, ReplyMsg, Compressed;
    hide AnsweredAs;
    var m :| ReplyMsg(env, call, k, m) && msg == Received(env.wire, m, prior);
    ReplyIsGenuine(env, call, k, m);
    CompressedHeader(env.wire, m.header, m.payload);
    if !call.heartbeat {
      var world, reply :| AnsweredAs(env, call, world, reply, m.metadata, m.payload);
      assert msg.metadata == Leftover(m.metadata, prior);
      assert OutcomeOf(env, call.want, msg)
          == Understood(env, call.want, Serialization(call), m.payload, Leftover(m.metadata, prior));
      assert Request(env, call, k).Some? by { ReplyHasRequest(env, call, k, m); }
      if call.serialize != 0 {
        RequestCodec(env, call, k);
      } else {
        assert Serialization(call) == 0;
      }
    }
  }

  lemma ReplyHasRequest(env: Env, call: Call, k: nat, m: Msg)
    requires ReplyMsg(env, call, k, m)
    ensures Request(env, call, k).Some?
  {
  }

  /** Arguments can only be encoded with a codec of the client's own table. */
  lemma RequestCodec(env: Env, call: Call, k: nat)
    requires k < U64 && Request(env, call, k).Some? && call.serialize != 0
    ensures Serialization(call) in env.clientCodecs
  {
    hide RequestHeader;
    RequestHeaderFields(call, k);
  }

  /** Decoding at one end undoes encoding at the other for an object of the same type. */
  ghost predicate Inverses(env: Env) {
    forall t | t in env.codecs && t in env.clientCodecs ::
      && Undoes(env.shapeOf, env.codecs[t], env.clientCodecs[t])
      && Undoes(env.shapeOf, env.clientCodecs[t], env.codecs[t])
  }

  ghost predicate Undoes(shapeOf: Value -> Shape, d: Codec, e: Codec) {
    forall x :: e.encode(x).Some? ==> d.decode(shapeOf(x), e.encode(x).value) == Some(x)
  }

  /** With inverse codecs and matching types, a reply is the method's own value for the call's own arguments. */
  lemma TypedReply(env: Env, call: Call, prior: Option<Metadata>, outcome: Ending)
    requires Inverses(env) && Told(env, call, prior, outcome) && call.serialize != 0
    requires env.shapeOf(call.args) == env.services[call.path][call.method_].args
    ensures exists world, reply, sent ::
              && Conveyed(call.md, world)
              && env.services[call.path][call.method_].run(world, call.args) == Replied(reply, sent)
              && (env.shapeOf(reply) == call.want ==> outcome == Reply(reply, Leftover(sent, prior)))
  {
    var t := Serialization(call);
    var world, reply, sent, data :| AnsweredAs(env, call, world, reply, sent, data)
                                    && outcome == Understood(env, call.want, t, data, Leftover(sent, prior));
    var c, d := env.clientCodecs[t], env.codecs[t];
    assert Undoes(env.shapeOf, d, c) && Undoes(env.shapeOf, c, d);
    var encoded: Option<Bytes> := c.encode(call.args);
    assert encoded != None;
    assert d.decode(env.shapeOf(call.args), encoded.value) == Some(call.args);
    assert c.decode(env.shapeOf(reply), data) == Some(reply);
    assert env.services[call.path][call.method_].run(world, call.args) == Replied(reply, sent);
  }
}
