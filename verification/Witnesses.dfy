/** Runs that show why the hypotheses of the theorems about runs are needed, and what the code does without them. */
module Witnesses {
  import opened Bytes
  import opened Header
  import opened MetadataCodec
  import Frame
  import opened Server
  import Trace
  import opened Transitions
  import opened Connection
  import opened Exchange
  import InFlight
  import opened Correlation
  import Delivery
  import NilCalls
  import Lifecycle
  import Unanswered

  // A call with an empty request, step by step, from any state in which nothing is going on.

  predicate Ready(s: State) {
    && s.crashed == None && s.client.status == Available && s.input == Reading
    && s.client.conn !in s.closedConns && s.client.conn !in s.goneConns
    && s.net == map[] && s.senders == map[] && s.client.seqNo == s.issued && s.issued + 1 < U64
  }

  /** The state after the registration of the next call, with what has changed since. */
  function Mid(s: State, call: Call, senders: map<nat, Sender>, net: map<nat, Flight>, nextToken: nat): State {
    State(Transitions.Register(s.client, |s.calls|, 0).0, s.calls + [call], senders, net, nextToken, s.nextConn,
          s.closedConns, s.goneConns, Reading, s.received, s.taken, s.refused, s.closes, s.issued + 1, s.heard,
          s.completions, None)
  }

  function Writing(s: State, left: bool): map<nat, Sender> {
    map[s.issued + 1 := Sender(|s.calls|, s.client.conn, left)]
  }

  function Sent(env: Env, s: State, m: Frame.Msg): map<nat, Flight>
    requires Enumerates([], m.Entries())
  {
    map[s.nextToken := ToServer(s.client.conn, Frame.Encoded(env.wire, m, []), s.issued + 1)]
  }

  lemma Registers(env: Env, s: State, call: Call)
    requires Ready(s)
    ensures Enabled(env, s, Send(call, 0))
    ensures Apply(env, s, Send(call, 0)) == Mid(s, call, Writing(s, false), map[], s.nextToken)
  {
  }

  lemma Leaves(env: Env, s: State, call: Call, m: Frame.Msg)
    requires Ready(s) && Request(env, call, s.issued + 1) == Some(m) && Framed(env, m, [])
    ensures Enumerates([], m.Entries())
    ensures var s1 := Mid(s, call, Writing(s, false), map[], s.nextToken);
            && Enabled(env, s1, Leave(s.issued + 1, []))
            && Apply(env, s1, Leave(s.issued + 1, []))
               == Mid(s, call, Writing(s, true), Sent(env, s, m), s.nextToken + 1)
  {
    hide Request, Frame.Encoded, Framed, Apply, Enabled;
    FramedNothing(env, m);
    LeaveIs(env, Mid(s, call, Writing(s, false), map[], s.nextToken), s.issued + 1, m);
  }

  lemma LeaveIs(env: Env, s: State, k: nat, m: Frame.Msg)
    requires s.crashed == None && Unsent(s, k) && s.senders[k].conn !in s.closedConns
    requires RequestOf(env, s, k) == Some(m) && Framed(env, m, [])
    ensures Enumerates([], m.Entries()) && Enabled(env, s, Leave(k, []))
    ensures Apply(env, s, Leave(k, []))
         == Put(s.(senders := s.senders[k := s.senders[k].(left := true)]),
                ToServer(s.senders[k].conn, Frame.Encoded(env.wire, m, []), k))
  {
    hide Request, Frame.Encoded;
  }

  lemma FramedNothing(env: Env, m: Frame.Msg)
    requires Framed(env, m, [])
    ensures Enumerates([], m.Entries())
  {
  }

  lemma Written(env: Env, s: State, call: Call, net: map<nat, Flight>)
    requires Ready(s)
    ensures var s1 := Mid(s, call, Writing(s, true), net, s.nextToken + 1);
            && Enabled(env, s1, WriteOk(s.issued + 1))
            && Apply(env, s1, WriteOk(s.issued + 1)) == Mid(s, call, map[], net, s.nextToken + 1)
  {
  }

  /** Registered, left and written. */
  lemma Departs(env: Env, s: State, call: Call, m: Frame.Msg) returns (states: seq<State>, steps: seq<Step>)
    requires Ready(s) && Request(env, call, s.issued + 1) == Some(m) && Framed(env, m, [])
    ensures Enumerates([], m.Entries())
    ensures Path(env, s, states, steps) && steps == [Send(call, 0), Leave(s.issued + 1, []), WriteOk(s.issued + 1)]
    ensures states[3] == Mid(s, call, map[], Sent(env, s, m), s.nextToken + 1)
  {
    hide Apply, Enabled, Mid, Request, Framed, Sent, Writing;
    Registers(env, s, call);
    Leaves(env, s, call, m);
    Written(env, s, call, Sent(env, s, m));
    states := [s, Mid(s, call, Writing(s, false), map[], s.nextToken),
               Mid(s, call, Writing(s, true), Sent(env, s, m), s.nextToken + 1),
               Mid(s, call, map[], Sent(env, s, m), s.nextToken + 1)];
    steps := [Send(call, 0), Leave(s.issued + 1, []), WriteOk(s.issued + 1)];
  }

  // Heartbeats.

  /** What `sendHeartBeat` sends. */
  function Heartbeat(args: Value, want: Shape): Call { Call([], [], args, want, map[], 0, false, true) }

  lemma EmptyBody(w: Frame.Wire, m: Frame.Msg)
    requires m.path == [] && m.method_ == [] && m.Entries() == map[] && m.payload == [] && CompressType(m.header) == 0
    ensures Enumerates([], m.Entries()) && |Frame.BodyOf(w, m, [])| == 16
  {
    EnumerationLength(m.Entries(), []);
  }

  /** A request without any content can be framed. */
  lemma EmptyRequest(env: Env, call: Call, k: nat)
    requires k < U64 && call.path == [] && call.method_ == [] && call.md == map[]
    requires call.serialize == 0 && !call.compress
    ensures Request(env, call, k) == Some(Frame.Msg(RequestHeader(call, k), [], [], None, []))
    ensures var m := Request(env, call, k).value;
            && CompressType(m.header) == 0 && m.header[0] == MAGIC && SeqNo(m.header) == k
            && IsHeartbeat(m.header) == call.heartbeat && SerializeType(m.header) == 0
            && Enumerates([], m.Entries()) && |Frame.BodyOf(env.wire, m, [])| == 16
  {
    hide IsHeartbeat, SeqNo, CompressType, StatusType, SerializeType, IsOneway, MessageType, RequestHeader;
    RequestHeaderFields(call, k);
    EmptyBody(env.wire, Request(env, call, k).value);
  }

  lemma StartReady()
    ensures Ready(START)
  {
  }

  /**
   * A heartbeat whose write reports an error after the frame has left makes the client panic: the response
   * finds its call gone. This is the run that containment excludes.
   */
  lemma DeliveredFailedWrite(env: Env, args: Value, want: Shape) returns (states: seq<State>, steps: seq<Step>)
    requires LawfulEnv(env) && (env.wire.maxLength <= 0 || env.wire.maxLength >= 16)
    ensures Run(env, states, steps) && |steps| >= 3
    ensures steps[0].Send? && steps[1] == Leave(1, []) && steps[2] == WriteFail(1)
    ensures states[|steps|].crashed == Some(NilHeartbeat)
  {
    hide Apply, Enabled, Mid, Request, Framed, Frame.BodyOf, NilCalls.AfterFailedWrite, NilCalls.Panics;
    var call := Heartbeat(args, want);
    var s1, s2, s3 := FailedHeartbeat(env, call);
    var a: seq<State>, p: seq<Step> :| NilCalls.Panics(env, s3, a, p);
    assert Path(env, s3, a, p) && a[|p|].crashed == Some(NilHeartbeat) by { PanicsPath(env, s3, a, p); }
    var b, q := [START, s1, s2, s3], [Send(call, 0), Leave(1, []), WriteFail(1)];
    PathAppend(env, START, b, q, a, p);
    states, steps := b + a[1..], q + p;
  }

  lemma PanicsPath(env: Env, s: State, states: seq<State>, steps: seq<Step>)
    requires NilCalls.Panics(env, s, states, steps)
    ensures Path(env, s, states, steps) && states[|steps|].crashed == Some(NilHeartbeat)
  {
  }

  /** The first three steps. */
  lemma FailedHeartbeat(env: Env, call: Call) returns (s1: State, s2: State, s3: State)
    requires LawfulEnv(env) && (env.wire.maxLength <= 0 || env.wire.maxLength >= 16)
    requires call == Heartbeat(call.args, call.want)
    ensures Enabled(env, START, Send(call, 0)) && s1 == Apply(env, START, Send(call, 0))
    ensures Enabled(env, s1, Leave(1, [])) && s2 == Apply(env, s1, Leave(1, []))
    ensures Enabled(env, s2, WriteFail(1)) && s3 == Apply(env, s2, WriteFail(1))
    ensures NilCalls.CanPanic(env, s3)
  {
    hide Request, Frame.BodyOf, CompressType, SeqNo, IsHeartbeat, SerializeType, NilCalls.CanPanic, Frame.Encoded;
    EmptyRequest(env, call, 1);
    StartReady();
    Registers(env, START, call);
    Leaves(env, START, call, Request(env, call, 1).value);
    s1 := Apply(env, START, Send(call, 0));
    s2 := Apply(env, s1, Leave(1, []));
    NilCalls.FailedWriteState(env, s1, 1, []);
    s3 := NilCalls.AfterFailedWrite(env, s1, 1, []);
    FirstHeartbeat(env, call, s1);
  }

  lemma FirstHeartbeat(env: Env, call: Call, s1: State)
    requires LawfulEnv(env) && call.heartbeat
    requires Enabled(env, START, Send(call, 0)) && s1 == Apply(env, START, Send(call, 0))
    requires Enabled(env, s1, Leave(1, [])) && |Frame.BodyOf(env.wire, RequestOf(env, s1, 1).value, [])| == 16
    requires env.wire.maxLength <= 0 || env.wire.maxLength >= 16
    ensures NilCalls.CanPanic(env, NilCalls.AfterFailedWrite(env, s1, 1, []))
  {
    hide Request, Framed, NilCalls.CanPanic, NilCalls.AfterFailedWrite, InFlight.Coherent, Held, Frame.BodyOf;
    InFlight.StartCoherent(env);
    StartHeld(false);
    InFlight.StepCoherent(env, START, Send(call, 0));
    StepHeld(env, START, Send(call, 0), false);
    NilCalls.NilCallFrom(env, s1, 1, []);
  }

  /** A call that is being answered when a heartbeat fails is orphaned, in a run of four steps. */
  lemma OrphanHappens(env: Env, args: Value, want: Shape) returns (states: seq<State>, steps: seq<Step>)
    ensures Run(env, states, steps) && |steps| == 4 && Lifecycle.Orphaned(states[4], 1)
  {
    hide Apply, Enabled, Mid, Sent, Lifecycle.Orphaned, Request, Frame.Encoded, Frame.BodyOf;
    hide IsHeartbeat, SeqNo, CompressType, SerializeType;
    var call := Heartbeat(args, want);
    EmptyRequest(env, call, 1);
    var m := Request(env, call, 1).value;
    StartReady();
    var a, p := Departs(env, START, call, m);
    KeepaliveCloses(env, call, Sent(env, START, m));
    var s4 := Apply(env, a[3], KeepaliveFails);
    StepPath(env, a[3], KeepaliveFails);
    PathAppend(env, START, a, p, [a[3], s4], [KeepaliveFails]);
    states, steps := a + [a[3], s4][1..], p + [KeepaliveFails];
  }

  lemma KeepaliveCloses(env: Env, call: Call, net: map<nat, Flight>)
    ensures var s := Mid(START, call, map[], net, 1);
            Enabled(env, s, KeepaliveFails) && Lifecycle.Orphaned(Apply(env, s, KeepaliveFails), 1)
  {
  }

  // A server with one method, which refuses, replies with metadata, or replies without.

  const MD: Metadata := map[[] := []]

  /** The world that a handler finds for a call without metadata. */
  function Plain(choice: nat): World { World(NO_CONTEXT, choice) }

  function SentIn(world: nat): Option<Metadata> { if world == 1 then Some(MD) else None }

  function Order(world: nat): seq<Bytes> { if world == 1 then [[]] else [] }

  function Demo(v: Value, shape: Shape): Env {
    Env(x => shape, Frame.Wire(map[], 0), OneCodec({0}, DemoCodec(v)), OneCodec({0}, DemoCodec(v)),
        map[[] := map[[] := Method(shape, (world: World, args: Value) => DemoAnswer(v, world.rest))]],
        problem => [])
  }

  function OneCodec(types: set<bv8>, c: Codec): map<bv8, Codec> { map t | t in types :: c }

  function DemoCodec(v: Value): Codec {
    Codec(x => if x == v then Some([]) else None, (s: Shape, b: Bytes) => if b == [] then Some(v) else None)
  }

  lemma DemoCoded(v: Value, shape: Shape)
    ensures DemoCodec(v).decode(shape, []) == Some(v)
    ensures DemoCodec(v).encode(v) == Some([])
  {
  }

  function DemoAnswer(v: Value, world: nat): Answer {
    if world == 0 then Refused([], None) else Replied(v, SentIn(world))
  }

  function DemoCall(v: Value, shape: Shape): Call { Call([], [], v, shape, map[], 0, false, false) }

  function DemoReply(req: Frame.Msg, world: nat): Frame.Msg {
    Frame.Msg(WithMessageType(WithCompressType(req.header, 0), RESPONSE), [], [], SentIn(world), [])
  }

  lemma PlainWorld(choice: nat)
    ensures Trace.Parses(map[]) && Possible(map[], Plain(choice))
  {
    assert Trace.Texts(map[]) == map[];
    assert Trace.CommonOf(map[]) == map[];
  }

  lemma DemoResponse(v: Value, shape: Shape, req: Frame.Msg, world: nat)
    requires req.path == [] && req.method_ == [] && req.metadata == None && req.payload == []
    requires SerializeType(req.header) == 0 && !IsOneway(req.header)
    ensures Possible(req.Entries(), Plain(world))
    ensures Response(Demo(v, shape), req, Plain(world)) == if world == 0 then None else Some(DemoReply(req, world))
  {
    hide SerializeType, IsOneway, WithCompressType, WithMessageType, StatusType, HandleError;
    var env := Demo(v, shape);
    PlainWorld(world);
    assert [] in env.services && [] in env.services[[]] && 0 in env.codecs;
    DemoCoded(v, shape);
    assert env.codecs[0] == DemoCodec(v);
    assert env.services[[]][[]].run(Plain(world), v) == DemoAnswer(v, world);
  }

  /** Uncompressed messages arrive as they are, but for the metadata that a message without any leaves alone. */
  lemma Travels(env: Env, m: Frame.Msg, order: seq<Bytes>, prior: Option<Metadata>)
    requires LawfulEnv(env) && Delivery.Passes(env, m, order) && CompressType(m.header) == 0
    requires m.metadata == None || m.Entries() != map[]
    ensures Enumerates(order, m.Entries())
    ensures Frame.Decode(env.wire, prior, [], Frame.Encoded(env.wire, m, order))
         == Frame.Ok(m.(metadata := if m.metadata == None then prior else m.metadata), [])
  {
    hide Frame.Decode, Frame.Encoded, Frame.BodyOf, CompressType;
    Delivery.PassesThrough(env, m, order, prior);
  }

  /** The request and the reply of the demonstration get through. */
  lemma DemoFrames(v: Value, shape: Shape, k: nat, world: nat)
    requires k < U64
    ensures var env := Demo(v, shape);
            var req := Request(env, DemoCall(v, shape), k);
            && req.Some? && LawfulEnv(env)
            && Delivery.Passes(env, req.value, []) && CompressType(req.value.header) == 0
            && !IsHeartbeat(req.value.header) && SerializeType(req.value.header) == 0 && !IsOneway(req.value.header)
            && req.value == Frame.Msg(req.value.header, [], [], None, [])
            && var m := DemoReply(req.value, world);
               && Delivery.Passes(env, m, Order(world)) && CompressType(m.header) == 0 && SeqNo(m.header) == k
               && !IsHeartbeat(m.header) && StatusType(m.header) == 0 && SerializeType(m.header) == 0
  {
    hide IsHeartbeat, SeqNo, CompressType, StatusType, SerializeType, IsOneway, MessageType, RequestHeader;
    hide WithMessageType, WithCompressType;
    var env, call := Demo(v, shape), DemoCall(v, shape);
    EmptyRequest(env, call, k);
    RequestHeaderFields(call, k);
    var h := RequestHeader(call, k);
    SetCompressTypeLaw(h, 0);
    SetMessageTypeLaw(WithCompressType(h, 0), RESPONSE);
    DemoBody(env.wire, DemoReply(Request(env, call, k).value, world), world);
  }

  lemma DemoBody(w: Frame.Wire, m: Frame.Msg, world: nat)
    requires m.path == [] && m.method_ == [] && m.payload == [] && CompressType(m.header) == 0
    requires m.metadata == SentIn(world)
    ensures Enumerates(Order(world), m.Entries()) && |Frame.BodyOf(w, m, Order(world))| <= 24
  {
    hide CompressType;
    if world == 1 {
      assert m.Entries() == MD;
      var ps := PairsOf(MD, [[]]);
      assert ps == [Pair([], [])];
      assert EncodePairs(ps[1..]) == [];
    } else {
      EnumerationLength(m.Entries(), []);
    }
  }

  function DemoRequest(v: Value, shape: Shape, s: State): Frame.Msg
    requires Request(Demo(v, shape), DemoCall(v, shape), s.issued + 1).Some?
  {
    Request(Demo(v, shape), DemoCall(v, shape), s.issued + 1).value
  }

  function InHandler(s: State, req: Frame.Msg): map<nat, Flight> {
    map[s.nextToken + 1 := Handling(s.client.conn, req, s.issued + 1)]
  }

  lemma Accepts(env: Env, s: State, call: Call, req: Frame.Msg, w: map<nat, Sender>)
    requires Ready(s) && Enumerates([], req.Entries()) && !IsHeartbeat(req.header)
    requires Frame.Decode(env.wire, None, [], Frame.Encoded(env.wire, req, [])) == Frame.Ok(req, [])
    ensures var s3 := Mid(s, call, w, Sent(env, s, req), s.nextToken + 1);
            && Enabled(env, s3, Accept(s.nextToken, []))
            && Apply(env, s3, Accept(s.nextToken, [])) == Mid(s, call, w, InHandler(s, req), s.nextToken + 2)
  {
    hide Frame.Decode, Frame.Encoded, IsHeartbeat, Framed;
  }

  /** Four steps into the handler. */
  lemma Reaches(v: Value, shape: Shape, s: State) returns (states: seq<State>, steps: seq<Step>)
    requires Ready(s)
    ensures Request(Demo(v, shape), DemoCall(v, shape), s.issued + 1).Some?
    ensures Path(Demo(v, shape), s, states, steps) && |steps| == 4
    ensures states[4] == Mid(s, DemoCall(v, shape), map[], InHandler(s, DemoRequest(v, shape, s)), s.nextToken + 2)
  {
    hide Apply, Enabled, Mid, Demo, Request, Framed, Frame.Encoded, Frame.Decode, IsHeartbeat, CompressType, SeqNo;
    hide StatusType, SerializeType, InHandler, IsOneway;
    var env, call := Demo(v, shape), DemoCall(v, shape);
    DemoFrames(v, shape, s.issued + 1, 0);
    var req := DemoRequest(v, shape, s);
    Travels(env, req, [], None);
    var a, p := Departs(env, s, call, req);
    Accepts(env, s, call, req, map[]);
    StepPath(env, a[3], Accept(s.nextToken, []));
    PathAppend(env, s, a, p, [a[3], Apply(env, a[3], Accept(s.nextToken, []))], [Accept(s.nextToken, [])]);
    states := a + [a[3], Apply(env, a[3], Accept(s.nextToken, []))][1..];
    steps := p + [Accept(s.nextToken, [])];
  }

  lemma Refuses(env: Env, s: State, call: Call, req: Frame.Msg)
    requires Ready(s) && Response(env, req, Plain(0)) == None && Possible(req.Entries(), Plain(0))
    ensures var s4, step := Mid(s, call, map[], InHandler(s, req), s.nextToken + 2),
                            Respond(s.nextToken + 1, Plain(0), []);
            && Enabled(env, s4, step) && Unanswered.Forgotten(env, Apply(env, s4, step), s.issued + 1)
            && Apply(env, s4, step).client.pending[s.issued + 1] == |s.calls|
  {
    hide Response, Possible;
  }

  /** A call whose handler returns an error is forgotten: five steps, after which no reply can ever come. */
  lemma RefusedHappens(v: Value, shape: Shape) returns (states: seq<State>, steps: seq<Step>)
    ensures Run(Demo(v, shape), states, steps) && |steps| == 5 && steps[4] == Respond(1, Plain(0), [])
    ensures Unanswered.Forgotten(Demo(v, shape), states[5], 1) && states[5].client.pending[1] == 0
  {
    hide Apply, Enabled, Mid, Demo, Request, IsHeartbeat, CompressType, SeqNo, InHandler;
    hide StatusType, SerializeType, IsOneway, Unanswered.Forgotten, Response, Possible;
    var env, call := Demo(v, shape), DemoCall(v, shape);
    StartReady();
    var a, p := Reaches(v, shape, START);
    DemoFrames(v, shape, 1, 0);
    DemoResponse(v, shape, DemoRequest(v, shape, START), 0);
    Refuses(env, START, call, DemoRequest(v, shape, START));
    var step := Respond(1, Plain(0), []);
    StepPath(env, a[4], step);
    PathAppend(env, START, a, p, [a[4], Apply(env, a[4], step)], [step]);
    states, steps := a + [a[4], Apply(env, a[4], step)][1..], p + [step];
  }

  function Returning(env: Env, s: State, m: Frame.Msg, order: seq<Bytes>): map<nat, Flight>
    requires Enumerates(order, m.Entries())
  {
    map[s.nextToken + 2 := ToClient(s.client.conn, Frame.Encoded(env.wire, m, order), s.issued + 1)]
  }

  lemma RespondState(env: Env, s: State, t: nat, world: World, order: seq<Bytes>)
    requires s.crashed == None && t in s.net && s.net[t].Handling? && s.net[t].conn !in s.goneConns
    requires Possible(s.net[t].req.Entries(), world)
    requires var m := Response(env, s.net[t].req, world); m.Some? && Framed(env, m.value, order)
    ensures var f, m := s.net[t], Response(env, s.net[t].req, world).value;
            && Enumerates(order, m.Entries()) && Enabled(env, s, Respond(t, world, order))
            && Apply(env, s, Respond(t, world, order))
            == Put(s.(net := s.net - {t}), ToClient(f.conn, Frame.Encoded(env.wire, m, order), f.origin))
  {
    hide Response, Possible, Frame.Encoded;
  }

  lemma Responds(env: Env, s: State, call: Call, req: Frame.Msg, world: nat, m: Frame.Msg, order: seq<Bytes>,
                 w: map<nat, Sender>)
    requires Ready(s) && Response(env, req, Plain(world)) == Some(m) && Framed(env, m, order)
    requires Possible(req.Entries(), Plain(world))
    ensures Enumerates(order, m.Entries())
    ensures var s4, step := Mid(s, call, w, InHandler(s, req), s.nextToken + 2),
                            Respond(s.nextToken + 1, Plain(world), order);
            && Enabled(env, s4, step)
            && Apply(env, s4, step) == Mid(s, call, w, Returning(env, s, m, order), s.nextToken + 3)
  {
    hide Apply, Enabled, Response, Possible, Frame.Encoded, Framed, Plain;
    RespondState(env, Mid(s, call, w, InHandler(s, req), s.nextToken + 2), s.nextToken + 1, Plain(world), order);
  }

  /** The state in which a response has been read. */
  function Holding(s: State, call: Call, msg: Frame.Msg, own: Option<Metadata>, w: map<nat, Sender>): State {
    Mid(s, call, w, map[], s.nextToken + 3).(input := Got(msg), received := msg.metadata, heard := s.heard + [own])
  }

  lemma Reads(env: Env, s: State, call: Call, m: Frame.Msg, order: seq<Bytes>, msg: Frame.Msg, w: map<nat, Sender>)
    requires Ready(s) && Enumerates(order, m.Entries())
    requires Frame.Decode(env.wire, s.received, [], Frame.Encoded(env.wire, m, order)) == Frame.Ok(msg, [])
    requires Frame.Decode(env.wire, None, [], Frame.Encoded(env.wire, m, order)) == Frame.Ok(m, [])
    ensures var s5, step := Mid(s, call, w, Returning(env, s, m, order), s.nextToken + 3),
                            Connection.Read(s.nextToken + 2);
            Enabled(env, s5, step) && Apply(env, s5, step) == Holding(s, call, msg, m.metadata, w)
  {
    hide Frame.Decode, Frame.Encoded;
  }

  /** Taken and delivered, with nothing left behind. */
  lemma Delivers(env: Env, s: State, call: Call, msg: Frame.Msg, own: Option<Metadata>, w: map<nat, Sender>)
    returns (s7: State, s8: State)
    requires Ready(s) && SeqNo(msg.header) == s.issued + 1 && !IsHeartbeat(msg.header)
    ensures var s6 := Holding(s, call, msg, own, w);
            && Enabled(env, s6, TakeResponse) && s7 == Apply(env, s6, TakeResponse)
            && Enabled(env, s7, Deliver) && s8 == Apply(env, s7, Deliver)
    ensures s8.received == msg.metadata && s8.heard == s.heard + [own] && s8.calls == s.calls + [call]
    ensures s8.completions
         == s.completions + [Completion(|s.calls|, OutcomeOf(env, call.want, msg), |s.heard| + 1)]
    ensures s8.issued == s.issued + 1 && (s.issued + 2 < U64 && w == map[] ==> Ready(s8))
    ensures s8.senders == w && s8.crashed == None && s8.input == Reading
    ensures s8.taken == s.taken[s.issued + 1 := |s.calls|]
    ensures s8.client.pending == s.client.pending - {s.issued + 1}
  {
    hide SeqNo, IsHeartbeat, OutcomeOf, Apply, Enabled;
    var s6 := Holding(s, call, msg, own, w);
    TakeIs(env, s6);
    s7 := Apply(env, s6, TakeResponse);
    DeliverIs(env, s7);
    s8 := Apply(env, s7, Deliver);
  }

  lemma TakeIs(env: Env, s: State)
    requires s.crashed == None && s.input.Got? && SeqNo(s.input.msg.header) in s.client.pending
    ensures Enabled(env, s, TakeResponse)
    ensures var k := SeqNo(s.input.msg.header);
            var id := s.client.pending[k];
            Apply(env, s, TakeResponse)
            == s.(client := s.client.(pending := s.client.pending - {k}),
                  input := Delivering(s.input.msg, Some(id)), taken := s.taken[k := id])
  {
    hide SeqNo;
  }

  lemma DeliverIs(env: Env, s: State)
    requires s.crashed == None && s.input.Delivering? && s.input.call.Some? && s.input.call.value < |s.calls|
    requires !IsHeartbeat(s.input.msg.header)
    ensures Enabled(env, s, Deliver)
    ensures var id := s.input.call.value;
            Apply(env, s, Deliver)
            == s.(input := Reading,
                  completions := Finished(s, id, OutcomeOf(env, s.calls[id].want, s.input.msg)))
  {
    hide IsHeartbeat, OutcomeOf;
  }

  lemma DemoOutcome(v: Value, shape: Shape, msg: Frame.Msg)
    requires StatusType(msg.header) == 0 && SerializeType(msg.header) == 0 && msg.payload == []
    ensures OutcomeOf(Demo(v, shape), shape, msg) == Reply(v, msg.metadata)
  {
    hide StatusType, SerializeType;
    DemoCoded(v, shape);
    assert Demo(v, shape).clientCodecs[0] == DemoCodec(v);
  }

  /** One call to the demonstration server and its reply. */
  lemma Exchanged(v: Value, shape: Shape, s: State, world: nat) returns (states: seq<State>, steps: seq<Step>)
    requires Ready(s) && world > 0
    ensures Path(Demo(v, shape), s, states, steps)
    ensures var s', md := states[|steps|], if world == 1 then Some(MD) else s.received;
            && s'.received == md && s'.heard == s.heard + [SentIn(world)] && |s'.calls| == |s.calls| + 1
            && s'.completions == s.completions + [Completion(|s.calls|, Reply(v, md), |s.heard| + 1)]
            && s'.issued == s.issued + 1 && (s.issued + 2 < U64 ==> Ready(s'))
  {
    hide Apply, Enabled, Mid, Demo, Request, Framed, Frame.Encoded, Frame.Decode, IsHeartbeat, CompressType, SeqNo;
    hide StatusType, SerializeType, InHandler, IsOneway, Holding, Returning, Ready, Response;
    hide Possible, OutcomeOf, DemoReply;
    var env, call := Demo(v, shape), DemoCall(v, shape);
    var a, p := Reaches(v, shape, s);
    var b, q := ReplyReaches(v, shape, s, world, map[]);
    PathAppend(env, s, a, p, b, q);
    states, steps := a + b[1..], p + q;
  }

  lemma ReplyReaches(v: Value, shape: Shape, s: State, world: nat, w: map<nat, Sender>)
    returns (states: seq<State>, steps: seq<Step>)
    requires Ready(s) && world > 0 && Request(Demo(v, shape), DemoCall(v, shape), s.issued + 1).Some?
    ensures Path(Demo(v, shape),
                 Mid(s, DemoCall(v, shape), w, InHandler(s, DemoRequest(v, shape, s)), s.nextToken + 2), states, steps)
    ensures var s', md := states[|steps|], if world == 1 then Some(MD) else s.received;
            && s'.received == md && s'.heard == s.heard + [SentIn(world)] && |s'.calls| == |s.calls| + 1
            && s'.completions == s.completions + [Completion(|s.calls|, Reply(v, md), |s.heard| + 1)]
            && s'.issued == s.issued + 1 && (s.issued + 2 < U64 && w == map[] ==> Ready(s'))
            && s'.senders == w && s'.crashed == None && s'.input == Reading
            && s'.taken == s.taken[s.issued + 1 := |s.calls|]
            && s'.client.pending == s.client.pending - {s.issued + 1}
  {
    var env, call := Demo(v, shape), DemoCall(v, shape);
    var k := s.issued + 1;
    hide Apply, Enabled, Mid, Demo, Request, Framed, Frame.Encoded, Frame.Decode, IsHeartbeat, CompressType, SeqNo;
    hide StatusType, SerializeType, InHandler, IsOneway, Holding, Returning, Response, Possible, OutcomeOf;
    DemoFrames(v, shape, k, world);
    var req := DemoRequest(v, shape, s);
    DemoResponse(v, shape, req, world);
    var m, order := DemoReply(req, world), Order(world);
    Responds(env, s, call, req, world, m, order, w);
    assert m.metadata.Some? ==> [] in m.Entries();
    Travels(env, m, order, s.received);
    Travels(env, m, order, None);
    var msg := m.(metadata := if m.metadata == None then s.received else m.metadata);
    Reads(env, s, call, m, order, msg, w);
    var s7, s8 := Delivers(env, s, call, msg, m.metadata, w);
    DemoOutcome(v, shape, msg);
    states := [Mid(s, call, w, InHandler(s, req), s.nextToken + 2),
               Mid(s, call, w, Returning(env, s, m, order), s.nextToken + 3),
               Holding(s, call, msg, m.metadata, w), s7, s8];
    steps := [Respond(s.nextToken + 1, Plain(world), order), Connection.Read(s.nextToken + 2), TakeResponse, Deliver];
  }

  /**
   * Two calls in turn: the handler of the first sends metadata, that of the second none, and the second caller is
   * given the metadata of the first.
   */
  lemma LeakHappens(v: Value, shape: Shape) returns (states: seq<State>, steps: seq<Step>)
    ensures Run(Demo(v, shape), states, steps)
    ensures var s := states[|steps|];
            && s.heard == [Some(MD), None]
            && s.completions == [Completion(0, Reply(v, Some(MD)), 1), Completion(1, Reply(v, Some(MD)), 2)]
  {
    hide Apply, Enabled, Demo;
    StartReady();
    var a, p := Exchanged(v, shape, START, 1);
    var b, q := Exchanged(v, shape, a[|p|], 2);
    PathAppend(Demo(v, shape), START, a, p, b, q);
    states, steps := a + b[1..], p + q;
  }

  /** The frame of a call is in its handler while its write has not returned. */
  lemma ReachesFirst(v: Value, shape: Shape, s: State) returns (states: seq<State>, steps: seq<Step>)
    requires Ready(s)
    ensures Request(Demo(v, shape), DemoCall(v, shape), s.issued + 1).Some?
    ensures Path(Demo(v, shape), s, states, steps) && |steps| == 3
    ensures states[3]
         == Mid(s, DemoCall(v, shape), Writing(s, true), InHandler(s, DemoRequest(v, shape, s)), s.nextToken + 2)
  {
    hide Apply, Enabled, Mid, Demo, Request, Frame.Encoded, Frame.Decode, IsHeartbeat, CompressType, SeqNo;
    hide StatusType, SerializeType, InHandler, IsOneway, Writing, Sent, Frame.BodyOf;
    var env, call := Demo(v, shape), DemoCall(v, shape);
    DemoFrames(v, shape, s.issued + 1, 0);
    var req := DemoRequest(v, shape, s);
    Travels(env, req, [], None);
    Registers(env, s, call);
    Leaves(env, s, call, req);
    Accepts(env, s, call, req, Writing(s, true));
    states := [s, Mid(s, call, Writing(s, false), map[], s.nextToken),
               Mid(s, call, Writing(s, true), Sent(env, s, req), s.nextToken + 1),
               Mid(s, call, Writing(s, true), InHandler(s, req), s.nextToken + 2)];
    steps := [Send(call, 0), Leave(s.issued + 1, []), Accept(s.nextToken, [])];
  }

  lemma LateFailure(env: Env, s: State, k: nat)
    requires s.crashed == None && MutexFree(s) && k in s.senders && s.senders[k].left && k !in s.client.pending
    ensures Enabled(env, s, WriteFail(k))
    ensures var s' := Apply(env, s, WriteFail(k));
            s'.completions == s.completions && s'.taken == s.taken && s'.client.pending == s.client.pending
  {
  }

  /**
   * The race of a response with its own failing write: the response is delivered first, the write then fails and finds
   * nothing to take, and the call has been completed once.
   */
  lemma RaceHappens(v: Value, shape: Shape) returns (states: seq<State>, steps: seq<Step>)
    ensures Run(Demo(v, shape), states, steps) && |steps| > 0 && steps[|steps| - 1] == WriteFail(1)
    ensures var s := states[|steps|];
            s.completions == [Completion(0, Reply(v, None), 1)] && s.taken == map[1 := 0] && s.client.pending == map[]
  {
    hide Apply, Enabled, Demo, Mid, InHandler, Request;
    StartReady();
    var env := Demo(v, shape);
    var a, p := ReachesFirst(v, shape, START);
    var b, q := ReplyReaches(v, shape, START, 2, Writing(START, true));
    PathAppend(env, START, a, p, b, q);
    var states1, steps1 := a + b[1..], p + q;
    var s := states1[|steps1|];
    LateFailure(env, s, 1);
    StepPath(env, s, WriteFail(1));
    var last := [s, Apply(env, s, WriteFail(1))];
    PathAppend(env, START, states1, steps1, last, [WriteFail(1)]);
    states, steps := states1 + last[1..], steps1 + [WriteFail(1)];
  }

  // The bound on the number of calls.

  /** `n` calls have been registered, numbered from one, and nothing else has happened. */
  ghost predicate OnlySends(s: State, n: nat) {
    && s.crashed == None && s.input == Reading && s.client.status == Available && s.completions == []
    && s.client.seqNo == n && |s.calls| == n
    && forall k: nat ::
         && (k in s.client.pending <==> 1 <= k <= n)
         && (k in s.client.pending ==> s.client.pending[k] == k - 1)
  }

  lemma SendsOnce(env: Env, s: State, n: nat, call: Call)
    requires OnlySends(s, n) && n + 1 < U64
    ensures Enabled(env, s, Send(call, 0)) && OnlySends(Apply(env, s, Send(call, 0)), n + 1)
  {
  }

  lemma {:induction false} ManySends(env: Env, n: nat, call: Call) returns (states: seq<State>, steps: seq<Step>)
    requires n < U64
    ensures Run(env, states, steps) && |steps| == n && OnlySends(states[n], n)
  {
    if n == 0 {
      states, steps := [START], [];
    } else {
      hide Apply, Enabled, OnlySends;
      var before, taken := ManySends(env, n - 1, call);
      SendsOnce(env, before[n - 1], n - 1, call);
      states := before + [Apply(env, before[n - 1], Send(call, 0))];
      steps := taken + [Send(call, 0)];
    }
  }

  lemma Wraps(env: Env, s: State, call: Call)
    requires OnlySends(s, U64 - 1)
    ensures Enabled(env, s, Send(call, 0))
    ensures var s1 := Apply(env, s, Send(call, 0));
            && Enabled(env, s1, Send(call, 0))
            && var s2 := Apply(env, s1, Send(call, 0));
               && 1 in s1.client.pending && s1.client.pending[1] == 0
               && 1 in s2.client.pending && s2.client.pending[1] == U64
               && 0 !in s2.client.pending.Values && s2.completions == []
  {
    var s1 := Apply(env, s, Send(call, 0));
    assert s1.client.seqNo == 0 && s1.client.pending == s.client.pending[0 := U64 - 1];
    var s2 := Apply(env, s1, Send(call, 0));
    assert s2.client.pending == s1.client.pending[1 := U64];
  }

  /** After 2^64 registrations the next one overwrites the first, whose call is then lost without completion. */
  lemma SequenceWraps(env: Env, call: Call) returns (states: seq<State>, steps: seq<Step>)
    ensures Run(env, states, steps) && |steps| == U64 + 1
    ensures var before, after := states[U64].client.pending, states[U64 + 1].client.pending;
            1 in before && before[1] == 0 && 1 in after && after[1] == U64 && 0 !in after.Values
    ensures states[U64 + 1].completions == []
  {
    hide Apply, Enabled, OnlySends;
    var before, taken := ManySends(env, U64 - 1, call);
    var s := before[U64 - 1];
    Wraps(env, s, call);
    var s1 := Apply(env, s, Send(call, 0));
    var s2 := Apply(env, s1, Send(call, 0));
    states, steps := before + [s1, s2], taken + [Send(call, 0), Send(call, 0)];
  }
}
