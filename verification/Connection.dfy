/**
 * One client connection closed with the server: every locked section, every write, every frame in transit,
 * every handler, and the reading goroutine, interleaved in any order, with loss and reconnects.
 */
module Connection {
  import opened Bytes
  import opened Header
  import opened MetadataCodec
  import opened Frame
  import opened Server
  import opened Transitions

  const GZIP: bv8 := 1

  /**
   * What the caller of `Go` fixes; `want` is the type of the reply object. A call is identified by its position
   * in the list of all calls.
   */
  datatype Call = Call(
    path: Bytes,
    method_: Bytes,
    args: Value,
    want: Shape,
    md: Metadata,
    serialize: bv8,
    compress: bool,
    heartbeat: bool)

  /** The header that `createRequest` builds. */
  function RequestHeader(call: Call, k: nat): HeaderBytes {
    var h := WithHeartbeat(BLANK, call.heartbeat);
    var h1 := if call.compress then WithCompressType(h, GZIP) else h;
    var h2 := WithSeqNo(h1, k);
    if call.serialize == 0 then h2 else WithSerializeType(h2, call.serialize)
  }

  /** `createRequest`: with serialization switched off the arguments are not sent at all. */
  function Request(env: Env, call: Call, k: nat): Option<Msg> {
    var h := RequestHeader(call, k);
    var m := Msg(h, call.path, call.method_, if call.md == map[] then None else Some(call.md), []);
    if call.serialize == 0 then Some(m)
    else if SerializeType(h) !in env.clientCodecs then None
    else
      match env.clientCodecs[SerializeType(h)].encode(call.args)
      case None => None
      case Some(data) => Some(m.(payload := data))
  }

  /** A frame or a running handler; `origin` records the sequence number under which the call was sent. */
  datatype Flight =
    | ToServer(conn: nat, bytes: Bytes, origin: nat)
    | Handling(conn: nat, req: Msg, origin: nat)
    | ToClient(conn: nat, bytes: Bytes, origin: nat)

  /** A `send` between its registration and the end of its write; `left` when its frame is on the way already. */
  datatype Sender = Sender(call: nat, conn: nat, left: bool)

  /** Where the reading goroutine is. In `Stuck` it holds the mutex and waits for it. */
  datatype Input =
    | Reading
    | Got(msg: Msg)
    | Delivering(msg: Msg, call: Option<nat>)
    | ReadFailed
    | Redialling
    | Tail
    | Stuck
    | Exited

  datatype Ending =
    | WasShutdown | NotEncoded | NotWritten | HeartbeatOk
    | RemoteError(text: Bytes) | NoReplyCodec | Undecodable
    | Reply(value: Value, md: Option<Metadata>)

  /** `at` is the number of responses that the client had read. */
  datatype Completion = Completion(call: nat, outcome: Ending, at: nat)

  datatype Crash = NilHeartbeat | DoubleClose

  /**
   * `closedConns` are closed by the client, `goneConns` are those whose server loop has ended. `received` is the
   * metadata field of the response message, which is reused and never reset. The rest is history: which keys were
   * taken for which calls, which calls were refused, which calls were pending at each close that took effect,
   * how many calls were registered, the metadata of each response read, what was completed, and the panic that
   * ended the process.
   */
  datatype State = State(
    client: ClientState,
    calls: seq<Call>,
    senders: map<nat, Sender>,
    net: map<nat, Flight>,
    nextToken: nat,
    nextConn: nat,
    closedConns: set<nat>,
    goneConns: set<nat>,
    input: Input,
    received: Option<Metadata>,
    taken: map<nat, nat>,
    refused: set<nat>,
    closes: seq<set<nat>>,
    issued: nat,
    heard: seq<Option<Metadata>>,
    completions: seq<Completion>,
    crashed: Option<Crash>)

  const START := State(NEW_CLIENT, [], map[], map[], 0, 1, {}, {}, Reading, None, map[], {}, [], 0, [], [], None)

  datatype Step =
    | Send(call: Call, now: int)
    | EncodeFail(k: nat)
    | Leave(k: nat, order: seq<Bytes>)
    | WriteOk(k: nat)
    | WriteFail(k: nat)
    | Lose(token: nat)
    | ServerEnds(conn: nat)
    | Accept(token: nat, order: seq<Bytes>)
    | Respond(token: nat, world: World, order: seq<Bytes>)
    | Read(token: nat)
    | TakeResponse
    | Deliver
    | ReadError
    | StartReconnect
    | Redialled
    | RedialFailed
    | InputTail
    | KeepaliveFails
    | CloseCall(keys: seq<nat>)

  /** A body of 32 bits or more cannot be framed; such messages are outside the model. */
  ghost predicate Framed(env: Env, m: Msg, order: seq<Bytes>) {
    Enumerates(order, m.Entries()) && |BodyOf(env.wire, m, order)| < U32
  }

  /** Sections that need the mutex cannot start while the reading goroutine holds it for ever. */
  predicate MutexFree(s: State) { s.input != Stuck }

  /** A `send` whose frame has not left. */
  predicate Unsent(s: State, k: nat) { k in s.senders && !s.senders[k].left && s.senders[k].call < |s.calls| }

  function RequestOf(env: Env, s: State, k: nat): Option<Msg>
    requires Unsent(s, k)
  {
    Request(env, s.calls[s.senders[k].call], k)
  }

  /**
   * A frame leaves whole while its connection is open; only then can the write succeed. It may fail before
   * and after.
   */
  ghost predicate Enabled(env: Env, s: State, step: Step) {
    && s.crashed == None
    && match step
       case Send(_, _) => MutexFree(s)
       case EncodeFail(k) => MutexFree(s) && Unsent(s, k) && RequestOf(env, s, k) == None
       case Leave(k, order) =>
         && Unsent(s, k) && s.senders[k].conn !in s.closedConns
         && RequestOf(env, s, k).Some? && Framed(env, RequestOf(env, s, k).value, order)
       case WriteOk(k) => k in s.senders && s.senders[k].left
       case WriteFail(k) =>
         && MutexFree(s) && k in s.senders
         && (Unsent(s, k) ==> RequestOf(env, s, k).Some?)
       case Lose(t) => t in s.net
       case ServerEnds(_) => true
       case Accept(t, order) =>
         && t in s.net && s.net[t].ToServer? && s.net[t].conn !in s.goneConns
         && var r := Frame.Decode(env.wire, None, [], s.net[t].bytes);
            r.Ok? && IsHeartbeat(r.msg.header) ==> Framed(env, Echo(r.msg), order)
       case Respond(t, world, order) =>
         && t in s.net && s.net[t].Handling? && Possible(s.net[t].req.Entries(), world)
         && var m := Response(env, s.net[t].req, world);
            m.Some? ==> Framed(env, m.value, order)
       case Read(t) =>
         && s.input == Reading && t in s.net && s.net[t].ToClient?
         && s.net[t].conn == s.client.conn && s.client.conn !in s.closedConns
       case TakeResponse => s.input.Got?
       case Deliver => s.input.Delivering? && (s.input.call.Some? ==> s.input.call.value < |s.calls|)
       case ReadError => s.input == Reading
       case StartReconnect => s.input == ReadFailed
       case Redialled => s.input == Redialling
       case RedialFailed => s.input == Redialling
       case InputTail => s.input == Tail
       case KeepaliveFails => MutexFree(s)
       case CloseCall(keys) => MutexFree(s) && EnumeratesKeys(keys, s.client.pending)
  }

  /** The order in which the range loop of `close` visits the pending calls. */
  ghost predicate EnumeratesKeys(keys: seq<nat>, m: map<nat, nat>) {
    && (forall i, j | 0 <= i < j < |keys| :: keys[i] != keys[j])
    && (forall k :: k in keys <==> k in m)
  }

  function ShutdownAll(keys: seq<nat>, m: map<nat, nat>, at: nat): seq<Completion>
    requires forall k | k in keys :: k in m
  {
    if keys == [] then [] else [Completion(m[keys[0]], WasShutdown, at)] + ShutdownAll(keys[1..], m, at)
  }

  function Put(s: State, f: Flight): State {
    s.(net := s.net[s.nextToken := f], nextToken := s.nextToken + 1)
  }

  function Finished(s: State, call: nat, outcome: Ending): seq<Completion> {
    s.completions + [Completion(call, outcome, |s.heard|)]
  }

  /** The end of a failed `send`: the entry is taken and its call completed, if it is still there. */
  function TakeAndFinish(s: State, k: nat, outcome: Ending): State {
    var (c, call) := Take(s.client, k);
    var s1 := s.(client := c, senders := s.senders - {k});
    match call
    case None => s1
    case Some(id) => s1.(taken := s.taken[k := id], completions := Finished(s, id, outcome))
  }

  /** How the reading goroutine goes on after an error of the connection. */
  function AfterError(s: State): State { s.(input := if s.client.suicide then Tail else ReadFailed) }

  /** What the client makes of a payload: it is decoded into the reply object of the call. */
  function Understood(env: Env, want: Shape, t: bv8, payload: Bytes, md: Option<Metadata>): Ending {
    if t !in env.clientCodecs then NoReplyCodec
    else
      match env.clientCodecs[t].decode(want, payload)
      case None => Undecodable
      case Some(v) => Reply(v, md)
  }

  /** What a response that is not a heartbeat means to its call. */
  function OutcomeOf(env: Env, want: Shape, msg: Msg): Ending {
    if StatusType(msg.header) == ERROR_STATUS then
      RemoteError(if SERVICE_ERROR in msg.Entries() then msg.Entries()[SERVICE_ERROR] else [])
    else
      Understood(env, want, SerializeType(msg.header), msg.payload, msg.metadata)
  }

  /** The metadata in a frame itself, whatever the message it is decoded into held. */
  function OwnMetadata(env: Env, bytes: Bytes): Option<Metadata> {
    var r := Frame.Decode(env.wire, None, [], bytes);
    if r.Ok? then r.msg.metadata else None
  }

  ghost function Apply(env: Env, s: State, step: Step): State
    requires Enabled(env, s, step)
  {
    match step
    case Send(call, now) =>
      var id := |s.calls|;
      var (c, k) := Register(s.client, id, now);
      var s1 := s.(client := c, calls := s.calls + [call]);
      if k == None then
        s1.(refused := s.refused + {id}, completions := Finished(s, id, WasShutdown))
      else
        s1.(senders := s.senders[k.value := Sender(id, s.client.conn, false)], issued := s.issued + 1)
    case EncodeFail(k) => TakeAndFinish(s, k, NotEncoded)
    case Leave(k, order) =>
      var f := s.senders[k];
      Put(s.(senders := s.senders[k := f.(left := true)]),
          ToServer(f.conn, Encoded(env.wire, RequestOf(env, s, k).value, order), k))
    case WriteOk(k) => s.(senders := s.senders - {k})
    case WriteFail(k) => TakeAndFinish(s, k, NotWritten)
    case Lose(t) => s.(net := s.net - {t})
    case ServerEnds(conn) => s.(goneConns := s.goneConns + {conn})
    case Accept(t, order) =>
      var f := s.net[t];
      var s1 := s.(net := s.net - {t});
      var r := Frame.Decode(env.wire, None, [], f.bytes);
      if !r.Ok? then s1.(goneConns := s.goneConns + {f.conn})
      else if IsHeartbeat(r.msg.header) then
        Put(s1, ToClient(f.conn, Encoded(env.wire, Echo(r.msg), order), f.origin))
      else
        Put(s1, Handling(f.conn, r.msg, f.origin))
    case Respond(t, world, order) =>
      var f := s.net[t];
      var s1 := s.(net := s.net - {t});
      var m := Response(env, f.req, world);
      if m == None || f.conn in s.goneConns then s1
      else Put(s1, ToClient(f.conn, Encoded(env.wire, m.value, order), f.origin))
    case Read(t) =>
      var s1 := s.(net := s.net - {t});
      var r := Frame.Decode(env.wire, s.received, [], s.net[t].bytes);
      if !r.Ok? then AfterError(s1)
      else
        s1.(input := Got(r.msg), received := r.msg.metadata, heard := s.heard + [OwnMetadata(env, s.net[t].bytes)])
    case TakeResponse =>
      var k := SeqNo(s.input.msg.header);
      var (c, call) := Take(s.client, k);
      var s1 := s.(client := c, input := Delivering(s.input.msg, call));
      if call == None then s1 else s1.(taken := s.taken[k := call.value])
    case Deliver =>
      var msg := s.input.msg;
      if s.input.call == None then
        if IsHeartbeat(msg.header) then s.(crashed := Some(NilHeartbeat)) else s.(input := Reading)
      else
        var id := s.input.call.value;
        var outcome := if IsHeartbeat(msg.header) then HeartbeatOk else OutcomeOf(env, s.calls[id].want, msg);
        s.(input := Reading, completions := Finished(s, id, outcome))
    case ReadError => AfterError(s)
    case StartReconnect =>
      var (c, go) := BeginReconnect(s.client);
      s.(client := c, input := if go then Redialling else Tail)
    case Redialled =>
      s.(client := Reconnected(s.client, s.nextConn), nextConn := s.nextConn + 1, input := Reading)
    case RedialFailed => s.(client := ReconnectLost(s.client), input := Tail)
    case InputTail => s.(input := if s.client.status == ReconnectFailed then Stuck else Exited)
    case KeepaliveFails =>
      var closed := if s.client.status == Available then {s.client.conn} else {};
      s.(client := KeepaliveClose(s.client), closedConns := s.closedConns + closed)
    case CloseCall(keys) =>
      if !Closes(s.client) then s
      else
        s.(client := Close(s.client),
           closedConns := s.closedConns + {s.client.conn},
           closes := s.closes + [s.client.pending.Values],
           completions := s.completions + ShutdownAll(keys, s.client.pending, |s.heard|),
           crashed := if s.client.doneClosed then Some(DoubleClose) else None)
  }

  /** Every state follows from the one before by the step beside it. */
  ghost predicate Path(env: Env, s: State, states: seq<State>, steps: seq<Step>) {
    && |states| == |steps| + 1
    && states[0] == s
    && forall i | 0 <= i < |steps| ::
         Enabled(env, states[i], steps[i]) && states[i + 1] == Apply(env, states[i], steps[i])
  }

  ghost predicate Run(env: Env, states: seq<State>, steps: seq<Step>) {
    Path(env, START, states, steps)
  }

  lemma StepPath(env: Env, s: State, step: Step)
    requires Enabled(env, s, step)
    ensures Path(env, s, [s, Apply(env, s, step)], [step])
  {
    hide Apply, Enabled;
  }

  /** One path after the other. */
  lemma PathAppend(env: Env, s: State, a: seq<State>, p: seq<Step>, b: seq<State>, q: seq<Step>)
    requires Path(env, s, a, p) && Path(env, a[|p|], b, q)
    ensures Path(env, s, a + b[1..], p + q) && (a + b[1..])[|p + q|] == b[|q|]
  {
    hide Apply, Enabled;
    var states, steps := a + b[1..], p + q;
    forall i | 0 <= i < |steps|
      ensures Enabled(env, states[i], steps[i]) && states[i + 1] == Apply(env, states[i], steps[i])
    {
      if i < |p| {
        assert states[i] == a[i] && states[i + 1] == a[i + 1] && steps[i] == p[i];
      } else {
        assert states[i] == b[i - |p|] && states[i + 1] == b[i - |p| + 1] && steps[i] == q[i - |p|];
      }
    }
  }
}
