/** What is on its way: every frame, handler and response belongs to one registered call, and to its content. */
module InFlight {
  import opened Bytes
  import opened MetadataCodec
  import Frame
  import FrameLaws
  import opened Header
  import opened Server
  import opened Connection
  import opened Exchange
  import opened Ledger

  function Known(s: State): map<nat, nat> { Registered(BookOf(s)) }

  /** A `send` under this number has not let go of its frame. */
  predicate Waits(senders: map<nat, Sender>, k: nat) { k in senders && !senders[k].left }

  /** The frame or handler holds what belongs to this call. */
  ghost predicate Carries(env: Env, call: Call, f: Flight) {
    match f
    case ToServer(_, bytes, k) => RequestFrame(env, call, k, bytes)
    case Handling(_, req, k) => Request(env, call, k).Some? && req == RequestAtServer(env, call, k) && !call.heartbeat
    case ToClient(_, bytes, k) => ReplyFrame(env, call, k, bytes)
  }

  ghost predicate FlightOk(env: Env, s: State, f: Flight) {
    && f.origin in Known(s) && !Waits(s.senders, f.origin) && f.origin < U64
    && Known(s)[f.origin] < |s.calls|
    && Carries(env, s.calls[Known(s)[f.origin]], f)
  }

  ghost predicate NetOk(env: Env, s: State) {
    && (forall t | t in s.net :: t < s.nextToken && FlightOk(env, s, s.net[t]))
    && (forall t, u | t in s.net && u in s.net && t != u :: s.net[t].origin != s.net[u].origin)
  }

  /** The last metadata that any of the responses carried. */
  function LastSome(heard: seq<Option<Metadata>>): Option<Metadata> {
    if heard == [] then None
    else if heard[|heard| - 1].Some? then heard[|heard| - 1]
    else LastSome(heard[..|heard| - 1])
  }

  /** The response read last, decoded into a message that held the metadata of the ones before. */
  ghost predicate ReadLast(env: Env, call: Call, heard: seq<Option<Metadata>>, msg: Frame.Msg) {
    heard != [] && ReplyRead(env, call, SeqNo(msg.header), LastSome(heard[..|heard| - 1]), msg)
  }

  ghost predicate Arrived(env: Env, s: State, msg: Frame.Msg) {
    var k := SeqNo(msg.header);
    && k in Known(s) && !Waits(s.senders, k) && Known(s)[k] < |s.calls|
    && (forall t | t in s.net :: s.net[t].origin != k)
    && ReadLast(env, s.calls[Known(s)[k]], s.heard, msg)
  }

  ghost predicate InputOk(env: Env, s: State) {
    match s.input
    case Got(msg) => Arrived(env, s, msg)
    case Delivering(msg, call) =>
      && Arrived(env, s, msg)
      && SeqNo(msg.header) !in s.client.pending
      && (call.Some? ==> call.value == Known(s)[SeqNo(msg.header)])
    case _ => true
  }

  ghost predicate UnsentPending(s: State) {
    forall k | Waits(s.senders, k) :: k in s.client.pending
  }

  /** What every reachable state satisfies. */
  ghost predicate Coherent(env: Env, s: State) {
    && Balanced(BookOf(s)) && UnsentPending(s) && NetOk(env, s) && InputOk(env, s)
    && s.received == LastSome(s.heard)
  }

  // Changes of the network.

  /** Registrations are kept; none waits or is pending that did not before. */
  ghost predicate Extends(s: State, s': State) {
    && s.calls <= s'.calls
    && forall k | k in Known(s) ::
         && k in Known(s') && Known(s')[k] == Known(s)[k]
         && (Waits(s'.senders, k) ==> Waits(s.senders, k))
         && (k in s'.client.pending ==> k in s.client.pending)
  }

  lemma FlightStable(env: Env, s: State, s': State, f: Flight)
    requires FlightOk(env, s, f) && Extends(s, s')
    ensures FlightOk(env, s', f)
  {
    hide Carries, Known, Waits;
  }

  lemma NetStable(env: Env, s: State, s': State)
    requires NetOk(env, s) && Extends(s, s') && s'.net == s.net && s'.nextToken == s.nextToken
    ensures NetOk(env, s')
  {
    hide FlightOk, Extends;
    forall t | t in s'.net
      ensures FlightOk(env, s', s'.net[t])
    {
      FlightStable(env, s, s', s.net[t]);
    }
  }

  lemma NetRemove(env: Env, s: State, t: nat)
    requires NetOk(env, s)
    ensures NetOk(env, s.(net := s.net - {t}))
  {
    hide Carries;
    var s' := s.(net := s.net - {t});
    forall u | u in s'.net
      ensures u < s'.nextToken && FlightOk(env, s', s'.net[u])
    {
      assert FlightOk(env, s, s.net[u]);
    }
  }

  lemma NetPut(env: Env, s: State, f: Flight)
    requires NetOk(env, s) && FlightOk(env, s, f) && forall t | t in s.net :: s.net[t].origin != f.origin
    ensures NetOk(env, Put(s, f))
  {
    hide Carries;
    var s' := Put(s, f);
    forall u | u in s'.net
      ensures u < s'.nextToken && FlightOk(env, s', s'.net[u])
    {
      if u in s.net {
        assert FlightOk(env, s, s.net[u]);
      }
    }
  }

  lemma NetReplace(env: Env, s: State, t: nat, f: Flight)
    requires NetOk(env, s) && t in s.net && f.origin == s.net[t].origin
    requires f.origin in Known(s) && Known(s)[f.origin] < |s.calls| && Carries(env, s.calls[Known(s)[f.origin]], f)
    ensures NetOk(env, Put(s.(net := s.net - {t}), f))
  {
    hide Carries;
    var s1 := s.(net := s.net - {t});
    NetRemove(env, s, t);
    assert FlightOk(env, s, s.net[t]);
    NetPut(env, s1, f);
  }

  /** The response in hand is kept while no frame of the same number comes up. */
  lemma InputStable(env: Env, s: State, s': State)
    requires InputOk(env, s) && Extends(s, s') && s'.input == s.input && s'.heard == s.heard
    requires forall u | u in s'.net :: exists t :: t in s.net && s.net[t].origin == s'.net[u].origin
    ensures InputOk(env, s')
  {
    hide ReadLast, SeqNo, Known, Waits;
  }

  // Steps.

  lemma SendCoherent(env: Env, s: State, call: Call, now: int)
    requires Coherent(env, s) && Enabled(env, s, Send(call, now))
    requires Apply(env, s, Send(call, now)).issued < U64
    ensures Coherent(env, Apply(env, s, Send(call, now)))
  {
    hide Balanced, InputOk, NetOk, Apply, Enabled, Extends, UnsentPending;
    var s' := Apply(env, s, Send(call, now));
    SendBalanced(env, s, call, now);
    SendExtends(env, s, call, now);
    SendUnsent(env, s, call, now);
    NetStable(env, s, s');
    InputStable(env, s, s');
  }

  lemma SendUnsent(env: Env, s: State, call: Call, now: int)
    requires UnsentPending(s) && Enabled(env, s, Send(call, now))
    ensures var s' := Apply(env, s, Send(call, now));
            && UnsentPending(s') && s'.net == s.net && s'.nextToken == s.nextToken
            && s'.input == s.input && s'.heard == s.heard && s'.received == s.received
  {
  }

  lemma SendExtends(env: Env, s: State, call: Call, now: int)
    requires Balanced(BookOf(s)) && Enabled(env, s, Send(call, now))
    requires Apply(env, s, Send(call, now)).issued < U64
    ensures Extends(s, Apply(env, s, Send(call, now)))
  {
    hide Balanced, Apply, Enabled, Registered;
    SendFiles(env, s, call, now);
  }

  lemma FinishCoherent(env: Env, s: State, k: nat, outcome: Ending)
    requires Coherent(env, s) && k in s.senders
    ensures Coherent(env, TakeAndFinish(s, k, outcome))
  {
    hide Balanced, InputOk, FlightOk, NetOk, Registered;
    FinishBalanced(s, k, outcome);
    var s' := TakeAndFinish(s, k, outcome);
    assert Extends(s, s');
    NetStable(env, s, s');
    InputStable(env, s, s');
  }

  lemma WriteOkCoherent(env: Env, s: State, k: nat)
    requires Coherent(env, s) && Enabled(env, s, WriteOk(k))
    ensures Coherent(env, Apply(env, s, WriteOk(k)))
  {
    hide Balanced, InputOk, FlightOk, NetOk, Registered;
    SenderBalanced(env, s, WriteOk(k));
    var s' := Apply(env, s, WriteOk(k));
    assert Extends(s, s');
    NetStable(env, s, s');
    InputStable(env, s, s');
  }

  /** The state in which the frame has left but is not in the network yet. */
  function LetGo(s: State, k: nat): State
    requires k in s.senders
  {
    s.(senders := s.senders[k := s.senders[k].(left := true)])
  }

  lemma LetGoCoherent(env: Env, s: State, k: nat)
    requires Coherent(env, s) && k in s.senders
    ensures Coherent(env, LetGo(s, k))
  {
    hide Balanced, InputOk, FlightOk, NetOk, Registered;
    BookSenders(BookOf(s), LetGo(s, k).senders);
    var s' := LetGo(s, k);
    assert Known(s') == Known(s) by { LetGoKnown(s, k); }
    assert Extends(s, s');
    NetStable(env, s, s');
    InputStable(env, s, s');
  }

  lemma LetGoKnown(s: State, k: nat)
    requires k in s.senders
    ensures Known(LetGo(s, k)) == Known(s)
  {
  }

  lemma LeaveCoherent(env: Env, s: State, k: nat, order: seq<Bytes>)
    requires Coherent(env, s) && Enabled(env, s, Leave(k, order)) && s.issued < U64
    ensures Coherent(env, Apply(env, s, Leave(k, order)))
  {
    hide Balanced, ReadLast, SeqNo, Carries, Request, Frame.Encoded, Registered, ReplyFrame, RequestFrame;
    var s1 := LetGo(s, k);
    var f := ToServer(s.senders[k].conn, Frame.Encoded(env.wire, RequestOf(env, s, k).value, order), k);
    LetGoCoherent(env, s, k);
    LetGoKnown(s, k);
    SenderKnown(s, k);
    assert Carries(env, s.calls[Known(s)[k]], f) by { LeftCarries(env, s, k, order); }
    NoneOnTheWay(env, s, k);
    NetPut(env, s1, f);
    assert Put(s1, f) == Apply(env, s, Leave(k, order));
    ArrivedBeside(env, s1, f, s, k);
    SenderBalanced(env, s, Leave(k, order));
  }

  lemma SenderKnown(s: State, k: nat)
    requires Balanced(BookOf(s)) && k in s.senders
    ensures k in Known(s) && Known(s)[k] == s.senders[k].call < |s.calls| && 1 <= k <= s.issued
  {
    KnownKey(s, k);
  }

  lemma NoneOnTheWay(env: Env, s: State, k: nat)
    requires NetOk(env, s) && Waits(s.senders, k)
    ensures forall t | t in s.net :: s.net[t].origin != k
  {
    hide Carries;
    forall t | t in s.net
      ensures s.net[t].origin != k
    {
      assert FlightOk(env, s, s.net[t]);
    }
  }

  /** A response in hand is none to a call whose frame leaves now. */
  lemma ArrivedBeside(env: Env, s1: State, f: Flight, s: State, k: nat)
    requires InputOk(env, s1) && InputOk(env, s) && s1.input == s.input && f.origin == k && Waits(s.senders, k)
    ensures InputOk(env, Put(s1, f))
  {
    hide ReadLast, SeqNo;
  }

  lemma LeftCarries(env: Env, s: State, k: nat, order: seq<Bytes>)
    requires Enabled(env, s, Leave(k, order))
    ensures var bytes := Frame.Encoded(env.wire, RequestOf(env, s, k).value, order);
            Carries(env, s.calls[s.senders[k].call], ToServer(s.senders[k].conn, bytes, k))
  {
  }

  /** What the server makes of an arriving frame: an echo, or a running handler. */
  function Accepted(env: Env, f: Flight, m: Frame.Msg, order: seq<Bytes>): Flight
    requires IsHeartbeat(m.header) ==> Enumerates(order, Echo(m).Entries())
  {
    if IsHeartbeat(m.header) then ToClient(f.conn, Frame.Encoded(env.wire, Echo(m), order), f.origin)
    else Handling(f.conn, m, f.origin)
  }

  lemma AcceptedCarries(env: Env, call: Call, f: Flight, order: seq<Bytes>)
    requires LawfulEnv(env) && f.ToServer? && f.origin < U64 && RequestFrame(env, call, f.origin, f.bytes)
    requires var r := Frame.Decode(env.wire, None, [], f.bytes);
             r.Ok? && (IsHeartbeat(r.msg.header) ==> Framed(env, Echo(r.msg), order))
    ensures Carries(env, call, Accepted(env, f, Frame.Decode(env.wire, None, [], f.bytes).msg, order))
  {
    hide Frame.Decode, IsHeartbeat, RequestAtServer, Frame.Encoded, Request;
    var m := Frame.Decode(env.wire, None, [], f.bytes).msg;
    ReadRequest(env, call, f.origin, f.bytes);
    RequestAtServerFields(env, call, f.origin);
    if IsHeartbeat(m.header) {
      assert ReplyMsg(env, call, f.origin, Echo(m));
    }
  }

  /** The call that a frame or handler belongs to. */
  function CallOf(s: State, f: Flight): Call
    requires f.origin in Known(s) && Known(s)[f.origin] < |s.calls|
  {
    s.calls[Known(s)[f.origin]]
  }

  lemma AcceptNet(env: Env, s: State, t: nat, order: seq<Bytes>)
    requires LawfulEnv(env) && NetOk(env, s) && Enabled(env, s, Accept(t, order))
    ensures NetOk(env, Apply(env, s, Accept(t, order)))
  {
    hide Balanced, InputOk, Frame.Decode, IsHeartbeat, Frame.Encoded, Framed, RequestFrame, ReplyFrame, Known, NetOk;
    var f := s.net[t];
    assert FlightOk(env, s, f) by { NetFlight(env, s, t); }
    var r := Frame.Decode(env.wire, None, [], f.bytes);
    NetRemove(env, s, t);
    if r.Ok? {
      if IsHeartbeat(r.msg.header) {
        FramedOrder(env, Echo(r.msg), order);
      }
      AcceptedCarries(env, CallOf(s, f), f, order);
      NetReplace(env, s, t, Accepted(env, f, r.msg, order));
    } else {
      NetEnds(env, s.(net := s.net - {t}), f.conn);
    }
  }

  lemma NetEnds(env: Env, s: State, conn: nat)
    requires NetOk(env, s)
    ensures NetOk(env, s.(goneConns := s.goneConns + {conn}))
  {
    hide NetOk, Registered;
    NetStable(env, s, s.(goneConns := s.goneConns + {conn}));
  }

  lemma NetFlight(env: Env, s: State, t: nat)
    requires NetOk(env, s) && t in s.net
    ensures FlightOk(env, s, s.net[t])
  {
  }

  /** The steps between a frame's leaving and its being read touch nothing but the network. */
  predicate Carriage(step: Step) { step.Lose? || step.Accept? || step.Respond? }

  /** Nothing but the network and the ended connections has changed, and no number has come up. */
  ghost predicate OnlyNet(s: State, s': State) {
    && BookOf(s') == BookOf(s) && s'.calls == s.calls && s'.input == s.input
    && s'.heard == s.heard && s'.received == s.received && s'.crashed == s.crashed
    && (forall u | u in s'.net :: exists t :: t in s.net && s.net[t].origin == s'.net[u].origin)
  }

  lemma AcceptState(env: Env, s: State, t: nat, order: seq<Bytes>)
    requires Enabled(env, s, Accept(t, order))
    ensures OnlyNet(s, Apply(env, s, Accept(t, order)))
  {
    hide Frame.Decode, Frame.Encoded, IsHeartbeat, Framed, Echo;
  }

  lemma RespondState(env: Env, s: State, t: nat, world: World, order: seq<Bytes>)
    requires Enabled(env, s, Respond(t, world, order))
    ensures OnlyNet(s, Apply(env, s, Respond(t, world, order)))
  {
    hide Frame.Encoded, Response, Possible, Framed;
  }

  lemma LoseState(env: Env, s: State, t: nat)
    requires Enabled(env, s, Lose(t))
    ensures OnlyNet(s, Apply(env, s, Lose(t)))
  {
  }

  lemma CarriageState(env: Env, s: State, step: Step)
    requires Enabled(env, s, step) && Carriage(step)
    ensures OnlyNet(s, Apply(env, s, step))
  {
    hide Apply, Enabled, OnlyNet;
    match step {
      case Lose(t) => LoseState(env, s, t);
      case Accept(t, order) => AcceptState(env, s, t, order);
      case Respond(t, world, order) => RespondState(env, s, t, world, order);
    }
  }

  lemma CarriageCoherent(env: Env, s: State, step: Step)
    requires Coherent(env, s) && Enabled(env, s, step) && Carriage(step) && NetOk(env, Apply(env, s, step))
    ensures Coherent(env, Apply(env, s, step))
  {
    hide Balanced, InputOk, NetOk, Apply, Enabled, Registered;
    CarriageState(env, s, step);
    assert Extends(s, Apply(env, s, step));
    InputStable(env, s, Apply(env, s, step));
  }

  lemma FramedOrder(env: Env, m: Frame.Msg, order: seq<Bytes>)
    requires Framed(env, m, order)
    ensures Enumerates(order, m.Entries())
  {
  }

  lemma RespondedCarries(env: Env, call: Call, f: Flight, world: World, order: seq<Bytes>)
    requires f.Handling? && Carries(env, call, f)
    requires f.origin < U64 && Possible(f.req.Entries(), world)
    requires var m := Response(env, f.req, world); m.Some? && Framed(env, m.value, order)
    ensures Carries(env, call,
                    ToClient(f.conn, Frame.Encoded(env.wire, Response(env, f.req, world).value, order), f.origin))
  {
    hide Response, Possible, RequestAtServer, Frame.Encoded, Request;
    RequestAtServerFields(env, call, f.origin);
    assert ReplyMsg(env, call, f.origin, Response(env, f.req, world).value);
  }

  lemma RespondNet(env: Env, s: State, t: nat, world: World, order: seq<Bytes>)
    requires NetOk(env, s) && Enabled(env, s, Respond(t, world, order))
    ensures NetOk(env, Apply(env, s, Respond(t, world, order)))
  {
    hide Frame.Encoded, Response, Possible, Carries, NetOk, Framed, Known;
    var f := s.net[t];
    assert FlightOk(env, s, f) by { NetFlight(env, s, t); }
    var m := Response(env, f.req, world);
    NetRemove(env, s, t);
    if m.Some? {
      FramedOrder(env, m.value, order);
      RespondedCarries(env, CallOf(s, f), f, world, order);
      NetReplace(env, s, t, ToClient(f.conn, Frame.Encoded(env.wire, m.value, order), f.origin));
    }
  }

  lemma LastSomeAppend(heard: seq<Option<Metadata>>, own: Option<Metadata>)
    ensures LastSome(heard + [own]) == if own.Some? then own else LastSome(heard)
    ensures (heard + [own])[..|heard|] == heard
  {
    assert (heard + [own])[..|heard|] == heard;
  }

  /** Whatever is read: the reused message holds the last metadata that came. */
  lemma ReadKeepsLast(env: Env, s: State, t: nat)
    requires Enabled(env, s, Connection.Read(t)) && s.received == LastSome(s.heard)
    ensures var s' := Apply(env, s, Connection.Read(t)); s'.received == LastSome(s'.heard)
  {
    hide Frame.Decode;
    FrameLaws.MetadataLeak(env.wire, s.received, [], s.net[t].bytes);
    LastSomeAppend(s.heard, OwnMetadata(env, s.net[t].bytes));
  }

  lemma ReadCoherent(env: Env, s: State, t: nat)
    requires LawfulEnv(env) && Coherent(env, s) && Enabled(env, s, Connection.Read(t))
    ensures Coherent(env, Apply(env, s, Connection.Read(t)))
  {
    hide Balanced, FlightOk, NetOk, Arrived, Registered, Apply, Enabled, Frame.Decode, OwnMetadata, LastSome;
    var s' := Apply(env, s, Connection.Read(t));
    ReadState(env, s, t);
    ReadKeepsLast(env, s, t);
    NetRemove(env, s, t);
    assert Extends(s.(net := s.net - {t}), s');
    NetStable(env, s.(net := s.net - {t}), s');
    var r := Frame.Decode(env.wire, s.received, [], s.net[t].bytes);
    if r.Ok? {
      ReadArrives(env, s, t, s', r.msg);
    }
  }

  lemma ReadArrives(env: Env, s: State, t: nat, s': State, msg: Frame.Msg)
    requires LawfulEnv(env) && NetOk(env, s) && s.received == LastSome(s.heard) && t in s.net && s.net[t].ToClient?
    requires var r := Frame.Decode(env.wire, s.received, [], s.net[t].bytes); r.Ok? && r.msg == msg
    requires s'.net == s.net - {t} && BookOf(s') == BookOf(s) && s'.calls == s.calls
    requires s'.heard == s.heard + [OwnMetadata(env, s.net[t].bytes)]
    ensures Arrived(env, s', msg)
  {
    hide Frame.Decode, SeqNo, OwnMetadata, LastSome, ReadLast, FlightOk, Registered, NetOk, ReplyRead;
    var f := s.net[t];
    NetFlight(env, s, t);
    ReadFlight(env, s, f);
    AloneInNet(env, s, t);
    IntroduceReadLast(env, CallOf(s, f), s.heard, OwnMetadata(env, f.bytes), msg);
  }

  lemma ReadState(env: Env, s: State, t: nat)
    requires Enabled(env, s, Connection.Read(t))
    ensures t in s.net && s.net[t].ToClient?
    ensures var s' := Apply(env, s, Connection.Read(t));
            var r := Frame.Decode(env.wire, s.received, [], s.net[t].bytes);
            && s'.net == s.net - {t} && s'.nextToken == s.nextToken && s'.crashed == s.crashed
            && BookOf(s') == BookOf(s) && s'.calls == s.calls
            && (if r.Ok? then s'.heard == s.heard + [OwnMetadata(env, s.net[t].bytes)] && s'.input == Got(r.msg)
                else s'.heard == s.heard && !s'.input.Got? && !s'.input.Delivering?)
  {
    hide Frame.Decode, OwnMetadata;
  }

  lemma AloneInNet(env: Env, s: State, t: nat)
    requires NetOk(env, s) && t in s.net
    ensures forall u | u in s.net - {t} :: s.net[u].origin != s.net[t].origin
  {
    hide FlightOk;
  }

  lemma ReadFlight(env: Env, s: State, f: Flight)
    requires LawfulEnv(env) && FlightOk(env, s, f) && f.ToClient?
    ensures f.origin in Known(s) && Known(s)[f.origin] < |s.calls| && !Waits(s.senders, f.origin)
    ensures var r := Frame.Decode(env.wire, s.received, [], f.bytes);
            r.Ok? ==> ReplyRead(env, CallOf(s, f), f.origin, s.received, r.msg) && SeqNo(r.msg.header) == f.origin
  {
    hide Frame.Decode, SeqNo, ReplyRead, ReplyFrame, Registered;
    ReadReply(env, CallOf(s, f), f.origin, f.bytes, s.received);
  }

  lemma IntroduceReadLast(env: Env, call: Call, heard: seq<Option<Metadata>>, own: Option<Metadata>, msg: Frame.Msg)
    requires ReplyRead(env, call, SeqNo(msg.header), LastSome(heard), msg)
    ensures ReadLast(env, call, heard + [own], msg)
  {
    hide ReplyRead, SeqNo, LastSome;
    LastSomeAppend(heard, own);
  }

  lemma TakeResponseCoherent(env: Env, s: State)
    requires Coherent(env, s) && Enabled(env, s, TakeResponse)
    ensures Coherent(env, Apply(env, s, TakeResponse))
  {
    hide Balanced, SeqNo, ReadLast, Carries, Registered, NetOk;
    var s' := Apply(env, s, TakeResponse);
    var k := SeqNo(s.input.msg.header);
    TakeResponseBalanced(env, s);
    KnownKey(s, k);
    assert Extends(s, s');
    NetStable(env, s, s');
    assert Arrived(env, s', s.input.msg);
  }

  /** The steps that touch neither the table nor the network. */
  predicate Quiet(step: Step) {
    step.Deliver? || step.ReadError? || step.StartReconnect? || step.Redialled? || step.RedialFailed?
    || step.InputTail? || step.KeepaliveFails? || step.CloseCall? || step.ServerEnds?
  }

  ghost predicate OnlyInput(s: State, s': State) {
    && BookOf(s') == BookOf(s) && s'.net == s.net && s'.nextToken == s.nextToken && s'.calls == s.calls
    && s'.heard == s.heard && s'.received == s.received
    && (s'.input == s.input || (!s'.input.Got? && !s'.input.Delivering?))
  }

  lemma StatusKeeps(env: Env, s: State, step: Step)
    requires Enabled(env, s, step)
    requires step.StartReconnect? || step.Redialled? || step.RedialFailed? || step.KeepaliveFails? || step.CloseCall?
    ensures OnlyInput(s, Apply(env, s, step))
  {
    hide Apply, Enabled, OnlyInput;
    if step.CloseCall? {
      CloseKeeps(env, s, step.keys);
    } else if step.KeepaliveFails? {
      KeepaliveKeeps(env, s);
    } else {
      ReconnectKeeps(env, s, step);
    }
  }

  lemma CloseKeeps(env: Env, s: State, keys: seq<nat>)
    requires Enabled(env, s, CloseCall(keys))
    ensures OnlyInput(s, Apply(env, s, CloseCall(keys)))
  {
    hide ShutdownAll, EnumeratesKeys;
  }

  lemma KeepaliveKeeps(env: Env, s: State)
    requires Enabled(env, s, KeepaliveFails)
    ensures OnlyInput(s, Apply(env, s, KeepaliveFails))
  {
  }

  lemma ReconnectKeeps(env: Env, s: State, step: Step)
    requires Enabled(env, s, step) && (step.StartReconnect? || step.Redialled? || step.RedialFailed?)
    ensures OnlyInput(s, Apply(env, s, step))
  {
  }

  lemma DeliverKeeps(env: Env, s: State)
    requires Enabled(env, s, Deliver)
    ensures OnlyInput(s, Apply(env, s, Deliver))
  {
    hide OutcomeOf, IsHeartbeat;
  }

  lemma EndKeeps(env: Env, s: State, step: Step)
    requires Enabled(env, s, step) && (step.ReadError? || step.InputTail? || step.ServerEnds?)
    ensures OnlyInput(s, Apply(env, s, step))
  {
  }

  lemma QuietKeeps(env: Env, s: State, step: Step)
    requires Enabled(env, s, step) && Quiet(step)
    ensures OnlyInput(s, Apply(env, s, step))
  {
    hide Apply, Enabled, OnlyInput;
    if step.Deliver? {
      DeliverKeeps(env, s);
    } else if step.ReadError? || step.InputTail? || step.ServerEnds? {
      EndKeeps(env, s, step);
    } else {
      StatusKeeps(env, s, step);
    }
  }

  lemma QuietCoherent(env: Env, s: State, step: Step)
    requires Coherent(env, s) && Enabled(env, s, step) && Quiet(step)
    ensures Coherent(env, Apply(env, s, step))
  {
    hide Balanced, FlightOk, NetOk, ReadLast, SeqNo, Apply, Enabled;
    var s' := Apply(env, s, step);
    QuietKeeps(env, s, step);
    assert Extends(s, s');
    NetStable(env, s, s');
    if s'.input == s.input {
      InputStable(env, s, s');
    }
  }

  lemma LoseNet(env: Env, s: State, t: nat)
    requires NetOk(env, s) && Enabled(env, s, Lose(t))
    ensures NetOk(env, Apply(env, s, Lose(t)))
  {
    hide NetOk;
    NetRemove(env, s, t);
  }

  lemma TransportCoherent(env: Env, s: State, step: Step)
    requires LawfulEnv(env) && Coherent(env, s) && Enabled(env, s, step) && Carriage(step)
    ensures Coherent(env, Apply(env, s, step))
  {
    hide Apply, Enabled, NetOk, InputOk, Balanced, UnsentPending;
    match step {
      case Lose(t) => LoseNet(env, s, t);
      case Accept(t, order) => AcceptNet(env, s, t, order);
      case Respond(t, world, order) => RespondNet(env, s, t, world, order);
    }
    hide Coherent;
    CarriageCoherent(env, s, step);
  }

  lemma StepCoherent(env: Env, s: State, step: Step)
    requires LawfulEnv(env) && Coherent(env, s) && Enabled(env, s, step)
    requires Apply(env, s, step).issued < U64
    ensures Coherent(env, Apply(env, s, step))
  {
    hide Coherent, TakeAndFinish, Request, Response, Possible, Frame.Decode, Frame.Encoded;
    hide OutcomeOf, ShutdownAll, SeqNo;
    hide Framed, IsHeartbeat;
    match step
    case Send(call, now) => SendCoherent(env, s, call, now);
    case EncodeFail(k) => FinishCoherent(env, s, k, NotEncoded);
    case WriteFail(k) => FinishCoherent(env, s, k, NotWritten);
    case WriteOk(k) => WriteOkCoherent(env, s, k);
    case Leave(k, order) => LeaveCoherent(env, s, k, order);
    case Lose(_) => TransportCoherent(env, s, step);
    case Accept(_, _) => TransportCoherent(env, s, step);
    case Respond(_, _, _) => TransportCoherent(env, s, step);
    case Read(t) => ReadCoherent(env, s, t);
    case TakeResponse => TakeResponseCoherent(env, s);
    case _ => QuietCoherent(env, s, step);
  }

  lemma StartCoherent(env: Env)
    ensures Coherent(env, START)
  {
    StartBalanced();
  }
}
