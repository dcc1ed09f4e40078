/** How a frame on a live connection gets through, behind the frames that were sent before it. */
module Delivery {
  import opened Bytes
  import opened Header
  import opened MetadataCodec
  import Frame
  import opened FrameLaws
  import opened Server
  import opened Connection
  import opened Exchange
  import opened Ledger
  import opened InFlight
  import opened Correlation

  /** The frame is within the receiver's limit. */
  ghost predicate Admitted(env: Env, m: Frame.Msg, order: seq<Bytes>)
    requires Enumerates(order, m.Entries())
  {
    env.wire.maxLength > 0 ==> |Frame.BodyOf(env.wire, m, order)| <= env.wire.maxLength
  }

  /** A message that its receiver takes. */
  ghost predicate Passes(env: Env, m: Frame.Msg, order: seq<Bytes>) {
    m.header[0] == MAGIC && Framed(env, m, order) && Admitted(env, m, order)
  }

  lemma PassesThrough(env: Env, m: Frame.Msg, order: seq<Bytes>, prior: Option<Metadata>)
    requires LawfulEnv(env) && Passes(env, m, order)
    ensures Frame.Decode(env.wire, prior, [], Frame.Encoded(env.wire, m, order))
         == Frame.Ok(Received(env.wire, m, prior), [])
  {
    hide Frame.BodyOf, Frame.Decode, Received;
    var frame := Frame.Encoded(env.wire, m, order);
    RoundTrip(env.wire, m, order, prior, [], []);
    assert frame + [] == frame;
  }

  /** Compressing what was received gives the bytes that were sent. */
  lemma CompressAgain(w: Frame.Wire, h: HeaderBytes, payload: Bytes)
    ensures var h' := Frame.Compressed(w, h, payload).0;
            Frame.Compressed(w, WithMessageType(h', RESPONSE), payload).1 == Frame.Compressed(w, h, payload).1
  {
    hide MessageType, IsHeartbeat, IsOneway, StatusType, SerializeType, SeqNo, CompressType, WithMessageType;
    var h' := Frame.Compressed(w, h, payload).0;
    SetCompressTypeLaw(h, 0);
    SetMessageTypeLaw(h', RESPONSE);
    assert CompressType(WithMessageType(h', RESPONSE)) == View(h').compress;
    assert View(WithCompressType(h, 0)).compress == 0;
  }

  /** The echo of a heartbeat is as long as the heartbeat, and passes if it did. */
  lemma EchoPasses(env: Env, call: Call, k: nat, order: seq<Bytes>)
    requires k < U64 && Request(env, call, k).Some? && call.heartbeat
    requires Passes(env, Request(env, call, k).value, order)
    ensures Passes(env, Echo(RequestAtServer(env, call, k)), order)
    ensures IsHeartbeat(RequestAtServer(env, call, k).header)
    ensures var echo := Echo(RequestAtServer(env, call, k)); IsHeartbeat(echo.header) && SeqNo(echo.header) == k
  {
    hide MessageType, IsHeartbeat, IsOneway, StatusType, SerializeType, SeqNo, CompressType, WithMessageType;
    hide EncodeBlock, RequestHeader, Frame.Compressed, Frame.Body;
    var m := Request(env, call, k).value;
    var req := RequestAtServer(env, call, k);
    RequestAtServerFields(env, call, k);
    EchoFields(req.header);
    CompressAgain(env.wire, m.header, m.payload);
    assert m.Entries() == call.md;
    assert Frame.BodyOf(env.wire, Echo(req), order) == Frame.BodyOf(env.wire, m, order);
  }

  /** The reading goroutine has stopped reading its connection. */
  predicate Deaf(s: State) { !s.input.Reading? && !s.input.Got? && !s.input.Delivering? }

  /** The client will read nothing more from the connection. */
  predicate Dead(s: State, conn: nat) { conn != s.client.conn || conn in s.closedConns || Deaf(s) }

  /** A connection that both ends read. */
  predicate Live(s: State, conn: nat) { !Dead(s, conn) && conn !in s.goneConns }

  /** Of the messages that can be framed, exactly those within the limit are decoded. */
  lemma AdmittedExactly(env: Env, m: Frame.Msg, order: seq<Bytes>, prior: Option<Metadata>)
    requires LawfulEnv(env) && m.header[0] == MAGIC && Framed(env, m, order)
    ensures Enumerates(order, m.Entries())
    ensures Frame.Decode(env.wire, prior, [], Frame.Encoded(env.wire, m, order)).Ok? <==> Admitted(env, m, order)
  {
    hide Frame.BodyOf, Frame.Decode, Received;
    var frame := Frame.Encoded(env.wire, m, order);
    assert frame + [] == frame;
    RoundTripExactly(env.wire, m, order, prior, [], []);
    ReadEncoded(env.wire, m, order, prior);
  }

  // Frames in the order in which they were sent.

  /** Two frames that travel the same way on one connection. */
  predicate SameWay(f: Flight, g: Flight) {
    f.conn == g.conn && ((f.ToServer? && g.ToServer?) || (f.ToClient? && g.ToClient?))
  }

  /** The frames in front of one. */
  function Ahead(s: State, t: nat): set<nat>
    requires t in s.net
  {
    set u | u in s.net && u < t && SameWay(s.net[u], s.net[t])
  }

  /** Nothing is lost, no write fails, and a connection hands over its frames in the order in which they were sent. */
  predicate Smooth(s: State, step: Step) {
    match step
    case Accept(t, _) => t in s.net && Ahead(s, t) == {}
    case Read(t) => t in s.net && Ahead(s, t) == {}
    case Lose(_) => false
    case WriteFail(_) => false
    case _ => true
  }

  ghost predicate Course(env: Env, s: State, states: seq<State>, steps: seq<Step>) {
    Path(env, s, states, steps) && forall i | 0 <= i < |steps| :: Smooth(states[i], steps[i])
  }

  lemma CourseStep(env: Env, s: State, step: Step)
    requires Enabled(env, s, step) && Smooth(s, step)
    ensures Course(env, s, [s, Apply(env, s, step)], [step])
  {
    hide Apply, Enabled, Smooth;
    StepPath(env, s, step);
  }

  lemma CourseAppend(env: Env, s: State, a: seq<State>, p: seq<Step>, b: seq<State>, q: seq<Step>)
    requires Course(env, s, a, p) && Course(env, a[|p|], b, q)
    ensures Course(env, s, a + b[1..], p + q) && (a + b[1..])[|p + q|] == b[|q|]
  {
    hide Apply, Enabled, Smooth;
    PathAppend(env, s, a, p, b, q);
    var states, steps := a + b[1..], p + q;
    forall i | 0 <= i < |steps|
      ensures Smooth(states[i], steps[i])
    {
      if i < |p| {
        assert states[i] == a[i];
      } else {
        assert states[i] == b[i - |p|];
      }
    }
  }

  /** Some such course leads from one state to the other. */
  ghost predicate Leads(env: Env, s: State, s': State) {
    exists states: seq<State>, steps: seq<Step> :: Course(env, s, states, steps) && states[|steps|] == s'
  }

  lemma LeadsNowhere(env: Env, s: State)
    ensures Leads(env, s, s)
  {
    hide Apply, Enabled, Smooth;
    assert Course(env, s, [s], []);
  }

  lemma LeadsStep(env: Env, s: State, step: Step)
    requires Enabled(env, s, step) && Smooth(s, step)
    ensures Leads(env, s, Apply(env, s, step))
  {
    hide Apply, Enabled, Smooth, Course;
    CourseStep(env, s, step);
  }

  lemma LeadsOn(env: Env, s: State, s1: State, s2: State)
    requires Leads(env, s, s1) && Leads(env, s1, s2)
    ensures Leads(env, s, s2)
  {
    hide Apply, Enabled, Smooth;
    var a: seq<State>, p: seq<Step> :| Course(env, s, a, p) && a[|p|] == s1;
    var b: seq<State>, q: seq<Step> :| Course(env, s1, b, q) && b[|q|] == s2;
    CourseAppend(env, s, a, p, b, q);
  }

  /** Every frame on the connection can be decoded. */
  ghost predicate Clear(env: Env, s: State, conn: nat) {
    forall u | u in s.net && s.net[u].conn == conn && !s.net[u].Handling? ::
      Frame.Decode(env.wire, None, [], s.net[u].bytes).Ok?
  }

  /** Covered numbers on their way, but for one, are still pending. */
  ghost predicate OthersHeld(s: State, t: nat) {
    forall u | u in s.net && u != t && Covered(s, false, s.net[u].origin) :: s.net[u].origin in s.client.pending
  }

  /** A flight on a live connection, with nothing around it that could end the process first. */
  ghost predicate Waiting(env: Env, s: State, t: nat) {
    && Coherent(env, s) && s.crashed == None && s.issued < U64
    && t in s.net && !Dead(s, s.net[t].conn) && HandHeld(s, false) && OthersHeld(s, t)
  }

  /** The entry of a number is as it was, and so are the calls and the connections. */
  ghost predicate Kept(s: State, s': State, k: nat) {
    && Known(s') == Known(s)
    && s'.calls == s.calls && s'.issued == s.issued && s'.senders == s.senders && s'.client.conn == s.client.conn
    && s'.closedConns == s.closedConns && s'.goneConns == s.goneConns
    && (k in s'.client.pending <==> k in s.client.pending)
    && (k in s.client.pending ==> s'.client.pending[k] == s.client.pending[k])
  }

  // The response in hand.

  /** Everything but the reading goroutine, the table and the completions is as it was. */
  ghost predicate AtHand(s: State, s': State) {
    && s'.net == s.net && s'.nextToken == s.nextToken && s'.calls == s.calls && s'.issued == s.issued
    && s'.senders == s.senders && s'.client.conn == s.client.conn && s'.closedConns == s.closedConns
    && s'.goneConns == s.goneConns && s'.nextConn == s.nextConn
  }

  lemma TakeState(env: Env, s: State)
    requires Enabled(env, s, TakeResponse)
    ensures var s' := Apply(env, s, TakeResponse);
            && AtHand(s, s') && s.input.Got? && s'.input.Delivering?
            && s'.client.pending == s.client.pending - {SeqNo(s.input.msg.header)}
  {
    hide SeqNo;
  }

  lemma DeliverState(env: Env, s: State)
    requires Enabled(env, s, Deliver)
    ensures var s' := Apply(env, s, Deliver);
            && AtHand(s, s') && s.input.Delivering? && s'.client == s.client && BookOf(s') == BookOf(s)
            && (s'.crashed == None ==> s'.input.Reading?)
  {
    hide IsHeartbeat, OutcomeOf;
  }

  lemma HandState(env: Env, s: State, step: Step)
    requires Enabled(env, s, step) && (step.TakeResponse? || step.Deliver?)
    ensures var s' := Apply(env, s, step);
            && AtHand(s, s') && (s.input.Got? || s.input.Delivering?)
            && (if step.TakeResponse? then s'.client.pending == s.client.pending - {SeqNo(s.input.msg.header)}
                                           && s'.input.Delivering?
                else s'.client == s.client && BookOf(s') == BookOf(s) && (s'.crashed == None ==> s'.input.Reading?))
  {
    hide SeqNo, Apply, Enabled, AtHand;
    if step.TakeResponse? {
      TakeState(env, s);
    } else {
      DeliverState(env, s);
    }
  }

  lemma HandEnabled(env: Env, s: State)
    requires LawfulEnv(env) && Coherent(env, s) && HandHeld(s, false) && s.crashed == None
    requires s.input.Got? || s.input.Delivering?
    ensures var step := if s.input.Got? then TakeResponse else Deliver;
            Enabled(env, s, step) && Apply(env, s, step).crashed == None
  {
    hide Coherent, HandHeld, SeqNo, IsHeartbeat, OutcomeOf;
    if s.input.Delivering? {
      assert s.input.call.Some? ==> s.input.call.value < |s.calls| by { HandCall(env, s); }
      if s.input.call == None {
        NilIsNoHeartbeat(env, s);
      }
    }
  }

  lemma HandCall(env: Env, s: State)
    requires Coherent(env, s) && s.input.Delivering?
    ensures s.input.call.Some? ==> s.input.call.value < |s.calls|
  {
    hide Balanced, NetOk, SeqNo, Registered, ReadLast;
  }

  /** The response in hand belongs to none of the flights. */
  lemma HandApart(env: Env, s: State, t: nat)
    requires Coherent(env, s) && t in s.net && (s.input.Got? || s.input.Delivering?)
    ensures s.net[t].origin != SeqNo(s.input.msg.header)
  {
    hide Balanced, NetOk, SeqNo, Registered, ReadLast, UnsentPending;
  }

  lemma TakeHandHeld(env: Env, s: State)
    requires HandHeld(s, false) && Enabled(env, s, TakeResponse)
    requires Known(Apply(env, s, TakeResponse)) == Known(s)
    ensures HandHeld(Apply(env, s, TakeResponse), false)
  {
    hide SeqNo, Known;
  }

  lemma HandKnown(env: Env, s: State, step: Step)
    requires Balanced(BookOf(s)) && Enabled(env, s, step) && (step.TakeResponse? || step.Deliver?)
    ensures Known(Apply(env, s, step)) == Known(s)
  {
    hide Apply, Enabled, Balanced, Registered;
    HandState(env, s, step);
    if step.TakeResponse? {
      TakeResponseBalanced(env, s);
    }
  }

  lemma HandKeeps(env: Env, s: State, t: nat, step: Step)
    requires LawfulEnv(env) && Waiting(env, s, t) && Enabled(env, s, step) && (step.TakeResponse? || step.Deliver?)
    requires Apply(env, s, step).crashed == None
    ensures var s' := Apply(env, s, step);
            && Waiting(env, s', t) && Kept(s, s', s.net[t].origin) && s'.net == s.net
            && (if step.TakeResponse? then s'.input.Delivering? else s'.input.Reading?)
  {
    hide Apply, Enabled, SeqNo, Known, Balanced, NetOk, InputOk, UnsentPending, HandHeld;
    var s' := Apply(env, s, step);
    HandState(env, s, step);
    HandKnown(env, s, step);
    forall u | u in s.net
      ensures s.net[u].origin in s.client.pending ==> s.net[u].origin in s'.client.pending
    {
      HandApart(env, s, u);
    }
    HandApart(env, s, t);
    assert HandHeld(s', false) by {
      if step.TakeResponse? { TakeHandHeld(env, s); } else { NothingInHand(s'); }
    }
    hide Coherent;
    StepCoherent(env, s, step);
  }

  lemma NothingInHand(s: State)
    requires s.input.Reading?
    ensures HandHeld(s, false)
  {
  }

  lemma StillWaiting(env: Env, s: State, t: nat)
    requires Coherent(env, s) && s.crashed == None && s.issued < U64
    requires t in s.net && !Dead(s, s.net[t].conn) && HandHeld(s, false) && OthersHeld(s, t)
    ensures Waiting(env, s, t)
  {
  }

  lemma WaitingParts(env: Env, s: State, t: nat)
    requires Waiting(env, s, t)
    ensures Coherent(env, s) && HandHeld(s, false) && s.crashed == None && s.issued < U64
    ensures t in s.net && !Dead(s, s.net[t].conn) && t < s.nextToken && OthersHeld(s, t)
  {
    hide FlightOk, Balanced, InputOk, HandHeld, OthersHeld, UnsentPending;
  }

  lemma KeptOn(s: State, s1: State, s2: State, k: nat)
    requires Kept(s, s1, k) && Kept(s1, s2, k)
    ensures Kept(s, s2, k)
  {
    hide Known;
  }

  lemma HandSmooth(s: State, step: Step)
    requires step.TakeResponse? || step.Deliver?
    ensures Smooth(s, step)
  {
  }

  lemma HandTurn(env: Env, s: State, t: nat) returns (s': State)
    requires LawfulEnv(env) && Waiting(env, s, t) && !s.input.Reading?
    ensures t in s.net && Leads(env, s, s') && Waiting(env, s', t) && Kept(s, s', s.net[t].origin) && s'.net == s.net
    ensures if s.input.Got? then s'.input.Delivering? else s.input.Delivering? && s'.input.Reading?
  {
    hide Apply, Enabled, Smooth, Coherent, HandHeld, Waiting, Kept, Leads;
    WaitingParts(env, s, t);
    HandEnabled(env, s);
    var step := if s.input.Got? then TakeResponse else Deliver;
    HandKeeps(env, s, t, step);
    HandSmooth(s, step);
    LeadsStep(env, s, step);
    s' := Apply(env, s, step);
  }

  /** A response in hand is dealt with first. */
  lemma HandCleared(env: Env, s: State, t: nat) returns (s': State)
    requires LawfulEnv(env) && Waiting(env, s, t)
    ensures t in s.net && Leads(env, s, s') && Waiting(env, s', t) && s'.input.Reading?
    ensures Kept(s, s', s.net[t].origin) && s'.net == s.net
    decreases if s.input.Got? then 2 else if s.input.Delivering? then 1 else 0
  {
    assert t in s.net;
    hide Waiting, LawfulEnv, Leads, Kept;
    if s.input.Reading? {
      s' := s;
      LeadsNowhere(env, s);
      KeptSelf(s, s.net[t].origin);
    } else {
      var s1 := HandTurn(env, s, t);
      s' := HandCleared(env, s1, t);
      LeadsOn(env, s, s1, s');
      KeptOn(s, s1, s', s.net[t].origin);
    }
  }

  lemma KeptSelf(s: State, k: nat)
    ensures Kept(s, s, k)
  {
  }

  // Reading what lies in front.

  lemma {:induction false} Least(keys: set<nat>) returns (k: nat)
    requires keys != {}
    ensures k in keys && forall j | j in keys :: k <= j
  {
    var i :| i in keys;
    k := i;
    if keys != {i} {
      var j := Least(keys - {i});
      k := if j < i then j else i;
      assert forall l | l in keys :: l == i || l in keys - {i};
    }
  }

  /** One of the frames in front has none in front of it. */
  lemma Foremost(s: State, t: nat) returns (u: nat)
    requires t in s.net && Ahead(s, t) != {}
    ensures u in Ahead(s, t) && Ahead(s, u) == {}
  {
    u := Least(Ahead(s, t));
    assert Ahead(s, u) <= Ahead(s, t);
  }

  lemma ReadGets(env: Env, s: State, u: nat)
    requires s.crashed == None && s.input.Reading? && u in s.net && s.net[u].ToClient?
    requires s.net[u].conn == s.client.conn && s.client.conn !in s.closedConns
    requires Frame.Decode(env.wire, None, [], s.net[u].bytes).Ok?
    ensures Enabled(env, s, Connection.Read(u)) && Frame.Decode(env.wire, s.received, [], s.net[u].bytes).Ok?
    ensures var s' := Apply(env, s, Connection.Read(u));
            && s'.net == s.net - {u} && s'.client == s.client && s'.senders == s.senders && s'.calls == s.calls
            && s'.issued == s.issued && s'.closedConns == s.closedConns && s'.goneConns == s.goneConns
            && s'.crashed == None && BookOf(s') == BookOf(s)
            && s'.input == Got(Frame.Decode(env.wire, s.received, [], s.net[u].bytes).msg)
  {
    hide Frame.Decode, OwnMetadata;
    MetadataLeak(env.wire, s.received, [], s.net[u].bytes);
  }

  /** A frame that is read carries the number it was sent under. */
  lemma ReadNumber(env: Env, s: State, u: nat)
    requires LawfulEnv(env) && NetOk(env, s) && u in s.net && s.net[u].ToClient?
    ensures var r := Frame.Decode(env.wire, s.received, [], s.net[u].bytes);
            r.Ok? ==> SeqNo(r.msg.header) == s.net[u].origin
  {
    hide Frame.Decode, FlightOk, SeqNo, ReplyRead, Registered;
    NetFlight(env, s, u);
    ReadFlight(env, s, s.net[u]);
  }

  /** Reading another frame leaves a flight waiting. */
  lemma ReadKeeps(env: Env, s: State, t: nat, u: nat)
    requires LawfulEnv(env) && Waiting(env, s, t) && s.input.Reading? && u in s.net && u != t && s.net[u].ToClient?
    requires s.net[u].conn == s.client.conn && Frame.Decode(env.wire, None, [], s.net[u].bytes).Ok?
    ensures Enabled(env, s, Connection.Read(u))
    ensures var s' := Apply(env, s, Connection.Read(u));
            Waiting(env, s', t) && Kept(s, s', s.net[t].origin) && s'.net == s.net - {u}
  {
    hide Apply, Enabled, SeqNo, Known, Coherent, Frame.Decode, OthersHeld, HandHeld, NetOk, LawfulEnv, Waiting;
    WaitingParts(env, s, t);
    ReadGets(env, s, u);
    var s' := Apply(env, s, Connection.Read(u));
    NetOfCoherent(env, s);
    ReadNumber(env, s, u);
    SameBook(s, s');
    ReadOthers(s, s', t, u);
    StepCoherent(env, s, Connection.Read(u));
    StillWaiting(env, s', t);
  }

  lemma ReadOthers(s: State, s': State, t: nat, u: nat)
    requires OthersHeld(s, t) && u in s.net && u != t && s'.net == s.net - {u} && s'.client == s.client
    requires s'.calls == s.calls && Known(s') == Known(s)
    requires s'.input.Got? && SeqNo(s'.input.msg.header) == s.net[u].origin
    ensures OthersHeld(s', t) && HandHeld(s', false)
  {
    hide SeqNo, Known;
  }

  lemma NetOfCoherent(env: Env, s: State)
    requires Coherent(env, s)
    ensures NetOk(env, s)
  {
    hide NetOk;
  }

  lemma SameBook(s: State, s': State)
    requires BookOf(s') == BookOf(s)
    ensures Known(s') == Known(s)
  {
  }

  lemma ReadTurn(env: Env, s: State, t: nat) returns (s': State)
    requires LawfulEnv(env) && Waiting(env, s, t) && s.input.Reading? && s.net[t].ToClient?
    requires Clear(env, s, s.client.conn) && Ahead(s, t) != {}
    ensures Leads(env, s, s') && Waiting(env, s', t) && s'.input.Reading? && Kept(s, s', s.net[t].origin)
    ensures s'.net.Keys <= s.net.Keys && (forall v | v in s'.net :: s'.net[v] == s.net[v]) && t in s'.net
    ensures |Ahead(s', t)| < |Ahead(s, t)|
  {
    WaitingParts(env, s, t);
    hide Apply, Enabled, Waiting, LawfulEnv, Kept, Frame.Decode, Dead, Smooth, Leads, Clear;
    var u := Foremost(s, t);
    HeardConn(s, s.net[t].conn);
    ClearAhead(env, s, t, u);
    hide Ahead;
    var step := Connection.Read(u);
    ReadKeeps(env, s, t, u);
    ReadSmooth(s, u);
    LeadsStep(env, s, step);
    var s1 := Apply(env, s, step);
    s' := HandCleared(env, s1, t);
    LeadsOn(env, s, s1, s');
    KeptOn(s, s1, s', s.net[t].origin);
    AheadLess(s, s', t, u);
  }

  lemma AheadLess(s: State, s': State, t: nat, u: nat)
    requires t in s.net && u in Ahead(s, t) && s'.net == s.net - {u}
    ensures |Ahead(s', t)| < |Ahead(s, t)|
  {
    assert Ahead(s', t) == Ahead(s, t) - {u};
  }

  lemma ClearAhead(env: Env, s: State, t: nat, u: nat)
    requires t in s.net && u in Ahead(s, t) && Clear(env, s, s.net[t].conn)
    ensures u in s.net && u != t && SameWay(s.net[u], s.net[t]) && !s.net[u].Handling?
    ensures Frame.Decode(env.wire, None, [], s.net[u].bytes).Ok?
  {
    hide Frame.Decode;
  }

  lemma HeardConn(s: State, conn: nat)
    requires !Dead(s, conn)
    ensures conn == s.client.conn && conn !in s.closedConns
  {
  }

  lemma ReadSmooth(s: State, u: nat)
    requires u in s.net && Ahead(s, u) == {}
    ensures Smooth(s, Connection.Read(u))
  {
  }

  lemma ClearLess(env: Env, s: State, s': State, conn: nat)
    requires Clear(env, s, conn) && s'.net.Keys <= s.net.Keys && forall v | v in s'.net :: s'.net[v] == s.net[v]
    ensures Clear(env, s', conn)
  {
    hide Frame.Decode;
  }

  /** All frames in front of a response are read and delivered. */
  lemma ClientDrained(env: Env, s: State, t: nat) returns (s': State)
    requires LawfulEnv(env) && Waiting(env, s, t) && s.input.Reading? && s.net[t].ToClient?
    requires Clear(env, s, s.client.conn)
    ensures Leads(env, s, s') && Waiting(env, s', t) && s'.input.Reading? && Kept(s, s', s.net[t].origin)
    ensures t in s'.net && s'.net[t] == s.net[t] && Ahead(s', t) == {}
    decreases |Ahead(s, t)|
  {
    assert t in s.net;
    hide Waiting, LawfulEnv, Clear, Leads, Kept;
    if Ahead(s, t) == {} {
      s' := s;
      LeadsNowhere(env, s);
      KeptSelf(s, s.net[t].origin);
    } else {
      var s1 := ReadTurn(env, s, t);
      KeptConn(s, s1, s.net[t].origin);
      ClearLess(env, s, s1, s.client.conn);
      s' := ClientDrained(env, s1, t);
      LeadsOn(env, s, s1, s');
      KeptOn(s, s1, s', s.net[t].origin);
    }
  }

  lemma KeptConn(s: State, s': State, k: nat)
    requires Kept(s, s', k)
    ensures s'.client.conn == s.client.conn && s'.closedConns == s.closedConns && s'.goneConns == s.goneConns
  {
  }

  /** The message is what some decoding of the frame gives. */
  ghost predicate DecodedFrom(env: Env, bytes: Bytes, msg: Frame.Msg) {
    exists prior :: Frame.Decode(env.wire, prior, [], bytes).Ok? && msg == Frame.Decode(env.wire, prior, [], bytes).msg
  }

  /** A response comes into the hand of the client after all those in front of it. */
  lemma Fetched(env: Env, s: State, t: nat) returns (s': State)
    requires LawfulEnv(env) && Waiting(env, s, t) && s.net[t].ToClient? && Clear(env, s, s.client.conn)
    ensures Leads(env, s, s') && Coherent(env, s') && Kept(s, s', s.net[t].origin) && s'.crashed == None
    ensures s'.input.Got? && SeqNo(s'.input.msg.header) == s.net[t].origin
    ensures DecodedFrom(env, s.net[t].bytes, s'.input.msg)
  {
    WaitingParts(env, s, t);
    hide Apply, Enabled, Waiting, Kept, Coherent, Leads, SeqNo, Frame.Decode, DecodedFrom;
    assert Frame.Decode(env.wire, None, [], s.net[t].bytes).Ok?;
    hide Clear;
    var s1 := HandCleared(env, s, t);
    KeptConn(s, s1, s.net[t].origin);
    ClearLess(env, s, s1, s.client.conn);
    var s2 := ClientDrained(env, s1, t);
    LeadsOn(env, s, s1, s2);
    KeptOn(s, s1, s2, s.net[t].origin);
    s' := ReadOwn(env, s2, t);
    LeadsOn(env, s, s2, s');
    KeptOn(s, s2, s', s.net[t].origin);
  }

  lemma ReadOwn(env: Env, s: State, t: nat) returns (s': State)
    requires LawfulEnv(env) && Waiting(env, s, t) && s.input.Reading? && s.net[t].ToClient? && Ahead(s, t) == {}
    requires Frame.Decode(env.wire, None, [], s.net[t].bytes).Ok?
    ensures Leads(env, s, s') && Coherent(env, s') && Kept(s, s', s.net[t].origin) && s'.crashed == None
    ensures s'.input.Got? && SeqNo(s'.input.msg.header) == s.net[t].origin
    ensures DecodedFrom(env, s.net[t].bytes, s'.input.msg)
  {
    WaitingParts(env, s, t);
    hide Apply, Enabled, SeqNo, Coherent, Frame.Decode, Waiting, Leads, NetOk, Known, LawfulEnv;
    ReadGets(env, s, t);
    NetOfCoherent(env, s);
    ReadNumber(env, s, t);
    s' := Apply(env, s, Connection.Read(t));
    SameBook(s, s');
    StepCoherent(env, s, Connection.Read(t));
    ReadSmooth(s, t);
    LeadsStep(env, s, Connection.Read(t));
  }

  // Accepting what lies in front.

  /** A flight has been replaced by what the server makes of it. */
  ghost predicate Moves(s: State, s': State, u: nat, f: Flight) {
    && u in s.net && f.origin == s.net[u].origin && f.conn == s.net[u].conn
    && s'.net == (s.net - {u})[s.nextToken := f] && s'.nextToken == s.nextToken + 1
    && BookOf(s') == BookOf(s) && s'.client == s.client && s'.calls == s.calls && s'.input == s.input
    && s'.closedConns == s.closedConns && s'.goneConns == s.goneConns && s'.crashed == s.crashed
  }

  /** The server's frames are as readable as the client's were. */
  ghost predicate Decodable(env: Env, f: Flight) {
    f.Handling? || Frame.Decode(env.wire, None, [], f.bytes).Ok?
  }

  lemma MovedWaiting(env: Env, s: State, s': State, t: nat, u: nat, f: Flight)
    requires Waiting(env, s, t) && Moves(s, s', u, f) && Coherent(env, s') && s'.issued < U64
    ensures if u == t then Waiting(env, s', s.nextToken) else Waiting(env, s', t) && Kept(s, s', s.net[t].origin)
  {
    hide Coherent, Waiting, Known, SeqNo;
    WaitingParts(env, s, t);
    SameBook(s, s');
    var t' := if u == t then s.nextToken else t;
    assert OthersHeld(s', t') by {
      forall v | v in s'.net && v != t' && Covered(s', false, s'.net[v].origin)
        ensures s'.net[v].origin in s'.client.pending
      {
        assert Covered(s, false, s'.net[v].origin);
        if v == s.nextToken {
          assert s.net[u].origin in s.client.pending;
        }
      }
    }
    StillWaiting(env, s', t');
  }

  lemma MovedClear(env: Env, s: State, s': State, u: nat, f: Flight, conn: nat)
    requires Clear(env, s, conn) && Moves(s, s', u, f) && (f.conn == conn ==> Decodable(env, f))
    ensures Clear(env, s', conn)
  {
    hide Frame.Decode;
  }

  lemma ClearPut(env: Env, s: State, s': State, f: Flight, conn: nat)
    requires Clear(env, s, conn) && s'.net == s.net[s.nextToken := f] && Decodable(env, f)
    ensures Clear(env, s', conn)
  {
    hide Frame.Decode;
  }

  /** The order in which the server writes an echo, so that it gets through as the heartbeat did. */
  lemma EchoOrder(env: Env, s: State, u: nat) returns (order: seq<Bytes>)
    requires LawfulEnv(env) && NetOk(env, s) && u in s.net && s.net[u].ToServer?
    requires Frame.Decode(env.wire, None, [], s.net[u].bytes).Ok?
    ensures var m := Frame.Decode(env.wire, None, [], s.net[u].bytes).msg;
            IsHeartbeat(m.header) ==> Framed(env, Echo(m), order) && Passes(env, Echo(m), order)
  {
    var f := s.net[u];
    NetFlight(env, s, u);
    var call := CallOf(s, f);
    assert RequestFrame(env, call, f.origin, f.bytes);
    hide Frame.Decode, Frame.Encoded, IsHeartbeat, RequestAtServer, NetOk, FlightOk, Request, Admitted;
    var m := Request(env, call, f.origin).value;
    order :| Framed(env, m, order) && f.bytes == Frame.Encoded(env.wire, m, order);
    ReadRequest(env, call, f.origin, f.bytes);
    RequestAtServerFields(env, call, f.origin);
    assert m.header[0] == MAGIC by { RequestMagic(env, call, f.origin); }
    AdmittedExactly(env, m, order, None);
    hide Framed;
    if call.heartbeat {
      EchoPasses(env, call, f.origin, order);
    }
  }

  lemma RequestMagic(env: Env, call: Call, k: nat)
    requires k < U64 && Request(env, call, k).Some?
    ensures Request(env, call, k).value.header[0] == MAGIC
  {
    hide RequestHeader;
    RequestHeaderFields(call, k);
  }

  lemma AcceptMoves(env: Env, s: State, u: nat, order: seq<Bytes>)
    requires s.crashed == None && u in s.net && s.net[u].ToServer? && s.net[u].conn !in s.goneConns
    requires Frame.Decode(env.wire, None, [], s.net[u].bytes).Ok?
    requires var m := Frame.Decode(env.wire, None, [], s.net[u].bytes).msg;
             IsHeartbeat(m.header) ==> Framed(env, Echo(m), order)
    ensures Enabled(env, s, Accept(u, order))
    ensures var m := Frame.Decode(env.wire, None, [], s.net[u].bytes).msg;
            && (IsHeartbeat(m.header) ==> Enumerates(order, Echo(m).Entries()))
            && Moves(s, Apply(env, s, Accept(u, order)), u, Accepted(env, s.net[u], m, order))
  {
    hide Frame.Decode, Frame.Encoded, IsHeartbeat;
  }

  /** What the server makes of a frame can be decoded again. */
  lemma AcceptedDecodable(env: Env, f: Flight, m: Frame.Msg, order: seq<Bytes>)
    requires LawfulEnv(env) && (IsHeartbeat(m.header) ==> Framed(env, Echo(m), order) && Passes(env, Echo(m), order))
    ensures IsHeartbeat(m.header) ==> Enumerates(order, Echo(m).Entries())
    ensures Decodable(env, Accepted(env, f, m, order))
  {
    hide Frame.Decode, Frame.Encoded, IsHeartbeat, Admitted, Received;
    if IsHeartbeat(m.header) {
      PassesThrough(env, Echo(m), order, None);
    }
  }

  /** The server's answer to a frame, or its handler. */
  ghost predicate Handed(env: Env, f: Flight, g: Flight) {
    && f.ToServer? && g.origin == f.origin
    && var r := Frame.Decode(env.wire, None, [], f.bytes);
       r.Ok? && (if IsHeartbeat(r.msg.header) then g.ToClient? else g == Handling(f.conn, r.msg, f.origin))
  }

  lemma AcceptTurn(env: Env, s: State, u: nat) returns (order: seq<Bytes>, f: Flight)
    requires LawfulEnv(env) && Coherent(env, s) && s.crashed == None && s.issued < U64 && u in s.net
    requires Clear(env, s, s.client.conn) && s.client.conn !in s.goneConns
    requires s.net[u].ToServer? && s.net[u].conn == s.client.conn
    ensures Enabled(env, s, Accept(u, order)) && Handed(env, s.net[u], f)
    ensures var s' := Apply(env, s, Accept(u, order));
            Moves(s, s', u, f) && Clear(env, s', s.client.conn) && Coherent(env, s') && s'.issued < U64
  {
    assert Frame.Decode(env.wire, None, [], s.net[u].bytes).Ok?;
    hide Coherent, Clear, Frame.Decode, Frame.Encoded, IsHeartbeat, NetOk, Apply, Enabled, Passes;
    NetOfCoherent(env, s);
    order := EchoOrder(env, s, u);
    var m := Frame.Decode(env.wire, None, [], s.net[u].bytes).msg;
    AcceptMoves(env, s, u, order);
    AcceptedDecodable(env, s.net[u], m, order);
    hide Framed, Decodable;
    f := Accepted(env, s.net[u], m, order);
    StepCoherent(env, s, Accept(u, order));
    MovedClear(env, s, Apply(env, s, Accept(u, order)), u, f, s.client.conn);
  }

  lemma AcceptSmooth(s: State, u: nat, order: seq<Bytes>)
    requires u in s.net && Ahead(s, u) == {}
    ensures Smooth(s, Accept(u, order))
  {
  }

  lemma AheadMoved(s: State, s': State, t: nat, u: nat, f: Flight)
    requires t in s.net && t < s.nextToken && u in Ahead(s, t)
    requires s'.net == (s.net - {u})[s.nextToken := f]
    ensures t in s'.net && s'.net[t] == s.net[t] && |Ahead(s', t)| < |Ahead(s, t)|
  {
    hide SameWay;
    assert Ahead(s', t) == Ahead(s, t) - {u};
  }

  /** All frames in front of a request are accepted. */
  lemma ServerDrained(env: Env, s: State, t: nat) returns (s': State)
    requires LawfulEnv(env) && Waiting(env, s, t) && s.net[t].ToServer? && Clear(env, s, s.client.conn)
    requires s.client.conn !in s.goneConns
    ensures Leads(env, s, s') && Waiting(env, s', t) && Kept(s, s', s.net[t].origin)
    ensures Clear(env, s', s'.client.conn) && t in s'.net && s'.net[t] == s.net[t] && Ahead(s', t) == {}
    decreases |Ahead(s, t)|
  {
    WaitingParts(env, s, t);
    hide Waiting, LawfulEnv, Leads, Kept, Apply, Enabled, Dead, Smooth, Coherent, Frame.Decode, IsHeartbeat;
    if Ahead(s, t) == {} {
      s' := s;
      LeadsNowhere(env, s);
      KeptSelf(s, s.net[t].origin);
    } else {
      var u := Foremost(s, t);
      HeardConn(s, s.net[t].conn);
      ClearAhead(env, s, t, u);
      hide Clear;
      var order, f := AcceptTurn(env, s, u);
      var s1 := Apply(env, s, Accept(u, order));
      MovedWaiting(env, s, s1, t, u, f);
      AheadMoved(s, s1, t, u, f);
      AcceptSmooth(s, u, order);
      LeadsStep(env, s, Accept(u, order));
      s' := ServerDrained(env, s1, t);
      LeadsOn(env, s, s1, s');
      KeptOn(s, s1, s', s.net[t].origin);
    }
  }

  /** The newest flight is waiting, on a connection whose frames can be decoded. */
  ghost predicate Newest(env: Env, s: State, f: Flight) {
    && s.nextToken > 0 && Waiting(env, s, s.nextToken - 1) && s.net[s.nextToken - 1] == f
    && Clear(env, s, s.client.conn)
  }

  lemma MovedNewest(env: Env, s: State, s': State, t: nat, f: Flight)
    requires Waiting(env, s, t) && Moves(s, s', t, f) && Coherent(env, s') && s'.issued < U64
    requires Clear(env, s', s.client.conn)
    ensures Newest(env, s', f) && Kept(s, s', f.origin)
  {
    hide Coherent, Waiting, Clear, Kept;
    MovedWaiting(env, s, s', t, t, f);
    MovesKept(s, s', t, f);
  }

  lemma AcceptFirst(env: Env, s: State, t: nat) returns (s': State, f: Flight)
    requires LawfulEnv(env) && Waiting(env, s, t) && s.net[t].ToServer? && Clear(env, s, s.client.conn)
    requires s.client.conn !in s.goneConns && Ahead(s, t) == {}
    ensures Leads(env, s, s') && Kept(s, s', s.net[t].origin) && Newest(env, s', f) && Handed(env, s.net[t], f)
  {
    WaitingParts(env, s, t);
    HeardConn(s, s.net[t].conn);
    hide Waiting, LawfulEnv, Leads, Kept, Apply, Enabled, Dead, Smooth, Coherent, Clear, Newest, Moves, HandHeld;
    hide OthersHeld;
    var order;
    order, f := AcceptTurn(env, s, t);
    HandedOrigin(env, s.net[t], f);
    hide Ahead, Handed;
    s' := Apply(env, s, Accept(t, order));
    AcceptSmooth(s, t, order);
    LeadsStep(env, s, Accept(t, order));
    MovedNewest(env, s, s', t, f);
  }

  lemma HandedOrigin(env: Env, f: Flight, g: Flight)
    requires Handed(env, f, g)
    ensures g.origin == f.origin
  {
  }

  /** A request is accepted after those in front of it. */
  lemma Admits(env: Env, s: State, t: nat) returns (s': State, f: Flight)
    requires LawfulEnv(env) && Waiting(env, s, t) && s.net[t].ToServer? && Clear(env, s, s.client.conn)
    requires s.client.conn !in s.goneConns
    ensures Leads(env, s, s') && Kept(s, s', s.net[t].origin) && Newest(env, s', f) && Handed(env, s.net[t], f)
  {
    assert t in s.net;
    hide Waiting, LawfulEnv, Leads, Kept, Clear, Newest, Handed;
    var s1 := ServerDrained(env, s, t);
    KeptConn(s, s1, s.net[t].origin);
    s', f := AcceptFirst(env, s1, t);
    LeadsOn(env, s, s1, s');
    KeptOn(s, s1, s', s.net[t].origin);
  }

  lemma MovesKept(s: State, s': State, u: nat, f: Flight)
    requires Moves(s, s', u, f)
    ensures Kept(s, s', f.origin)
  {
  }
}
