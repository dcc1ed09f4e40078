/** Exactly which pending calls can still be told of a response. */
module Answerable {
  import opened Bytes
  import opened MetadataCodec
  import Frame
  import opened Header
  import opened Server
  import opened Connection
  import opened Exchange
  import opened Ledger
  import opened InFlight
  import opened Correlation
  import opened Completions
  import opened Lifecycle
  import opened Delivery
  import opened Unanswered

  /** Some continuation with fewer than 2^64 calls tells the caller of a response. */
  ghost predicate CanInform(env: Env, s: State, id: nat) {
    exists states: seq<State>, steps: seq<Step> ::
      Path(env, s, states, steps) && states[|steps|].issued < U64 && Informed(states[|steps|], id)
  }

  /** So does one without a loss or a failed write, with the frames of each connection in their order. */
  ghost predicate InformsInTurn(env: Env, s: State, id: nat) {
    exists s' :: Leads(env, s, s') && s'.issued < U64 && Informed(s', id)
  }

  lemma InTurnInforms(env: Env, s: State, id: nat)
    requires InformsInTurn(env, s, id)
    ensures CanInform(env, s, id)
  {
    hide Apply, Enabled, Smooth, Informed;
    var s' :| Leads(env, s, s') && s'.issued < U64 && Informed(s', id);
    var states: seq<State>, steps: seq<Step> :| Course(env, s, states, steps) && states[|steps|] == s';
  }

  lemma LeadsInforms(env: Env, s: State, s1: State, id: nat)
    requires Leads(env, s, s1) && InformsInTurn(env, s1, id)
    ensures InformsInTurn(env, s, id)
  {
    hide Leads, Informed;
    var s' :| Leads(env, s1, s') && s'.issued < U64 && Informed(s', id);
    LeadsOn(env, s, s1, s');
  }

  lemma OutcomeSpeaks(env: Env, want: Shape, msg: Frame.Msg)
    ensures !Silent(OutcomeOf(env, want, msg))
  {
  }

  /** A response in hand is delivered to its pending call. */
  lemma HandInforms(env: Env, s: State, k: nat)
    requires s.crashed == None && s.issued < U64 && s.input.Got? && SeqNo(s.input.msg.header) == k
    requires k in s.client.pending && s.client.pending[k] < |s.calls|
    ensures InformsInTurn(env, s, s.client.pending[k])
  {
    hide SeqNo, IsHeartbeat, OutcomeOf, Silent, Leads;
    var id := s.client.pending[k];
    var s1 := Apply(env, s, TakeResponse);
    var s2 := Apply(env, s1, Deliver);
    LeadsStep(env, s, TakeResponse);
    LeadsStep(env, s1, Deliver);
    LeadsOn(env, s, s1, s2);
    OutcomeSpeaks(env, s.calls[id].want, s.input.msg);
    assert !Silent(HeartbeatOk) by { HeartbeatSpeaks(); }
    assert s2.completions[|s.completions|].call == id;
    assert Informed(s2, id);
  }

  lemma HeartbeatSpeaks()
    ensures !Silent(HeartbeatOk)
  {
  }

  /** The call under a number that is still pending. */
  predicate Stands(s: State, k: nat, id: nat) {
    k in s.client.pending && s.client.pending[k] == id && id < |s.calls|
  }

  lemma StandsOn(s: State, s': State, k: nat, id: nat)
    requires Kept(s, s', k) && Stands(s, k, id)
    ensures Stands(s', k, id) && s'.issued == s.issued
  {
    hide Known;
  }

  lemma ResponseInforms(env: Env, s: State, t: nat, id: nat)
    requires LawfulEnv(env) && Waiting(env, s, t) && s.net[t].ToClient? && Clear(env, s, s.client.conn)
    requires Stands(s, s.net[t].origin, id)
    ensures InformsInTurn(env, s, id)
  {
    WaitingParts(env, s, t);
    hide Waiting, LawfulEnv, Clear, Kept, Leads, Coherent, DecodedFrom, SeqNo, InformsInTurn, Dead;
    hide HandHeld, OthersHeld;
    var s1 := Fetched(env, s, t);
    StandsOn(s, s1, s.net[t].origin, id);
    HandInforms(env, s1, s.net[t].origin);
    LeadsInforms(env, s, s1, id);
  }

  lemma RespondMoves(env: Env, s: State, t: nat, world: World, order: seq<Bytes>)
    requires s.crashed == None && t in s.net && s.net[t].Handling? && s.net[t].conn !in s.goneConns
    requires Possible(s.net[t].req.Entries(), world)
    requires var m := Response(env, s.net[t].req, world); m.Some? && Framed(env, m.value, order)
    ensures var f, m := s.net[t], Response(env, s.net[t].req, world).value;
            && Enumerates(order, m.Entries()) && Enabled(env, s, Respond(t, world, order))
            && Moves(s, Apply(env, s, Respond(t, world, order)), t,
                     ToClient(f.conn, Frame.Encoded(env.wire, m, order), f.origin))
  {
    hide Response, Possible, Frame.Encoded;
  }

  lemma RespondSmooth(s: State, t: nat, world: World, order: seq<Bytes>)
    ensures Smooth(s, Respond(t, world, order))
  {
  }

  /** A handler whose method answers within the limit responds. */
  lemma HandlerResponds(env: Env, s: State, t: nat) returns (s': State, f: Flight)
    requires LawfulEnv(env) && Waiting(env, s, t) && s.net[t].Handling? && Clear(env, s, s.client.conn)
    requires s.net[t].conn !in s.goneConns && !Mute(env, s.net[t].req)
    ensures Leads(env, s, s') && Kept(s, s', s.net[t].origin) && Newest(env, s', f)
    ensures f.ToClient? && f.origin == s.net[t].origin
  {
    WaitingParts(env, s, t);
    var req := s.net[t].req;
    var world, order :| Possible(req.Entries(), world) && Response(env, req, world).Some?
      && Framed(env, Response(env, req, world).value, order) && Admitted(env, Response(env, req, world).value, order);
    hide Mute, Waiting, Clear, Leads, Coherent, Apply, Enabled, Possible, Response, Admitted;
    hide Frame.Encoded, Frame.Decode;
    hide Kept, Newest, Moves, Smooth, Known, HandHeld, OthersHeld, Dead, NetOk;
    var m := Response(env, req, world).value;
    NetOfCoherent(env, s);
    HandlerMagic(env, s, t, world);
    AdmittedExactly(env, m, order, None);
    RespondMoves(env, s, t, world, order);
    hide Framed;
    f := ToClient(s.net[t].conn, Frame.Encoded(env.wire, m, order), s.net[t].origin);
    s' := Apply(env, s, Respond(t, world, order));
    RespondSmooth(s, t, world, order);
    LeadsStep(env, s, Respond(t, world, order));
    MovesParts(s, s', t, f);
    StepCoherent(env, s, Respond(t, world, order));
    MovedClear(env, s, s', t, f, s.client.conn);
    MovedNewest(env, s, s', t, f);
  }

  lemma MovesParts(s: State, s': State, t: nat, f: Flight)
    requires Moves(s, s', t, f)
    ensures s'.issued == s.issued && s'.client == s.client && f.origin == s.net[t].origin
  {
  }

  lemma NewestParts(env: Env, s: State, f: Flight)
    requires Newest(env, s, f)
    ensures s.nextToken > 0 && Waiting(env, s, s.nextToken - 1) && s.net[s.nextToken - 1] == f
    ensures Clear(env, s, s.client.conn) && !Dead(s, f.conn)
  {
    hide Waiting, Clear, Dead;
    WaitingParts(env, s, s.nextToken - 1);
  }

  lemma WaitingIn(env: Env, s: State, t: nat)
    requires Waiting(env, s, t)
    ensures t in s.net
  {
    hide Coherent, HandHeld, OthersHeld, Dead;
  }

  lemma NewestInforms(env: Env, s: State, f: Flight, id: nat)
    requires LawfulEnv(env) && Newest(env, s, f) && f.ToClient? && Stands(s, f.origin, id)
    ensures InformsInTurn(env, s, id)
  {
    hide Newest, Waiting, Clear, Dead, InformsInTurn, LawfulEnv, Stands;
    NewestParts(env, s, f);
    ResponseInforms(env, s, s.nextToken - 1, id);
  }

  lemma HandlerInforms(env: Env, s: State, t: nat, id: nat)
    requires LawfulEnv(env) && Waiting(env, s, t) && s.net[t].Handling? && Clear(env, s, s.client.conn)
    requires s.net[t].conn !in s.goneConns && !Mute(env, s.net[t].req) && Stands(s, s.net[t].origin, id)
    ensures InformsInTurn(env, s, id)
  {
    WaitingIn(env, s, t);
    hide Newest, Waiting, Clear, Dead, InformsInTurn, Leads, Kept, Mute, LawfulEnv, Stands;
    var s1, f := HandlerResponds(env, s, t);
    StandsOn(s, s1, s.net[t].origin, id);
    NewestInforms(env, s1, f, id);
    LeadsInforms(env, s, s1, id);
  }

  lemma HandedParts(env: Env, f: Flight, g: Flight)
    requires Handed(env, f, g)
    ensures f.ToServer? && g.origin == f.origin && Frame.Decode(env.wire, None, [], f.bytes).Ok?
    ensures var m := Frame.Decode(env.wire, None, [], f.bytes).msg;
            if IsHeartbeat(m.header) then g.ToClient? else g == Handling(f.conn, m, f.origin)
  {
    hide Frame.Decode, IsHeartbeat;
  }

  /** The server has answered a frame, or handles it. */
  lemma HandedInforms(env: Env, s: State, f: Flight, g: Flight, id: nat)
    requires LawfulEnv(env) && Newest(env, s, g) && Handed(env, f, g) && Stands(s, f.origin, id)
    requires f.conn == s.client.conn && s.client.conn !in s.goneConns
    requires var r := Frame.Decode(env.wire, None, [], f.bytes);
             r.Ok? ==> IsHeartbeat(r.msg.header) || !Mute(env, r.msg)
    ensures InformsInTurn(env, s, id)
  {
    hide Newest, Waiting, Clear, Dead, InformsInTurn, Mute, LawfulEnv, Stands, Handed, Frame.Decode, IsHeartbeat;
    HandedParts(env, f, g);
    if g.ToClient? {
      NewestInforms(env, s, g, id);
    } else {
      NewestParts(env, s, g);
      HandlerInforms(env, s, s.nextToken - 1, id);
    }
  }

  lemma RequestInforms(env: Env, s: State, t: nat, id: nat)
    requires LawfulEnv(env) && Waiting(env, s, t) && s.net[t].ToServer? && Clear(env, s, s.client.conn)
    requires s.net[t].conn == s.client.conn && s.client.conn !in s.goneConns && Stands(s, s.net[t].origin, id)
    requires var r := Frame.Decode(env.wire, None, [], s.net[t].bytes);
             r.Ok? ==> IsHeartbeat(r.msg.header) || !Mute(env, r.msg)
    ensures InformsInTurn(env, s, id)
  {
    WaitingIn(env, s, t);
    hide Newest, Waiting, Clear, InformsInTurn, Leads, Kept, Mute, LawfulEnv, Stands, Handed, Frame.Decode, IsHeartbeat;
    var s1, f := Admits(env, s, t);
    KeptConn(s, s1, s.net[t].origin);
    StandsOn(s, s1, s.net[t].origin, id);
    HandedInforms(env, s1, s.net[t], f, id);
    LeadsInforms(env, s, s1, id);
  }

  /** Whatever is not hopeless gets through. */
  lemma FlightInforms(env: Env, s: State, t: nat, id: nat)
    requires LawfulEnv(env) && Waiting(env, s, t) && Clear(env, s, s.client.conn)
    requires !Hopeless(env, s, s.net[t]) && Stands(s, s.net[t].origin, id)
    ensures InformsInTurn(env, s, id)
  {
    WaitingParts(env, s, t);
    HeardConn(s, s.net[t].conn);
    hide Waiting, Clear, Dead, InformsInTurn, Mute, LawfulEnv, Stands, Frame.Decode, IsHeartbeat, Coherent, HandHeld;
    hide OthersHeld;
    match s.net[t]
    case ToServer(_, _, _) => RequestInforms(env, s, t, id);
    case Handling(_, _, _) => HandlerInforms(env, s, t, id);
    case ToClient(_, _, _) => ResponseInforms(env, s, t, id);
  }

  lemma HeldWaiting(env: Env, s: State, t: nat)
    requires Coherent(env, s) && Held(s, false) && s.crashed == None && s.issued < U64
    requires t in s.net && !Dead(s, s.net[t].conn)
    ensures Waiting(env, s, t)
  {
    hide Coherent, HandHeld, Known, Dead;
  }

  // A frame that has still to leave.

  lemma LeaveState(env: Env, s: State, k: nat, order: seq<Bytes>)
    requires s.crashed == None && Unsent(s, k) && s.senders[k].conn !in s.closedConns
    requires RequestOf(env, s, k).Some? && Framed(env, RequestOf(env, s, k).value, order)
    ensures Enabled(env, s, Leave(k, order)) && Smooth(s, Leave(k, order))
    ensures Enumerates(order, RequestOf(env, s, k).value.Entries())
    ensures var s', m := Apply(env, s, Leave(k, order)), RequestOf(env, s, k).value;
            && s'.net == s.net[s.nextToken := ToServer(s.senders[k].conn, Frame.Encoded(env.wire, m, order), k)]
            && s'.client == s.client && s'.calls == s.calls && s'.issued == s.issued && s'.crashed == None
            && s'.input == s.input && s'.closedConns == s.closedConns && s'.goneConns == s.goneConns
  {
    hide Request, Frame.Encoded;
  }

  lemma SameDead(env: Env, s: State, s': State, f: Flight)
    requires s'.client == s.client && s'.input == s.input && s'.closedConns == s.closedConns
    requires s'.goneConns == s.goneConns
    ensures Hopeless(env, s', f) <==> Hopeless(env, s, f)
    ensures Dead(s', f.conn) <==> Dead(s, f.conn)
  {
    hide Mute, Frame.Decode, IsHeartbeat;
  }

  lemma LiveRequest(env: Env, s: State, f: Flight)
    requires !Hopeless(env, s, f) && f.ToServer?
    ensures !Dead(s, f.conn) && Decodable(env, f)
  {
    hide Mute, Frame.Decode, IsHeartbeat, Dead;
  }

  /** A frame that is not hopeless leaves, and gets through. */
  lemma SenderInforms(env: Env, s: State, k: nat, id: nat)
    requires LawfulEnv(env) && Coherent(env, s) && Held(s, false) && s.crashed == None && s.issued < U64
    requires Clear(env, s, s.client.conn) && Waits(s.senders, k) && !Futile(env, s, k) && Stands(s, k, id)
    ensures InformsInTurn(env, s, id)
  {
    var order :| Unsent(s, k) && RequestOf(env, s, k).Some? && Framed(env, RequestOf(env, s, k).value, order)
      && !Hopeless(env, s, ToServer(s.senders[k].conn,
                                    Frame.Encoded(env.wire, RequestOf(env, s, k).value, order), k));
    hide Hopeless, Coherent, Held, Clear, Dead, InformsInTurn, LawfulEnv, Request, Frame.Encoded;
    hide Apply, Enabled, Smooth;
    hide Leads, Framed, Decodable, Futile;
    var s', f := Left(env, s, k, order);
    SameDead(env, s, s', f);
    HeldWaiting(env, s', s.nextToken);
    FlightInforms(env, s', s.nextToken, id);
    LeadsInforms(env, s, s', id);
  }

  lemma Left(env: Env, s: State, k: nat, order: seq<Bytes>) returns (s': State, f: Flight)
    requires LawfulEnv(env) && Coherent(env, s) && Held(s, false) && s.crashed == None && s.issued < U64
    requires Clear(env, s, s.client.conn) && Unsent(s, k) && RequestOf(env, s, k).Some?
    requires Framed(env, RequestOf(env, s, k).value, order) && Enumerates(order, RequestOf(env, s, k).value.Entries())
    requires !Hopeless(env, s, ToServer(s.senders[k].conn,
                                        Frame.Encoded(env.wire, RequestOf(env, s, k).value, order), k))
    ensures f == ToServer(s.senders[k].conn, Frame.Encoded(env.wire, RequestOf(env, s, k).value, order), k)
    ensures Leads(env, s, s') && Coherent(env, s') && Held(s', false) && Clear(env, s', s'.client.conn)
    ensures s'.net == s.net[s.nextToken := f] && s'.client == s.client && s'.calls == s.calls && s'.issued == s.issued
    ensures s'.crashed == None && s'.input == s.input && s'.closedConns == s.closedConns
    ensures s'.goneConns == s.goneConns && !Dead(s, f.conn)
  {
    hide Hopeless, Coherent, Held, Clear, LawfulEnv, Request, Frame.Encoded, Apply, Enabled, Smooth;
    hide Leads, Framed, Decodable;
    f := ToServer(s.senders[k].conn, Frame.Encoded(env.wire, RequestOf(env, s, k).value, order), k);
    LiveRequest(env, s, f);
    LeaveState(env, s, k, order);
    s' := Apply(env, s, Leave(k, order));
    LeadsStep(env, s, Leave(k, order));
    StepCoherent(env, s, Leave(k, order));
    LeaveHeld(env, s, k, order, false);
    ClearPut(env, s, s', f, s.client.conn);
  }

  // The exact condition.

  lemma NotLost(env: Env, s: State, k: nat) returns (t: nat)
    requires !Lost(env, s, k) && k in Known(s)
    ensures (Waits(s.senders, k) && !Futile(env, s, k))
         || (t in s.net && s.net[t].origin == k && !Hopeless(env, s, s.net[t]))
         || !OutOfHand(s, k)
  {
    hide Futile, Hopeless, Known, OutOfHand, Waits;
    t := 0;
    if !(forall u | u in s.net && s.net[u].origin == k :: Hopeless(env, s, s.net[u])) {
      t :| t in s.net && s.net[t].origin == k && !Hopeless(env, s, s.net[t]);
    }
  }

  lemma HandGot(env: Env, s: State, k: nat)
    requires Coherent(env, s) && !OutOfHand(s, k) && k in s.client.pending
    ensures s.input.Got? && SeqNo(s.input.msg.header) == k
  {
    hide Balanced, NetOk, SeqNo, Registered, ReadLast, UnsentPending;
  }

  /** From such a state, with every frame on the connection decodable. */
  lemma HopefulInforms(env: Env, s: State, k: nat)
    requires LawfulEnv(env) && Coherent(env, s) && Held(s, false) && s.crashed == None && s.issued < U64
    requires Clear(env, s, s.client.conn) && k in s.client.pending && !Lost(env, s, k)
    ensures InformsInTurn(env, s, s.client.pending[k])
  {
    hide Coherent, Held, Clear, Lost, Futile, Hopeless, OutOfHand, InformsInTurn, LawfulEnv, Known, Balanced;
    CoherentBalanced(env, s);
    PendingKnown(s, k);
    assert s.client.pending[k] < |s.calls| by { KnownBound(s, k); }
    var t := NotLost(env, s, k);
    if Waits(s.senders, k) && !Futile(env, s, k) {
      SenderInforms(env, s, k, s.client.pending[k]);
    } else if !OutOfHand(s, k) {
      HandGot(env, s, k);
      HandInforms(env, s, k);
    } else {
      assert !Dead(s, s.net[t].conn) by { NotDead(env, s, s.net[t]); }
      HeldWaiting(env, s, t);
      FlightInforms(env, s, t, s.client.pending[k]);
    }
  }

  lemma NotDead(env: Env, s: State, f: Flight)
    requires !Hopeless(env, s, f)
    ensures !Dead(s, f.conn)
  {
    hide Dead, Mute, Frame.Decode, IsHeartbeat;
  }

  lemma KnownBound(s: State, k: nat)
    requires Balanced(BookOf(s)) && k in Known(s)
    ensures Known(s)[k] < |s.calls|
  {
    hide Balanced;
    KnownKey(s, k);
  }

  lemma LostNeverInforms(env: Env, s: State, k: nat)
    requires LawfulEnv(env) && Coherent(env, s) && Dialled(s) && Lost(env, s, k) && k in s.client.pending
    requires !Informed(s, s.client.pending[k])
    ensures !CanInform(env, s, s.client.pending[k])
  {
    hide Apply, Enabled, Coherent, Dialled, Lost, Informed, StillLost, Known, Balanced;
    CoherentBalanced(env, s);
    PendingKnown(s, k);
    forall states: seq<State>, steps: seq<Step> | Path(env, s, states, steps) && states[|steps|].issued < U64
      ensures !Informed(states[|steps|], s.client.pending[k])
    {
      NeverInformed(env, s, k, states, steps, |steps|);
      StillLostParts(env, s, states[|steps|], k);
    }
  }

  lemma NotYetInformed(s: State, id: nat)
    requires !Concluded(s, id)
    ensures !Informed(s, id)
  {
  }

  /**
   * In every run in which no heartbeat's write has failed after its frame left, and whose frames on the connection can
   * all be decoded: a pending call can still be told of a response, even without a loss and with all frames in their
   * order, if and only if it is not lost.
   */
  lemma AnswerableExactly(env: Env, states: seq<State>, steps: seq<Step>, k: nat)
    requires LawfulEnv(env) && ShortRun(env, states, steps) && CarefulRun(states, steps, false)
    requires var s := states[|steps|];
             s.crashed == None && k in s.client.pending && Clear(env, s, s.client.conn)
    ensures var s := states[|steps|];
            && (InformsInTurn(env, s, s.client.pending[k]) <==> !Lost(env, s, k))
            && (CanInform(env, s, s.client.pending[k]) <==> !Lost(env, s, k))
  {
    hide Coherent, Held, Careful, Clear, Apply, Enabled, Lost, InformsInTurn, CanInform, Dialled, Informed, Concluded;
    hide Balanced, Counted;
    var s := states[|steps|];
    StartCoherent(env);
    StartHeld(false);
    RunCoherent(env, states, steps, |steps|);
    PathHeld(env, START, states, steps, false, |steps|);
    RunDialled(env, states, steps, |steps|);
    RunBalanced(env, states, steps, |steps|);
    RunCounted(env, states, steps, |steps|);
    PendingUnanswered(s, k);
    if Lost(env, s, k) {
      NotYetInformed(s, s.client.pending[k]);
      LostNeverInforms(env, s, k);
      if InformsInTurn(env, s, s.client.pending[k]) {
        InTurnInforms(env, s, s.client.pending[k]);
      }
    } else {
      HopefulInforms(env, s, k);
      InTurnInforms(env, s, s.client.pending[k]);
    }
  }
}
