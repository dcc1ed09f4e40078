/** When exactly a failed write makes the reading goroutine call `done` on a nil call. */
module NilCalls {
  import opened Bytes
  import opened Header
  import Frame
  import opened Server
  import opened Connection
  import opened Exchange
  import opened Ledger
  import opened InFlight
  import opened Correlation
  import opened Delivery

  /** The frame of a heartbeat that has been taken is on its way. */
  ghost predicate Doomed(env: Env, s: State, t: nat) {
    && Waiting(env, s, t) && s.net[t].ToServer? && Clear(env, s, s.client.conn) && s.client.conn !in s.goneConns
    && var k := s.net[t].origin;
       k !in s.client.pending && k in Known(s) && Known(s)[k] < |s.calls| && s.calls[Known(s)[k]].heartbeat
  }

  /** The frame of a heartbeat is decoded as one. */
  lemma HeartbeatArrives(env: Env, s: State, t: nat)
    requires LawfulEnv(env) && NetOk(env, s) && t in s.net && s.net[t].ToServer?
    requires CallOf(s, s.net[t]).heartbeat && Frame.Decode(env.wire, None, [], s.net[t].bytes).Ok?
    ensures IsHeartbeat(Frame.Decode(env.wire, None, [], s.net[t].bytes).msg.header)
  {
    var f := s.net[t];
    NetFlight(env, s, t);
    hide Frame.Decode, IsHeartbeat, RequestAtServer, NetOk, RequestFrame, Registered;
    ReadRequest(env, CallOf(s, f), f.origin, f.bytes);
    FrameRequest(env, CallOf(s, f), f.origin, f.bytes);
    RequestAtServerFields(env, CallOf(s, f), f.origin);
  }

  /** So is its echo. */
  lemma EchoInHand(env: Env, s: State)
    requires LawfulEnv(env) && Coherent(env, s) && s.input.Got?
    ensures var k := SeqNo(s.input.msg.header);
            && k in Known(s) && Known(s)[k] < |s.calls|
            && IsHeartbeat(s.input.msg.header) == s.calls[Known(s)[k]].heartbeat
  {
    hide Balanced, NetOk, SeqNo, IsHeartbeat, ReplyRead, LastSome, Registered, OutcomeOf, Justified;
    var k := SeqNo(s.input.msg.header);
    KnownKey(s, k);
    OutcomeJustified(env, s.calls[Known(s)[k]], k, LastSome(s.heard[..|s.heard| - 1]), s.input.msg);
  }

  lemma NilCrashes(env: Env, s: State, k: nat) returns (s': State)
    requires s.crashed == None && s.input.Got? && IsHeartbeat(s.input.msg.header)
    requires SeqNo(s.input.msg.header) == k && k !in s.client.pending
    ensures Leads(env, s, s') && s'.crashed == Some(NilHeartbeat) && s'.issued == s.issued
  {
    hide IsHeartbeat, SeqNo, Leads;
    var s1 := Apply(env, s, TakeResponse);
    s' := Apply(env, s1, Deliver);
    LeadsStep(env, s, TakeResponse);
    LeadsStep(env, s1, Deliver);
    LeadsOn(env, s, s1, s');
  }

  /** A careful run from here ends in the panic. */
  ghost predicate CanPanic(env: Env, s: State) {
    exists states: seq<State>, steps: seq<Step> :: Panics(env, s, states, steps)
  }

  ghost predicate Panics(env: Env, s: State, states: seq<State>, steps: seq<Step>) {
    && Path(env, s, states, steps) && CarefulRun(states, steps, false)
    && states[|steps|].issued < U64 && states[|steps|].crashed == Some(NilHeartbeat)
  }

  /** The panic comes without another failed write or loss, with the frames of each connection in their order. */
  ghost predicate PanicsInTurn(env: Env, s: State) {
    exists s' :: Leads(env, s, s') && s'.crashed == Some(NilHeartbeat) && s'.issued < U64
  }

  lemma CourseCareful(env: Env, s: State, states: seq<State>, steps: seq<Step>)
    requires Course(env, s, states, steps)
    ensures CarefulRun(states, steps, false)
  {
    hide Apply, Enabled, Covered;
  }

  lemma InTurnPanics(env: Env, s: State)
    requires PanicsInTurn(env, s)
    ensures CanPanic(env, s)
  {
    hide Apply, Enabled, Smooth, Careful;
    var s' :| Leads(env, s, s') && s'.crashed == Some(NilHeartbeat) && s'.issued < U64;
    var states: seq<State>, steps: seq<Step> :| Course(env, s, states, steps) && states[|steps|] == s';
    CourseCareful(env, s, states, steps);
    assert Panics(env, s, states, steps);
  }

  lemma DoomedParts(env: Env, s: State, t: nat)
    requires LawfulEnv(env) && Doomed(env, s, t)
    ensures Waiting(env, s, t) && t in s.net && s.net[t].ToServer? && Clear(env, s, s.client.conn)
    ensures NetOk(env, s) && s.net[t].conn == s.client.conn && s.client.conn !in s.goneConns
    ensures Frame.Decode(env.wire, None, [], s.net[t].bytes).Ok?
    ensures var k := s.net[t].origin;
            k !in s.client.pending && k in Known(s) && Known(s)[k] < |s.calls| && s.calls[Known(s)[k]].heartbeat
  {
    hide Coherent, Frame.Decode, HandHeld, OthersHeld, Known;
    WaitingParts(env, s, t);
    NetOfCoherent(env, s);
  }

  /** The echo is read, and finds no call. */
  lemma EchoFetched(env: Env, s: State, t: nat) returns (s': State)
    requires LawfulEnv(env) && Doomed(env, s, t)
    ensures Leads(env, s, s') && Coherent(env, s') && Kept(s, s', s.net[t].origin) && s'.crashed == None
    ensures s'.input.Got? && SeqNo(s'.input.msg.header) == s.net[t].origin
  {
    hide Apply, Enabled, Coherent, Waiting, Clear, Leads, Frame.Decode, IsHeartbeat, SeqNo, NetOk, DecodedFrom, Known;
    hide LawfulEnv, Doomed, Kept;
    DoomedParts(env, s, t);
    HeartbeatArrives(env, s, t);
    var s1, f := Admits(env, s, t);
    s' := Fetched(env, s1, s1.nextToken - 1);
    LeadsOn(env, s, s1, s');
    KeptOn(s, s1, s', s.net[t].origin);
  }

  lemma DoomedPanics(env: Env, s: State, t: nat)
    requires LawfulEnv(env) && Doomed(env, s, t)
    ensures PanicsInTurn(env, s)
  {
    hide Coherent, Waiting, Clear, Leads, Frame.Decode, IsHeartbeat, SeqNo, NetOk, Known, LawfulEnv, Doomed;
    DoomedParts(env, s, t);
    assert s.issued < U64 by { WaitingParts(env, s, t); }
    var s2 := EchoFetched(env, s, t);
    EchoInHand(env, s2);
    var s3 := NilCrashes(env, s2, s.net[t].origin);
    LeadsOn(env, s, s2, s3);
  }

  // The exact condition.

  /** The state after a frame has left and its write has failed all the same. */
  ghost function AfterFailedWrite(env: Env, s: State, k: nat, order: seq<Bytes>): State
    requires Enabled(env, s, Leave(k, order)) && MutexFree(s)
  {
    var s1 := Apply(env, s, Leave(k, order));
    Apply(env, s1, WriteFail(k))
  }

  lemma FailedWriteState(env: Env, s: State, k: nat, order: seq<Bytes>)
    requires Enabled(env, s, Leave(k, order)) && MutexFree(s)
    ensures var s1 := Apply(env, s, Leave(k, order));
            && Enabled(env, s1, WriteFail(k))
            && s1.calls == s.calls && s1.issued == s.issued && s1.client == s.client && s1.crashed == None
            && s1.senders == s.senders[k := s.senders[k].(left := true)] && s1.taken == s.taken
    ensures var s2 := AfterFailedWrite(env, s, k, order);
            && s2.calls == s.calls && s2.issued == s.issued && s2.crashed == None && k !in s2.client.pending
            && s2.client.conn == s.client.conn && s2.closedConns == s.closedConns && s2.goneConns == s.goneConns
            && s2.input == s.input
            && (forall j | j in s.client.pending && j != k :: j in s2.client.pending)
            && var frame := Frame.Encoded(env.wire, RequestOf(env, s, k).value, order);
               s2.net == s.net[s.nextToken := ToServer(s.senders[k].conn, frame, k)]
  {
    hide Request, Frame.Encoded, Framed;
  }

  lemma FailedCoherent(env: Env, s: State, k: nat, order: seq<Bytes>)
    requires LawfulEnv(env) && Coherent(env, s) && s.issued < U64
    requires Enabled(env, s, Leave(k, order)) && MutexFree(s)
    ensures Coherent(env, Apply(env, s, Leave(k, order))) && Coherent(env, AfterFailedWrite(env, s, k, order))
  {
    FailedWriteState(env, s, k, order);
    hide Coherent, Apply, Enabled;
    StepCoherent(env, s, Leave(k, order));
    StepCoherent(env, Apply(env, s, Leave(k, order)), WriteFail(k));
  }

  lemma HarmlessHeld(env: Env, s: State, k: nat, order: seq<Bytes>)
    requires LawfulEnv(env) && Coherent(env, s) && Held(s, false) && s.issued < U64
    requires Enabled(env, s, Leave(k, order)) && MutexFree(s) && !s.calls[s.senders[k].call].heartbeat
    ensures Held(AfterFailedWrite(env, s, k, order), false)
  {
    FailedWriteState(env, s, k, order);
    FailedCoherent(env, s, k, order);
    assert Careful(Apply(env, s, Leave(k, order)), WriteFail(k), false) by { HarmlessCareful(env, s, k, order); }
    hide Coherent, Held, Careful, Apply, Enabled;
    StepHeld(env, s, Leave(k, order), false);
    StepHeld(env, Apply(env, s, Leave(k, order)), WriteFail(k), false);
  }

  lemma HarmlessCareful(env: Env, s: State, k: nat, order: seq<Bytes>)
    requires Coherent(env, s) && Enabled(env, s, Leave(k, order)) && MutexFree(s)
    requires !s.calls[s.senders[k].call].heartbeat
    ensures Careful(Apply(env, s, Leave(k, order)), WriteFail(k), false)
  {
    SenderKnown(s, k);
    hide Balanced, NetOk, InputOk, UnsentPending, Registered, Framed, Request;
    FailedWriteState(env, s, k, order);
    hide Apply, Enabled;
  }

  lemma HarmfulPanics(env: Env, s: State, k: nat, order: seq<Bytes>)
    requires LawfulEnv(env) && Coherent(env, s) && Held(s, false) && s.issued < U64
    requires Enabled(env, s, Leave(k, order)) && Live(s, s.senders[k].conn) && Clear(env, s, s.client.conn)
    requires Admitted(env, RequestOf(env, s, k).value, order) && s.calls[s.senders[k].call].heartbeat
    ensures PanicsInTurn(env, AfterFailedWrite(env, s, k, order))
  {
    hide Coherent, HandHeld, AfterFailedWrite, Request, Framed, Admitted, Frame.Encoded, PanicsInTurn;
    hide Clear, Known, Waiting, OthersHeld, SeqNo;
    hide Balanced, NetOk, Waits;
    LeaveWaits(env, s, k, order);
    FailedWriteState(env, s, k, order);
    assert HandHeld(s, false);
    FailedHand(env, s, k, order);
    FailedKnown(env, s, k, order);
    hide Apply, Enabled;
    FailedCoherent(env, s, k, order);
    FailedOthers(env, s, k, order);
    hide Held;
    FailedClear(env, s, k, order);
    var s2 := AfterFailedWrite(env, s, k, order);
    StillWaiting(env, s2, s.nextToken);
    SenderKnown(s, k);
    DoomedPanics(env, s2, s.nextToken);
  }

  lemma FailedOthers(env: Env, s: State, k: nat, order: seq<Bytes>)
    requires Coherent(env, s) && Held(s, false) && Enabled(env, s, Leave(k, order)) && MutexFree(s)
    ensures OthersHeld(AfterFailedWrite(env, s, k, order), s.nextToken)
  {
    hide Coherent, HandHeld, Known, AfterFailedWrite, Request, Frame.Encoded, Apply, NetOk, Waits, Balanced;
    assert Waits(s.senders, k) && Balanced(BookOf(s)) && NetOk(env, s) by { LeaveWaits(env, s, k, order); }
    NoneOnTheWay(env, s, k);
    FailedWriteState(env, s, k, order);
    FailedKnown(env, s, k, order);
    hide Enabled;
  }

  lemma LeaveWaits(env: Env, s: State, k: nat, order: seq<Bytes>)
    requires Coherent(env, s) && Enabled(env, s, Leave(k, order))
    ensures Waits(s.senders, k) && Balanced(BookOf(s)) && NetOk(env, s)
  {
    hide NetOk, Balanced;
  }

  lemma FailedClear(env: Env, s: State, k: nat, order: seq<Bytes>)
    requires LawfulEnv(env) && Coherent(env, s) && s.issued < U64
    requires Enabled(env, s, Leave(k, order)) && Live(s, s.senders[k].conn) && Clear(env, s, s.client.conn)
    requires Admitted(env, RequestOf(env, s, k).value, order)
    ensures Clear(env, AfterFailedWrite(env, s, k, order), s.client.conn)
  {
    hide Frame.Decode, Frame.Encoded, Request, AfterFailedWrite, Coherent, Admitted, Apply, Balanced, Framed, Clear;
    LeaveWaits(env, s, k, order);
    LeavePasses(env, s, k, order);
    FailedWriteState(env, s, k, order);
    var m := RequestOf(env, s, k).value;
    hide Enabled;
    AdmittedExactly(env, m, order, None);
    ClearPut(env, s, AfterFailedWrite(env, s, k, order),
             ToServer(s.senders[k].conn, Frame.Encoded(env.wire, m, order), k), s.client.conn);
  }

  lemma FailedHand(env: Env, s: State, k: nat, order: seq<Bytes>)
    requires Coherent(env, s) && HandHeld(s, false) && Enabled(env, s, Leave(k, order)) && MutexFree(s)
    ensures HandHeld(AfterFailedWrite(env, s, k, order), false)
  {
    FailedWriteState(env, s, k, order);
    FailedKnown(env, s, k, order);
    hide Apply, Enabled, Coherent, HandHeld, Known, AfterFailedWrite, Request;
    HandStaysHeld(env, s, AfterFailedWrite(env, s, k, order), k);
  }

  lemma FailedKnown(env: Env, s: State, k: nat, order: seq<Bytes>)
    requires Balanced(BookOf(s)) && Enabled(env, s, Leave(k, order)) && MutexFree(s)
    ensures Known(AfterFailedWrite(env, s, k, order)) == Known(s)
  {
    hide Request, Frame.Encoded, Framed, Balanced, Registered, TakeAndFinish;
    SenderBalanced(env, s, Leave(k, order));
    FinishBalanced(Apply(env, s, Leave(k, order)), k, NotWritten);
  }

  lemma HeldNeverPanics(env: Env, s: State)
    requires LawfulEnv(env) && Coherent(env, s) && Held(s, false) && s.crashed == None
    ensures !CanPanic(env, s)
  {
    hide Coherent, Held, Apply, Enabled, Path, CarefulRun;
    forall states: seq<State>, steps: seq<Step> | Panics(env, s, states, steps)
      ensures false
    {
      assert |states| == |steps| + 1 by { PathLength(env, s, states, steps); }
      PathNoNil(env, s, states, steps, |steps|);
    }
  }

  lemma PathLength(env: Env, s: State, states: seq<State>, steps: seq<Step>)
    requires Path(env, s, states, steps)
    ensures |states| == |steps| + 1
  {
  }

  /** Without a heartbeat nothing of the kind happens, in whatever order frames arrive. */
  lemma HarmlessNever(env: Env, s: State, k: nat, order: seq<Bytes>)
    requires LawfulEnv(env) && Coherent(env, s) && Held(s, false) && s.issued < U64
    requires Enabled(env, s, Leave(k, order)) && MutexFree(s) && !s.calls[s.senders[k].call].heartbeat
    ensures !CanPanic(env, AfterFailedWrite(env, s, k, order))
  {
    hide Coherent, Held, CanPanic, AfterFailedWrite, Request, Framed;
    FailedWriteState(env, s, k, order);
    hide Apply, Enabled;
    FailedCoherent(env, s, k, order);
    HarmlessHeld(env, s, k, order);
    HeldNeverPanics(env, AfterFailedWrite(env, s, k, order));
  }

  lemma NilCallFrom(env: Env, s: State, k: nat, order: seq<Bytes>)
    requires LawfulEnv(env) && Coherent(env, s) && Held(s, false) && s.issued < U64
    requires Enabled(env, s, Leave(k, order)) && Live(s, s.senders[k].conn) && Clear(env, s, s.client.conn)
    requires Admitted(env, RequestOf(env, s, k).value, order)
    ensures var s2 := AfterFailedWrite(env, s, k, order);
            && (CanPanic(env, s2) <==> s.calls[s.senders[k].call].heartbeat)
            && (PanicsInTurn(env, s2) <==> s.calls[s.senders[k].call].heartbeat)
  {
    hide Coherent, Held, CanPanic, PanicsInTurn, AfterFailedWrite, Request, Framed, Admitted, Clear, Apply;
    if s.calls[s.senders[k].call].heartbeat {
      HarmfulPanics(env, s, k, order);
      InTurnPanics(env, AfterFailedWrite(env, s, k, order));
    } else {
      HarmlessNever(env, s, k, order);
      if PanicsInTurn(env, AfterFailedWrite(env, s, k, order)) {
        InTurnPanics(env, AfterFailedWrite(env, s, k, order));
      }
    }
  }

  lemma LeavePasses(env: Env, s: State, k: nat, order: seq<Bytes>)
    requires Balanced(BookOf(s)) && s.issued < U64 && Unsent(s, k) && RequestOf(env, s, k).Some?
    requires Framed(env, RequestOf(env, s, k).value, order) && Admitted(env, RequestOf(env, s, k).value, order)
    ensures k < U64 && Passes(env, RequestOf(env, s, k).value, order)
  {
    hide Balanced, RequestHeader, Frame.BodyOf;
    SenderKnown(s, k);
    RequestHeaderFields(s.calls[s.senders[k].call], k);
  }

  /** The hand is not concerned by a number that was waiting for its frame to leave. */
  lemma HandStaysHeld(env: Env, s: State, s2: State, k: nat)
    requires Coherent(env, s) && HandHeld(s, false) && Waits(s.senders, k)
    requires s2.input == s.input && s2.calls == s.calls && Known(s2) == Known(s)
    requires forall j | j in s.client.pending && j != k :: j in s2.client.pending
    ensures HandHeld(s2, false)
  {
    NotInHand(env, s, k);
    hide Coherent, SeqNo, Known;
  }

  /**
   * In every run in which no heartbeat's write has failed after its frame left, a frame now leaves although its write
   * fails, on a live connection on which every frame can be decoded, and within the size limit: the client can panic,
   * even with nothing lost and all frames in their order, if and only if it is a heartbeat.
   */
  lemma NilCallExactly(env: Env, states: seq<State>, steps: seq<Step>, k: nat, order: seq<Bytes>)
    requires LawfulEnv(env) && ShortRun(env, states, steps) && CarefulRun(states, steps, false)
    requires var s := states[|steps|];
             && Enabled(env, s, Leave(k, order)) && Live(s, s.senders[k].conn) && Clear(env, s, s.client.conn)
             && Admitted(env, RequestOf(env, s, k).value, order)
    ensures var s := states[|steps|];
            var s2 := AfterFailedWrite(env, s, k, order);
            && (CanPanic(env, s2) <==> s.calls[s.senders[k].call].heartbeat)
            && (PanicsInTurn(env, s2) <==> s.calls[s.senders[k].call].heartbeat)
  {
    hide Coherent, Held, CanPanic, PanicsInTurn, AfterFailedWrite, Careful, Request, Clear, Admitted, Apply, Enabled;
    StartCoherent(env);
    StartHeld(false);
    RunCoherent(env, states, steps, |steps|);
    PathHeld(env, START, states, steps, false, |steps|);
    NilCallFrom(env, states[|steps|], k, order);
  }
}
