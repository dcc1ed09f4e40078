/** Calls that the server does not answer: exactly which they are, and that nothing completes them but a close. */
module Unanswered {
  import opened Bytes
  import opened MetadataCodec
  import Frame
  import opened Header
  import opened Server
  import Trace
  import opened Connection
  import opened FrameLaws
  import opened Exchange
  import opened Ledger
  import opened InFlight
  import opened Correlation
  import opened Delivery
  import opened Completions
  import opened Lifecycle

  /** Exactly the requests for which every look-up, decoding, the method and the encoding succeed are answered. */
  lemma AnsweredExactly(env: Env, call: Call, k: nat, world: World)
    requires k < U64 && Request(env, call, k).Some? && Possible(call.md, world)
    ensures Response(env, RequestAtServer(env, call, k), world).Some?
       <==> && Trace.Parses(call.md)
            && call.path in env.services && call.method_ in env.services[call.path]
            && exists reply, sent, data :: AnsweredAs(env, call, world, reply, sent, data)
  {
    hide SeqNo, IsHeartbeat, StatusType, SerializeType, IsOneway, CompressType, MessageType;
    hide WithMessageType, WithCompressType, RequestAtServer, HandleError, ArgsAtServer, Conveyed, Trace.Parses;
    var req := RequestAtServer(env, call, k);
    RequestAtServerFields(env, call, k);
    if Trace.Parses(call.md) && call.path in env.services && call.method_ in env.services[call.path]
       && Serialization(call) in env.codecs {
      var m := env.services[call.path][call.method_];
      DecodedArgs(env, call, k, m.args);
      var args: Option<Value> := env.codecs[Serialization(call)].decode(m.args, req.payload);
      if args != None {
        var answer := m.run(world, args.value);
        if answer.Replied? {
          var data: Option<Bytes> := env.codecs[Serialization(call)].encode(answer.reply);
          if data != None {
            assert AnsweredAs(env, call, world, answer.reply, answer.sent, data.value);
          }
        }
      }
    }
  }

  // What can still come of a call.

  /** No answer to the request can be framed and is within the limit. */
  ghost predicate Mute(env: Env, req: Frame.Msg) {
    forall world, order |
      Possible(req.Entries(), world) && Response(env, req, world).Some?
      && Framed(env, Response(env, req, world).value, order) ::
      !Admitted(env, Response(env, req, world).value, order)
  }

  /** Nothing that the client will ever read can come of a frame or handler. */
  ghost predicate Hopeless(env: Env, s: State, f: Flight) {
    Dead(s, f.conn)
    || match f
       case ToServer(conn, bytes, _) =>
         var r := Frame.Decode(env.wire, None, [], bytes);
         conn in s.goneConns || !r.Ok? || (!IsHeartbeat(r.msg.header) && Mute(env, r.msg))
       case Handling(conn, req, _) => conn in s.goneConns || Mute(env, req)
       case ToClient(_, bytes, _) => !Frame.Decode(env.wire, None, [], bytes).Ok?
  }

  /** Nothing can come of a frame that has not left. */
  ghost predicate Futile(env: Env, s: State, k: nat)
    requires k in s.senders
  {
    forall order |
      Unsent(s, k) && RequestOf(env, s, k).Some? && Framed(env, RequestOf(env, s, k).value, order) ::
      Hopeless(env, s, ToServer(s.senders[k].conn, Frame.Encoded(env.wire, RequestOf(env, s, k).value, order), k))
  }

  /** Nothing on the way of a registered call can lead to a response for it. */
  ghost predicate Lost(env: Env, s: State, k: nat) {
    && k in Known(s)
    && (Waits(s.senders, k) ==> Futile(env, s, k))
    && (forall t | t in s.net && s.net[t].origin == k :: Hopeless(env, s, s.net[t]))
    && OutOfHand(s, k)
  }

  ghost predicate OutOfHand(s: State, k: nat) {
    s.input.Got? || s.input.Delivering? ==> SeqNo(s.input.msg.header) != k
  }

  /** All connections in use have been dialled. */
  ghost predicate Dialled(s: State) {
    && s.client.conn < s.nextConn
    && (forall t | t in s.net :: s.net[t].conn < s.nextConn)
    && (forall k | k in s.senders :: s.senders[k].conn < s.nextConn)
  }

  /** What is dead stays dead, and what has ended stays ended. */
  ghost predicate Fades(s: State, s': State) {
    && s.goneConns <= s'.goneConns
    && (forall conn: nat | conn < s.nextConn && Dead(s, conn) :: Dead(s', conn))
  }

  lemma HopelessStays(env: Env, s: State, s': State, f: Flight)
    requires Hopeless(env, s, f) && Fades(s, s') && f.conn < s.nextConn
    ensures Hopeless(env, s', f)
  {
    hide Mute, Dead, Frame.Decode, IsHeartbeat;
  }

  lemma FutileStays(env: Env, s: State, s': State, k: nat)
    requires k in s.senders && Futile(env, s, k) && Fades(s, s') && s.senders[k].conn < s.nextConn
    requires k in s'.senders && s'.senders[k] == s.senders[k] && s.calls <= s'.calls && s.senders[k].call < |s.calls|
    ensures Futile(env, s', k)
  {
    hide Hopeless, Request, Framed, Frame.Encoded, Fades;
    forall order | Unsent(s', k) && RequestOf(env, s', k).Some? && Framed(env, RequestOf(env, s', k).value, order)
      ensures Enumerates(order, RequestOf(env, s', k).value.Entries())
      ensures Hopeless(env, s', ToServer(s'.senders[k].conn,
                                         Frame.Encoded(env.wire, RequestOf(env, s', k).value, order), k))
    {
      FramedOrder(env, RequestOf(env, s', k).value, order);
      var f := ToServer(s.senders[k].conn, Frame.Encoded(env.wire, RequestOf(env, s, k).value, order), k);
      HopelessStays(env, s, s', f);
    }
  }

  /** What a step has to leave alone for a lost call to stay lost. */
  lemma LostStays(env: Env, s: State, s': State, k: nat)
    requires Lost(env, s, k) && Fades(s, s') && Dialled(s) && k in Known(s') && s.calls <= s'.calls
    requires Waits(s'.senders, k) ==> k in s.senders && s'.senders[k] == s.senders[k]
                                      && s.senders[k].call < |s.calls|
    requires forall t | t in s'.net && s'.net[t].origin == k ::
               (t in s.net && s'.net[t] == s.net[t]) || Hopeless(env, s', s'.net[t])
    requires OutOfHand(s', k)
    ensures Lost(env, s', k)
  {
    hide Hopeless, Known, Fades, Futile, SeqNo, OutOfHand;
    if Waits(s'.senders, k) {
      FutileStays(env, s, s', k);
    }
    forall t | t in s'.net && s'.net[t].origin == k
      ensures Hopeless(env, s', s'.net[t])
    {
      if t in s.net && s'.net[t] == s.net[t] {
        HopelessStays(env, s, s', s.net[t]);
      }
    }
  }

  // Connections.

  /** The connections and what is read from them are as they were, but for servers that end. */
  ghost predicate SameEars(s: State, s': State) {
    && s'.client.conn == s.client.conn && s'.nextConn == s.nextConn && s.closedConns <= s'.closedConns
    && s.goneConns <= s'.goneConns && (Deaf(s) ==> Deaf(s'))
  }

  lemma EarsFade(s: State, s': State)
    requires SameEars(s, s')
    ensures Fades(s, s')
  {
  }

  lemma FinishEars(s: State, k: nat, outcome: Ending)
    ensures var s' := TakeAndFinish(s, k, outcome); SameEars(s, s') && s'.net == s.net && s'.senders == s.senders - {k}
  {
  }

  lemma SendEars(env: Env, s: State, call: Call, now: int)
    requires Enabled(env, s, Send(call, now))
    ensures var s' := Apply(env, s, Send(call, now));
            && SameEars(s, s') && s'.net == s.net
            && (forall k | k in s'.senders ::
                  (k in s.senders && s'.senders[k] == s.senders[k]) || s'.senders[k].conn == s.client.conn)
  {
  }

  lemma LeaveEars(env: Env, s: State, k: nat, order: seq<Bytes>)
    requires Enabled(env, s, Leave(k, order))
    ensures var s', m := Apply(env, s, Leave(k, order)), RequestOf(env, s, k).value;
            && SameEars(s, s') && s'.senders == s.senders[k := s.senders[k].(left := true)]
            && s'.net == s.net[s.nextToken := ToServer(s.senders[k].conn, Frame.Encoded(env.wire, m, order), k)]
            && s'.input == s.input && s'.calls == s.calls
  {
    hide Request, Frame.Encoded, Framed;
  }

  lemma WriteOkEars(env: Env, s: State, k: nat)
    requires Enabled(env, s, WriteOk(k))
    ensures var s' := Apply(env, s, WriteOk(k));
            && SameEars(s, s') && s'.net == s.net && s'.senders == s.senders - {k}
            && s'.input == s.input && s'.calls == s.calls
  {
  }

  /** A frame or handler gives way to at most one flight on its connection, with its number. */
  ghost predicate Replaces(s: State, s': State, u: nat) {
    && u in s.net && s'.senders == s.senders && s'.calls == s.calls
    && forall t | t in s'.net ::
         (t in s.net && t != u && s'.net[t] == s.net[t])
         || (s'.net[t].conn == s.net[u].conn && s'.net[t].origin == s.net[u].origin)
  }

  lemma LoseEars(env: Env, s: State, t: nat)
    requires Enabled(env, s, Lose(t))
    ensures var s' := Apply(env, s, Lose(t)); SameEars(s, s') && Replaces(s, s', t)
  {
  }

  lemma AcceptEars(env: Env, s: State, t: nat, order: seq<Bytes>)
    requires Enabled(env, s, Accept(t, order))
    ensures var s' := Apply(env, s, Accept(t, order)); SameEars(s, s') && Replaces(s, s', t)
  {
    hide Frame.Decode, Frame.Encoded, IsHeartbeat, Framed, Echo;
  }

  lemma RespondEars(env: Env, s: State, t: nat, world: World, order: seq<Bytes>)
    requires Enabled(env, s, Respond(t, world, order))
    ensures var s' := Apply(env, s, Respond(t, world, order)); SameEars(s, s') && Replaces(s, s', t)
  {
    hide Frame.Encoded, Response, Possible, Framed;
  }

  lemma CarriageEars(env: Env, s: State, step: Step)
    requires Enabled(env, s, step) && Carriage(step)
    ensures var s' := Apply(env, s, step); SameEars(s, s') && Replaces(s, s', step.token)
  {
    hide Apply, Enabled, SameEars, Replaces;
    match step {
      case Lose(t) => LoseEars(env, s, t);
      case Accept(t, order) => AcceptEars(env, s, t, order);
      case Respond(t, world, order) => RespondEars(env, s, t, world, order);
    }
  }

  lemma ReadEars(env: Env, s: State, t: nat)
    requires Enabled(env, s, Connection.Read(t))
    ensures var s' := Apply(env, s, Connection.Read(t));
            && SameEars(s, s') && Replaces(s, s', t) && !Dead(s, s.net[t].conn)
  {
    hide Frame.Decode, OwnMetadata;
  }

  lemma HandEars(env: Env, s: State, step: Step)
    requires Enabled(env, s, step) && (step.TakeResponse? || step.Deliver?)
    ensures var s' := Apply(env, s, step); SameEars(s, s') && s'.net == s.net && s'.senders == s.senders
  {
    hide Apply, Enabled, SeqNo;
    HandState(env, s, step);
  }

  lemma CloseEars(env: Env, s: State, step: Step)
    requires Enabled(env, s, step) && (step.KeepaliveFails? || step.CloseCall?)
    ensures var s' := Apply(env, s, step); SameEars(s, s') && s'.net == s.net && s'.senders == s.senders
  {
    hide ShutdownAll, EnumeratesKeys;
  }

  lemma EndEars(env: Env, s: State, step: Step)
    requires Enabled(env, s, step)
    requires step.ReadError? || step.StartReconnect? || step.RedialFailed? || step.InputTail? || step.ServerEnds?
    ensures var s' := Apply(env, s, step); SameEars(s, s') && s'.net == s.net && s'.senders == s.senders
  {
  }

  /** A new connection: everything on the way was meant for another one. */
  lemma RedialFades(env: Env, s: State)
    requires Enabled(env, s, Redialled)
    ensures var s' := Apply(env, s, Redialled);
            && Fades(s, s') && s'.net == s.net && s'.senders == s.senders && s'.client.conn == s.nextConn
            && s'.nextConn == s.nextConn + 1 && s'.client.pending == s.client.pending && s'.calls == s.calls
            && s'.input.Reading? && BookOf(s') == BookOf(s) && s'.crashed == None
            && s'.completions == s.completions
            && (forall conn: nat | conn < s.nextConn :: Dead(s', conn))
  {
  }

  lemma StepFades(env: Env, s: State, step: Step)
    requires Enabled(env, s, step) && Dialled(s)
    ensures var s' := Apply(env, s, step); Fades(s, s') && Dialled(s')
  {
    hide Apply, Enabled, TakeAndFinish, Fades, Deaf;
    if step.Redialled? {
      RedialFades(env, s);
    } else {
      var s' := Apply(env, s, step);
      assert SameEars(s, s') && Dialled(s') by { StepEars(env, s, step); }
      EarsFade(s, s');
    }
  }

  lemma StepEars(env: Env, s: State, step: Step)
    requires Enabled(env, s, step) && Dialled(s) && !step.Redialled?
    ensures var s' := Apply(env, s, step); SameEars(s, s') && Dialled(s')
  {
    hide Deaf, Request, Response, Possible, Frame.Encoded, Frame.Decode, Framed, IsHeartbeat, SeqNo, TakeAndFinish;
    hide OutcomeOf, ShutdownAll, EnumeratesKeys, SameEars;
    match step
    case Send(call, now) => SendDialled(env, s, call, now);
    case EncodeFail(k) => FinishDialled(s, k, NotEncoded);
    case WriteFail(k) => FinishDialled(s, k, NotWritten);
    case _ => OthersDialled(env, s, step);
  }

  lemma SendDialled(env: Env, s: State, call: Call, now: int)
    requires Enabled(env, s, Send(call, now)) && Dialled(s)
    ensures var s' := Apply(env, s, Send(call, now)); SameEars(s, s') && Dialled(s')
  {
    hide Apply, Enabled, Deaf;
    SendEars(env, s, call, now);
  }

  lemma FinishDialled(s: State, k: nat, outcome: Ending)
    requires Dialled(s)
    ensures var s' := TakeAndFinish(s, k, outcome); SameEars(s, s') && Dialled(s')
  {
    hide TakeAndFinish, Deaf;
    FinishEars(s, k, outcome);
  }

  lemma OthersDialled(env: Env, s: State, step: Step)
    requires Enabled(env, s, step) && Dialled(s)
    requires !step.Redialled? && !step.Send? && !step.EncodeFail? && !step.WriteFail?
    ensures var s' := Apply(env, s, step); SameEars(s, s') && Dialled(s')
  {
    hide Apply, Enabled, Deaf;
    if Carriage(step) {
      CarriageEars(env, s, step);
    } else if step.Read? {
      ReadEars(env, s, step.token);
    } else if step.Leave? {
      assert step.k in s.senders by { LeaveSender(env, s, step.k, step.order); }
      LeaveEars(env, s, step.k, step.order);
    } else if step.WriteOk? {
      WriteOkEars(env, s, step.k);
    } else if step.TakeResponse? || step.Deliver? {
      HandEars(env, s, step);
    } else if step.KeepaliveFails? || step.CloseCall? {
      CloseEars(env, s, step);
    } else {
      EndEars(env, s, step);
    }
  }

  lemma LeaveSender(env: Env, s: State, k: nat, order: seq<Bytes>)
    requires Enabled(env, s, Leave(k, order))
    ensures Waits(s.senders, k) && Unsent(s, k) && RequestOf(env, s, k).Some?
    ensures Framed(env, RequestOf(env, s, k).value, order)
  {
  }

  lemma {:induction false} RunDialled(env: Env, states: seq<State>, steps: seq<Step>, i: nat)
    requires Run(env, states, steps) && i <= |steps|
    ensures Dialled(states[i])
  {
    hide Dialled, Apply, Enabled;
    if i == 0 {
      assert Dialled(START) by { StartDialled(); }
    } else {
      RunDialled(env, states, steps, i - 1);
      StepFades(env, states[i - 1], steps[i - 1]);
    }
  }

  lemma StartDialled()
    ensures Dialled(START)
  {
  }

  // One step after the other.

  lemma LostParts(env: Env, s: State, k: nat)
    requires Lost(env, s, k)
    ensures k in Known(s) && OutOfHand(s, k)
    ensures forall t | t in s.net && s.net[t].origin == k :: Hopeless(env, s, s.net[t])
  {
    hide Hopeless, Futile, Known, OutOfHand;
  }

  /** The sender of a number is as it was, if its frame has still to leave. */
  ghost predicate SameSender(s: State, s': State, k: nat) {
    Waits(s'.senders, k) ==> k in s.senders && s'.senders[k] == s.senders[k] && s.senders[k].call < |s.calls|
  }

  lemma FewerSenders(s: State, s': State, k: nat)
    requires Balanced(BookOf(s)) && s'.senders.Keys <= s.senders.Keys
    requires k in s'.senders ==> s'.senders[k] == s.senders[k]
    ensures SameSender(s, s', k)
  {
    hide Balanced, Registered;
    if k in s.senders {
      SenderKnown(s, k);
    }
  }

  lemma SendSenders(env: Env, s: State, call: Call, now: int, k: nat)
    requires Balanced(BookOf(s)) && k in Known(s) && Enabled(env, s, Send(call, now))
    requires Apply(env, s, Send(call, now)).issued < U64
    ensures SameSender(s, Apply(env, s, Send(call, now)), k)
  {
    hide Balanced, Registered;
    KnownKey(s, k);
    SeqBalanced(BookOf(s));
    if k in s.senders {
      SenderKnown(s, k);
    }
  }

  lemma SendLost(env: Env, s: State, call: Call, now: int, k: nat)
    requires Balanced(BookOf(s)) && Dialled(s) && Lost(env, s, k) && Enabled(env, s, Send(call, now))
    requires Apply(env, s, Send(call, now)).issued < U64
    ensures Lost(env, Apply(env, s, Send(call, now)), k)
  {
    hide Balanced, SeqNo, Lost, Hopeless, Known, Dialled, Apply, Enabled, Fades;
    LostParts(env, s, k);
    SendAdds(env, s, call, now);
    SendSenders(env, s, call, now, k);
    StepFades(env, s, Send(call, now));
    LostStays(env, s, Apply(env, s, Send(call, now)), k);
  }

  lemma FinishLost(env: Env, s: State, j: nat, outcome: Ending, k: nat)
    requires Balanced(BookOf(s)) && Dialled(s) && Lost(env, s, k) && j in s.senders
    ensures Lost(env, TakeAndFinish(s, j, outcome), k)
  {
    hide Balanced, SeqNo, Lost, Hopeless, Known, Dialled, TakeAndFinish, Fades;
    var s' := TakeAndFinish(s, j, outcome);
    LostParts(env, s, k);
    FinishLoosens(s, j, outcome);
    FinishEars(s, j, outcome);
    EarsFade(s, s');
    FewerSenders(s, s', k);
    LostStays(env, s, s', k);
  }

  lemma WriteOkLost(env: Env, s: State, j: nat, k: nat)
    requires Balanced(BookOf(s)) && Dialled(s) && Lost(env, s, k) && Enabled(env, s, WriteOk(j))
    ensures Lost(env, Apply(env, s, WriteOk(j)), k)
  {
    hide Balanced, SeqNo, Lost, Hopeless, Known, Dialled, Apply, Enabled, Fades;
    var s' := Apply(env, s, WriteOk(j));
    LostParts(env, s, k);
    SenderBalanced(env, s, WriteOk(j));
    WriteOkEars(env, s, j);
    EarsFade(s, s');
    FewerSenders(s, s', k);
    assert Known(s') == Known(s) by { KnownIs(s, s'); }
    LostStays(env, s, s', k);
  }

  lemma KnownIs(s: State, s': State)
    requires Registered(BookOf(s')) == Registered(BookOf(s))
    ensures Known(s') == Known(s)
  {
  }

  lemma LeaveLost(env: Env, s: State, j: nat, order: seq<Bytes>, k: nat)
    requires Balanced(BookOf(s)) && Dialled(s) && Lost(env, s, k) && Enabled(env, s, Leave(j, order))
    ensures Lost(env, Apply(env, s, Leave(j, order)), k)
  {
    hide Balanced, SeqNo, Hopeless, Registered, Apply, Enabled, Fades, Request, Frame.Encoded, Framed;
    var s' := Apply(env, s, Leave(j, order));
    LeaveSender(env, s, j, order);
    FramedOrder(env, RequestOf(env, s, j).value, order);
    SenderBalanced(env, s, Leave(j, order));
    KnownIs(s, s');
    LeaveEars(env, s, j, order);
    EarsFade(s, s');
    if k in s.senders {
      SenderKnown(s, k);
    }
    if j == k {
      var f := ToServer(s.senders[k].conn, Frame.Encoded(env.wire, RequestOf(env, s, k).value, order), k);
      assert Hopeless(env, s, f);
      HopelessStays(env, s, s', f);
    }
    hide Lost;
    LostStays(env, s, s', k);
  }

  lemma AcceptNetIs(env: Env, s: State, t: nat, order: seq<Bytes>)
    requires Enabled(env, s, Accept(t, order))
    ensures t in s.net && s.net[t].ToServer? && s.net[t].conn !in s.goneConns
    ensures var s', r := Apply(env, s, Accept(t, order)), Frame.Decode(env.wire, None, [], s.net[t].bytes);
            && (r.Ok? && IsHeartbeat(r.msg.header) ==> Enumerates(order, Echo(r.msg).Entries()))
            && s'.net == if r.Ok? then (s.net - {t})[s.nextToken := Accepted(env, s.net[t], r.msg, order)]
                         else s.net - {t}
  {
    hide Frame.Decode, Frame.Encoded, IsHeartbeat, Echo;
  }

  lemma RespondNetIs(env: Env, s: State, t: nat, world: World, order: seq<Bytes>)
    requires Enabled(env, s, Respond(t, world, order))
    ensures t in s.net && s.net[t].Handling? && Possible(s.net[t].req.Entries(), world)
    ensures var s', f := Apply(env, s, Respond(t, world, order)), s.net[t];
            var m := Response(env, f.req, world);
            if m == None || f.conn in s.goneConns then s'.net == s.net - {t}
            else
              && Framed(env, m.value, order) && Enumerates(order, m.value.Entries())
              && s'.net == (s.net - {t})[s.nextToken :=
                             ToClient(f.conn, Frame.Encoded(env.wire, m.value, order), f.origin)]
  {
    hide Response, Possible, Frame.Encoded;
  }

  /** What the server makes of a hopeless frame is hopeless. */
  lemma AcceptHopeless(env: Env, s: State, t: nat, order: seq<Bytes>)
    requires Enabled(env, s, Accept(t, order)) && t in s.net && Hopeless(env, s, s.net[t])
    requires SameEars(s, Apply(env, s, Accept(t, order)))
    requires s.nextToken in Apply(env, s, Accept(t, order)).net && s.nextToken !in s.net
    ensures var s' := Apply(env, s, Accept(t, order)); Hopeless(env, s', s'.net[s.nextToken])
  {
    hide Apply, Enabled, Mute, Frame.Decode, Frame.Encoded, IsHeartbeat, Echo, Deaf;
    AcceptNetIs(env, s, t, order);
  }

  /** Of a request without an answer in the limit nothing comes that can be decoded. */
  lemma RespondHopeless(env: Env, s: State, t: nat, world: World, order: seq<Bytes>)
    requires LawfulEnv(env) && NetOk(env, s)
    requires Enabled(env, s, Respond(t, world, order)) && t in s.net && Hopeless(env, s, s.net[t])
    requires SameEars(s, Apply(env, s, Respond(t, world, order)))
    requires s.nextToken in Apply(env, s, Respond(t, world, order)).net && s.nextToken !in s.net
    ensures var s' := Apply(env, s, Respond(t, world, order)); Hopeless(env, s', s'.net[s.nextToken])
  {
    hide Apply, Enabled, Frame.Decode, Frame.Encoded, Deaf, Response, Possible, Admitted, NetOk;
    RespondNetIs(env, s, t, world, order);
    HandlerMagic(env, s, t, world);
    hide Framed;
    var m := Response(env, s.net[t].req, world).value;
    AdmittedExactly(env, m, order, None);
  }

  /** A handler's response has the magic byte of its request. */
  lemma HandlerMagic(env: Env, s: State, t: nat, world: World)
    requires NetOk(env, s) && t in s.net && s.net[t].Handling?
    ensures var m := Response(env, s.net[t].req, world); m.Some? ==> m.value.header[0] == MAGIC
  {
    hide RequestAtServer, HandleRequest, Known;
    NetFlight(env, s, t);
    var f := s.net[t];
    RequestAtServerFields(env, CallOf(s, f), f.origin);
    HandledMagic(env, f.req, world);
  }

  lemma FlightToken(env: Env, s: State)
    requires NetOk(env, s)
    ensures s.nextToken !in s.net
  {
    hide FlightOk;
  }

  lemma CarriageLost(env: Env, s: State, step: Step, k: nat)
    requires LawfulEnv(env) && Balanced(BookOf(s)) && NetOk(env, s) && Dialled(s) && Lost(env, s, k)
    requires Enabled(env, s, step) && Carriage(step)
    ensures Lost(env, Apply(env, s, step), k)
  {
    hide Balanced, SeqNo, Hopeless, Known, Apply, Enabled, Fades, SameEars, Lost, NetOk, Dialled;
    var s' := Apply(env, s, step);
    LostParts(env, s, k);
    CarriageState(env, s, step);
    CarriageEars(env, s, step);
    EarsFade(s, s');
    FewerSenders(s, s', k);
    SameBook(s, s');
    FlightToken(env, s);
    forall t | t in s'.net && s'.net[t].origin == k
      ensures (t in s.net && s'.net[t] == s.net[t]) || Hopeless(env, s', s'.net[t])
    {
      if !(t in s.net && s'.net[t] == s.net[t]) {
        CarriedHopeless(env, s, step, t);
      }
    }
    LostStays(env, s, s', k);
  }

  lemma CarriedHopeless(env: Env, s: State, step: Step, t: nat)
    requires LawfulEnv(env) && NetOk(env, s) && Enabled(env, s, step) && Carriage(step)
    requires SameEars(s, Apply(env, s, step))
    requires step.token in s.net && Hopeless(env, s, s.net[step.token])
    requires t in Apply(env, s, step).net && !(t in s.net && Apply(env, s, step).net[t] == s.net[t])
    ensures Hopeless(env, Apply(env, s, step), Apply(env, s, step).net[t])
  {
    hide Hopeless, Apply, Enabled, SameEars, NetOk, Frame.Decode, Frame.Encoded, IsHeartbeat, Response;
    FlightToken(env, s);
    match step {
      case Accept(u, order) =>
        AcceptNetIs(env, s, u, order);
        AcceptHopeless(env, s, u, order);
      case Respond(u, world, order) =>
        RespondNetIs(env, s, u, world, order);
        RespondHopeless(env, s, u, world, order);
      case Lose(u) =>
        LoseNetIs(env, s, u);
    }
  }

  lemma LoseNetIs(env: Env, s: State, t: nat)
    requires Enabled(env, s, Lose(t))
    ensures Apply(env, s, Lose(t)).net == s.net - {t}
  {
  }

  lemma ReadLost(env: Env, s: State, t: nat, k: nat)
    requires LawfulEnv(env) && Balanced(BookOf(s)) && NetOk(env, s) && Dialled(s) && Lost(env, s, k)
    requires Enabled(env, s, Connection.Read(t))
    ensures Lost(env, Apply(env, s, Connection.Read(t)), k)
  {
    hide Balanced, SeqNo, Known, Apply, Enabled, Fades, SameEars, Lost, NetOk, Dialled, Mute, Frame.Decode;
    hide OwnMetadata;
    var s' := Apply(env, s, Connection.Read(t));
    LostParts(env, s, k);
    ReadState(env, s, t);
    ReadEars(env, s, t);
    EarsFade(s, s');
    FewerSenders(s, s', k);
    SameBook(s, s');
    ReadNumber(env, s, t);
    MetadataLeak(env.wire, s.received, [], s.net[t].bytes);
    LostStays(env, s, s', k);
  }

  lemma TakeLost(env: Env, s: State, k: nat)
    requires Balanced(BookOf(s)) && Dialled(s) && Lost(env, s, k) && Enabled(env, s, TakeResponse)
    ensures Lost(env, Apply(env, s, TakeResponse), k)
  {
    hide Balanced, SeqNo, Known, Apply, Enabled, Fades, SameEars, Lost, Dialled, Hopeless;
    var s' := Apply(env, s, TakeResponse);
    LostParts(env, s, k);
    HandEars(env, s, TakeResponse);
    EarsFade(s, s');
    FewerSenders(s, s', k);
    HandKnown(env, s, TakeResponse);
    HandState(env, s, TakeResponse);
    TakeHolds(env, s);
    LostStays(env, s, s', k);
  }

  lemma TakeHolds(env: Env, s: State)
    requires Enabled(env, s, TakeResponse)
    ensures s.input.Got? && Apply(env, s, TakeResponse).input.Delivering?
    ensures Apply(env, s, TakeResponse).input.msg == s.input.msg
  {
    hide SeqNo;
  }

  lemma QuietLost(env: Env, s: State, step: Step, k: nat)
    requires Balanced(BookOf(s)) && Dialled(s) && Lost(env, s, k) && Enabled(env, s, step) && Quiet(step)
    ensures Lost(env, Apply(env, s, step), k)
  {
    hide Balanced, SeqNo, Known, Apply, Enabled, Fades, Lost, Dialled, Hopeless;
    var s' := Apply(env, s, step);
    LostParts(env, s, k);
    QuietKeeps(env, s, step);
    StepFades(env, s, step);
    FewerSenders(s, s', k);
    SameBook(s, s');
    LostStays(env, s, s', k);
  }

  lemma StepLost(env: Env, s: State, step: Step, k: nat)
    requires LawfulEnv(env) && Coherent(env, s) && Dialled(s) && Lost(env, s, k) && Enabled(env, s, step)
    requires Apply(env, s, step).issued < U64
    ensures Lost(env, Apply(env, s, step), k)
  {
    hide Balanced, NetOk, InputOk, UnsentPending, SeqNo, Request, TakeAndFinish, Framed, Frame.Encoded, Frame.Decode;
    hide Response, Possible, OutcomeOf, ShutdownAll, IsHeartbeat, Lost, Dialled;
    match step
    case Send(call, now) => SendLost(env, s, call, now, k);
    case EncodeFail(j) => FinishLost(env, s, j, NotEncoded, k);
    case WriteFail(j) => FinishLost(env, s, j, NotWritten, k);
    case WriteOk(j) => WriteOkLost(env, s, j, k);
    case Leave(j, order) => LeaveLost(env, s, j, order, k);
    case Read(t) => ReadLost(env, s, t, k);
    case TakeResponse => TakeLost(env, s, k);
    case Lose(_) => CarriageLost(env, s, step, k);
    case Accept(_, _) => CarriageLost(env, s, step, k);
    case Respond(_, _, _) => CarriageLost(env, s, step, k);
    case _ => QuietLost(env, s, step, k);
  }

  // What callers are told.

  /** The caller has been told of a response. */
  predicate Informed(s: State, id: nat) {
    exists c :: c in s.completions && c.call == id && !Silent(c.outcome)
  }

  lemma DeliverInforms(env: Env, s: State, id: nat)
    requires Enabled(env, s, Deliver) && Informed(Apply(env, s, Deliver), id) && s.input.call != Some(id)
    ensures Informed(s, id)
  {
    hide OutcomeOf, IsHeartbeat, Silent;
  }

  lemma SilentlyInforms(s: State, s': State, id: nat)
    requires Silently(s, s') && Informed(s', id)
    ensures Informed(s, id)
  {
    hide Silent;
  }

  /** A response in hand for another number belongs to another call. */
  lemma AnotherCall(env: Env, s: State, k: nat)
    requires Balanced(BookOf(s)) && InputOk(env, s) && s.input.Delivering?
    requires k in Known(s) && SeqNo(s.input.msg.header) != k
    ensures s.input.call != Some(Known(s)[k])
  {
    hide SeqNo, ReadLast, KeysBalanced, SendersKnown, Waits;
  }

  lemma StepInformed(env: Env, s: State, step: Step, k: nat)
    requires Balanced(BookOf(s)) && InputOk(env, s) && Lost(env, s, k) && Enabled(env, s, step)
    requires Informed(Apply(env, s, step), Known(s)[k])
    ensures Informed(s, Known(s)[k])
  {
    hide Apply, Enabled, Lost, Balanced, InputOk, Known, OutOfHand, Informed, Silently;
    LostParts(env, s, k);
    if step.Deliver? {
      DeliversElse(env, s, k);
      DeliverInforms(env, s, Known(s)[k]);
    } else {
      SilentCompletions(env, s, step);
      SilentlyInforms(s, Apply(env, s, step), Known(s)[k]);
    }
  }

  lemma DeliversElse(env: Env, s: State, k: nat)
    requires Balanced(BookOf(s)) && InputOk(env, s) && OutOfHand(s, k) && k in Known(s) && Enabled(env, s, Deliver)
    ensures s.input.Delivering? && s.input.call != Some(Known(s)[k])
  {
    hide Enabled, Balanced, InputOk, Known, SeqNo;
    HasHand(env, s);
    AnotherCall(env, s, k);
  }

  lemma HasHand(env: Env, s: State)
    requires Enabled(env, s, Deliver)
    ensures s.input.Delivering?
  {
  }

  /** Registrations are for ever. */
  lemma StepKnown(env: Env, s: State, step: Step, k: nat)
    requires Balanced(BookOf(s)) && k in Known(s) && Enabled(env, s, step) && Apply(env, s, step).issued < U64
    ensures k in Known(Apply(env, s, step)) && Known(Apply(env, s, step))[k] == Known(s)[k]
  {
    hide Balanced, Known, Apply, Enabled, TakeAndFinish;
    var s' := Apply(env, s, step);
    match step
    case Send(call, now) => SendAdds(env, s, call, now);
    case EncodeFail(j) => FinishKnown(env, s, step, j, NotEncoded, k);
    case WriteFail(j) => FinishKnown(env, s, step, j, NotWritten, k);
    case TakeResponse => HandKnown(env, s, step);
    case WriteOk(_) => SenderBalanced(env, s, step); KnownIs(s, s');
    case Leave(_, _) => SenderBalanced(env, s, step); KnownIs(s, s');
    case _ => BookKept(env, s, step); SameBook(s, s');
  }

  lemma FinishKnown(env: Env, s: State, step: Step, j: nat, outcome: Ending, k: nat)
    requires Balanced(BookOf(s)) && k in Known(s) && Enabled(env, s, step)
    requires (step == EncodeFail(j) && outcome == NotEncoded) || (step == WriteFail(j) && outcome == NotWritten)
    ensures k in Known(Apply(env, s, step)) && Known(Apply(env, s, step))[k] == Known(s)[k]
  {
    hide Balanced, Known, Request, TakeAndFinish;
    FinishLoosens(s, j, outcome);
  }

  /** The call is still lost, and its caller has been told of nothing new. */
  ghost predicate StillLost(env: Env, s: State, s': State, k: nat) {
    && Dialled(s') && Lost(env, s', k) && k in Known(s) && k in Known(s') && Known(s')[k] == Known(s)[k]
    && (Informed(s', Known(s)[k]) ==> Informed(s, Known(s)[k]))
  }

  lemma LostFrom(env: Env, s: State, k: nat)
    requires Dialled(s) && Lost(env, s, k)
    ensures StillLost(env, s, s, k)
  {
    hide Dialled, Lost, Known, Informed;
    LostParts(env, s, k);
  }

  lemma LostGoesOn(env: Env, s0: State, s: State, step: Step, k: nat)
    requires LawfulEnv(env) && Coherent(env, s) && StillLost(env, s0, s, k) && Enabled(env, s, step)
    requires Apply(env, s, step).issued < U64
    ensures StillLost(env, s0, Apply(env, s, step), k)
  {
    hide Apply, Enabled, Balanced, NetOk, InputOk, UnsentPending, Dialled, Lost, Known, Informed;
    StepFades(env, s, step);
    StepLost(env, s, step, k);
    StepKnown(env, s, step, k);
    if Informed(Apply(env, s, step), Known(s)[k]) {
      StepInformed(env, s, step, k);
    }
  }

  /**
   * Once nothing on the way can lead to a response for a call, no continuation ever tells its caller of one.
   */
  lemma {:induction false} NeverInformed(env: Env, s: State, k: nat, states: seq<State>, steps: seq<Step>, i: nat)
    requires LawfulEnv(env) && Coherent(env, s) && Dialled(s) && Lost(env, s, k)
    requires Path(env, s, states, steps) && states[|steps|].issued < U64 && i <= |steps|
    ensures StillLost(env, s, states[i], k)
  {
    hide Apply, Enabled, Coherent, Dialled, Lost, StillLost, LawfulEnv;
    if i == 0 {
      LostFrom(env, s, k);
    } else {
      NeverInformed(env, s, k, states, steps, i - 1);
      PathCoherent(env, s, states, steps, i - 1);
      IssuedGrows(env, s, states, steps, i, |steps|);
      LostGoesOn(env, s, states[i - 1], steps[i - 1], k);
    }
  }

  // Calls whose send has ended.

  /** The call is lost, pending, and no longer being sent. */
  ghost predicate Forgotten(env: Env, s: State, k: nat) {
    Lost(env, s, k) && k in s.client.pending && k !in s.senders
  }

  /** Only its own send and its own response take an entry. */
  lemma StepPending(env: Env, s: State, step: Step, k: nat)
    requires Balanced(BookOf(s)) && k in s.client.pending && k !in s.senders && OutOfHand(s, k)
    requires Enabled(env, s, step) && Apply(env, s, step).issued < U64
    ensures k in Apply(env, s, step).client.pending && k !in Apply(env, s, step).senders
  {
    hide Balanced, Apply, Enabled, SeqNo;
    if KeepsBook(step) {
      BookKept(env, s, step);
    } else if step.TakeResponse? {
      HandState(env, s, step);
    } else {
      SenderPending(env, s, step, k);
    }
  }

  lemma SenderPending(env: Env, s: State, step: Step, k: nat)
    requires Balanced(BookOf(s)) && k in s.client.pending && k !in s.senders
    requires Enabled(env, s, step) && Apply(env, s, step).issued < U64 && !KeepsBook(step) && !step.TakeResponse?
    ensures k in Apply(env, s, step).client.pending && k !in Apply(env, s, step).senders
  {
    hide Balanced, Apply, Enabled;
    match step
    case Send(call, now) => SendPending(env, s, call, now, k);
    case EncodeFail(j) => FinishPending(env, s, step, j, k);
    case WriteFail(j) => FinishPending(env, s, step, j, k);
    case WriteOk(j) => WriteOkPending(env, s, j, k);
    case Leave(j, order) => LeavePending(env, s, j, order, k);
  }

  lemma SendPending(env: Env, s: State, call: Call, now: int, k: nat)
    requires Balanced(BookOf(s)) && k in s.client.pending && k !in s.senders
    requires Enabled(env, s, Send(call, now)) && Apply(env, s, Send(call, now)).issued < U64
    ensures k in Apply(env, s, Send(call, now)).client.pending && k !in Apply(env, s, Send(call, now)).senders
  {
    hide Balanced;
    KnownKey(s, k);
    SeqBalanced(BookOf(s));
    hide Registered;
  }

  lemma FinishPending(env: Env, s: State, step: Step, j: nat, k: nat)
    requires k in s.client.pending && k !in s.senders && Enabled(env, s, step)
    requires step == EncodeFail(j) || step == WriteFail(j)
    ensures k in Apply(env, s, step).client.pending && k !in Apply(env, s, step).senders
  {
    hide Request, TakeAndFinish;
    assert j in s.senders;
    TakeKeepsOthers(s, j, NotEncoded, k);
    TakeKeepsOthers(s, j, NotWritten, k);
  }

  lemma TakeKeepsOthers(s: State, j: nat, outcome: Ending, k: nat)
    requires k in s.client.pending && k != j
    ensures var s' := TakeAndFinish(s, j, outcome);
            k in s'.client.pending && s'.senders == s.senders - {j}
  {
  }

  lemma WriteOkPending(env: Env, s: State, j: nat, k: nat)
    requires k in s.client.pending && k !in s.senders && Enabled(env, s, WriteOk(j))
    ensures k in Apply(env, s, WriteOk(j)).client.pending && k !in Apply(env, s, WriteOk(j)).senders
  {
  }

  lemma LeavePending(env: Env, s: State, j: nat, order: seq<Bytes>, k: nat)
    requires k in s.client.pending && k !in s.senders && Enabled(env, s, Leave(j, order))
    ensures k in Apply(env, s, Leave(j, order)).client.pending && k !in Apply(env, s, Leave(j, order)).senders
  {
    hide Request, Frame.Encoded, Framed;
  }

  /** A forgotten call stays pending. */
  lemma {:induction false} StaysForgotten(env: Env, s: State, k: nat, states: seq<State>, steps: seq<Step>, i: nat)
    requires LawfulEnv(env) && Coherent(env, s) && Dialled(s) && Forgotten(env, s, k)
    requires Path(env, s, states, steps) && states[|steps|].issued < U64 && i <= |steps|
    ensures Forgotten(env, states[i], k)
  {
    hide Apply, Enabled, Coherent, Dialled, Lost, OutOfHand, StillLost, Balanced, LawfulEnv;
    if i > 0 {
      StaysForgotten(env, s, k, states, steps, i - 1);
      NeverInformed(env, s, k, states, steps, i);
      PathCoherent(env, s, states, steps, i - 1);
      IssuedGrows(env, s, states, steps, i, |steps|);
      ForgottenStep(env, states[i - 1], steps[i - 1], k);
      assert Lost(env, states[i], k) by { StillLostParts(env, s, states[i], k); }
    }
  }

  lemma StillLostParts(env: Env, s: State, s': State, k: nat)
    requires StillLost(env, s, s', k)
    ensures Lost(env, s', k) && k in Known(s) && k in Known(s') && Known(s')[k] == Known(s)[k]
    ensures Informed(s', Known(s)[k]) ==> Informed(s, Known(s)[k])
  {
    hide Lost, Known, Informed;
  }

  lemma ForgottenStep(env: Env, s: State, step: Step, k: nat)
    requires Coherent(env, s) && Forgotten(env, s, k) && Enabled(env, s, step) && Apply(env, s, step).issued < U64
    ensures k in Apply(env, s, step).client.pending && k !in Apply(env, s, step).senders
  {
    hide Apply, Enabled, Coherent, Lost, OutOfHand, Balanced, Known;
    LostParts(env, s, k);
    CoherentBalanced(env, s);
    StepPending(env, s, step, k);
  }

  lemma CoherentBalanced(env: Env, s: State)
    requires Coherent(env, s)
    ensures Balanced(BookOf(s))
  {
    hide Balanced;
  }

  /**
   * Once a call is forgotten, no continuation of the run completes it with anything but ErrShutdown: no reply, no
   * error and no failed write ever reaches its caller.
   */
  lemma NeverAnswered(env: Env, states: seq<State>, steps: seq<Step>, i: nat, j: nat, k: nat)
    requires LawfulEnv(env) && ShortRun(env, states, steps) && i <= j <= |steps| && Forgotten(env, states[i], k)
    ensures Forgotten(env, states[j], k) && states[j].client.pending[k] == states[i].client.pending[k]
    ensures !Concluded(states[j], states[i].client.pending[k])
  {
    hide Apply, Enabled, Coherent, Counted, Concluded, Balanced, Lost, Known, Dialled;
    RunCoherent(env, states, steps, i);
    RunDialled(env, states, steps, i);
    RunBalanced(env, states, steps, i);
    RunBalanced(env, states, steps, j);
    RunCounted(env, states, steps, j);
    var rest, more := states[i..], steps[i..];
    StaysForgotten(env, states[i], k, rest, more, j - i);
    NeverInformed(env, states[i], k, rest, more, j - i);
    PendingKnown(states[i], k);
    PendingKnown(states[j], k);
    PendingUnanswered(states[j], k);
  }

  lemma PendingKnown(s: State, k: nat)
    requires Balanced(BookOf(s)) && k in s.client.pending
    ensures k in Known(s) && Known(s)[k] == s.client.pending[k]
  {
    hide Balanced;
    KnownKey(s, k);
  }

  // What loses calls.

  /** The steps at which a frame, a handler or a response ends without anything in its place. */
  ghost predicate Drops(env: Env, s: State, step: Step) {
    match step
    case Lose(t) => true
    case Accept(t, _) => t in s.net && s.net[t].ToServer? && !Frame.Decode(env.wire, None, [], s.net[t].bytes).Ok?
    case Respond(t, world, _) =>
      t in s.net && s.net[t].Handling? && (Response(env, s.net[t].req, world) == None || s.net[t].conn in s.goneConns)
    case _ => false
  }

  lemma DropState(env: Env, s: State, step: Step)
    requires Enabled(env, s, step) && Drops(env, s, step)
    ensures Carriage(step) && step.token in s.net
    ensures var s' := Apply(env, s, step);
            && s'.net == s.net - {step.token} && s'.client == s.client && s'.senders == s.senders && s'.input == s.input
            && BookOf(s') == BookOf(s) && s'.completions == s.completions
  {
    hide Frame.Decode, Frame.Encoded, Response, Possible, Framed, IsHeartbeat;
  }

  /** A number on its way is registered, its frame has left, and no response for it is in hand. */
  lemma OnTheWay(env: Env, s: State, t: nat)
    requires NetOk(env, s) && InputOk(env, s) && t in s.net
    ensures var k := s.net[t].origin; k in Known(s) && !Waits(s.senders, k) && OutOfHand(s, k)
    ensures forall u | u in s.net && u != t :: s.net[u].origin != s.net[t].origin
  {
    hide Carries, SeqNo, Registered, ReadLast;
    NetFlight(env, s, t);
    AloneInNet(env, s, t);
  }

  /** Whatever drops the frame, the handler or the response of a call loses it. */
  lemma DropLoses(env: Env, s: State, step: Step)
    requires Coherent(env, s) && Enabled(env, s, step) && Drops(env, s, step)
    ensures Carriage(step) && step.token in s.net && Lost(env, Apply(env, s, step), s.net[step.token].origin)
  {
    hide Apply, Enabled, Drops, OutOfHand, Known, Waits, Lost, NetOk, InputOk, Balanced, UnsentPending;
    DropState(env, s, step);
    OnTheWay(env, s, step.token);
    SameBook(s, Apply(env, s, step));
    SameHand(s, Apply(env, s, step), s.net[step.token].origin);
    NowLost(env, Apply(env, s, step), s.net[step.token].origin);
  }

  lemma SameHand(s: State, s': State, k: nat)
    requires s'.input == s.input && OutOfHand(s, k)
    ensures OutOfHand(s', k)
  {
    hide SeqNo;
  }

  lemma NowLost(env: Env, s: State, k: nat)
    requires k in Known(s) && !Waits(s.senders, k) && OutOfHand(s, k)
    requires forall t | t in s.net :: s.net[t].origin != k
    ensures Lost(env, s, k)
  {
    hide Known, OutOfHand;
  }

  /**
   * So no continuation tells the caller of a response, and if the send of the pending call has ended, nothing but a
   * close ever completes it.
   */
  lemma DroppedForEver(env: Env, states: seq<State>, steps: seq<Step>, i: nat, j: nat)
    requires LawfulEnv(env) && ShortRun(env, states, steps) && i < j <= |steps| && Drops(env, states[i], steps[i])
    ensures var k := states[i].net[steps[i].token].origin;
            && k in Known(states[i])
            && var id := Known(states[i])[k];
               && (Informed(states[j], id) ==> Informed(states[i], id))
               && (k in states[i].client.pending && k !in states[i].senders ==> !Concluded(states[j], id))
  {
    hide Apply, Enabled, Drops, Concluded, Coherent, Balanced, Lost, Known, Informed, Dialled;
    var s, s1 := states[i], states[i + 1];
    DropState(env, s, steps[i]);
    var k := s.net[steps[i].token].origin;
    RunCoherent(env, states, steps, i);
    RunCoherent(env, states, steps, i + 1);
    RunDialled(env, states, steps, i + 1);
    DropLoses(env, s, steps[i]);
    SameBook(s, s1);
    NeverInformed(env, s1, k, states[i + 1..], steps[i + 1..], j - i - 1);
    SameInformed(s, s1, Known(s)[k]);
    if k in s.client.pending && k !in s.senders {
      CoherentBalanced(env, s);
      PendingKnown(s, k);
      NeverAnswered(env, states, steps, i + 1, j, k);
    }
  }

  lemma SameInformed(s: State, s': State, id: nat)
    requires s'.completions == s.completions
    ensures Informed(s', id) <==> Informed(s, id)
  {
  }

  /** Some continuation with fewer than 2^64 calls completes the call with anything but ErrShutdown. */
  ghost predicate CanEnd(env: Env, s: State, id: nat) {
    exists states: seq<State>, steps: seq<Step> ::
      Path(env, s, states, steps) && states[|steps|].issued < U64 && Concluded(states[|steps|], id)
  }

  /** A new connection loses every call that is pending. */
  lemma RedialLoses(env: Env, s: State, k: nat)
    requires Coherent(env, s) && Dialled(s) && Enabled(env, s, Redialled) && k in s.client.pending
    ensures Lost(env, Apply(env, s, Redialled), k)
  {
    hide Coherent, Known, Apply, Dead, Dialled, Lost, Balanced, Enabled;
    CoherentBalanced(env, s);
    RedialFades(env, s);
    PendingKnown(s, k);
    SameBook(s, Apply(env, s, Redialled));
    AllDead(env, s, Apply(env, s, Redialled), k);
  }

  lemma AllDead(env: Env, s: State, s': State, k: nat)
    requires k in Known(s') && Dialled(s) && s'.net == s.net && s'.senders == s.senders && s'.input.Reading?
    requires forall conn: nat | conn < s.nextConn :: Dead(s', conn)
    ensures Lost(env, s', k)
  {
    hide Known, Dead, Mute, Frame.Decode, Request, Framed, Frame.Encoded;
  }

  /** After a run that forgets the call nothing but a close completes it. */
  lemma NeverEnds(env: Env, states: seq<State>, steps: seq<Step>, k: nat)
    requires LawfulEnv(env) && ShortRun(env, states, steps) && Forgotten(env, states[|steps|], k)
    ensures !CanEnd(env, states[|steps|], states[|steps|].client.pending[k])
  {
    hide Apply, Enabled, Lost, Concluded;
    var s, n := states[|steps|], |steps|;
    forall more: seq<State>, further: seq<Step> | Path(env, s, more, further) && more[|further|].issued < U64
      ensures !Concluded(more[|further|], s.client.pending[k])
    {
      PathAppend(env, START, states, steps, more, further);
      NeverAnswered(env, states + more[1..], steps + further, n, n + |further|, k);
    }
  }

  lemma SendCanEnd(env: Env, s: State, k: nat)
    requires s.crashed == None && MutexFree(s) && k in s.senders && k in s.client.pending && s.issued < U64
    ensures CanEnd(env, s, s.client.pending[k])
  {
    hide Request, TakeAndFinish, Concluded;
    var id := s.client.pending[k];
    if Unsent(s, k) && RequestOf(env, s, k) == None {
      FinishAnswers(s, k, NotEncoded);
      FinishKeepsMode(s, k, NotEncoded);
      EndsAt(env, s, EncodeFail(k), id);
    } else {
      FinishAnswers(s, k, NotWritten);
      FinishKeepsMode(s, k, NotWritten);
      EndsAt(env, s, WriteFail(k), id);
    }
  }

  lemma EndsAt(env: Env, s: State, step: Step, id: nat)
    requires Enabled(env, s, step) && Concluded(Apply(env, s, step), id) && Apply(env, s, step).issued < U64
    ensures CanEnd(env, s, id)
  {
    hide Apply, Enabled, Concluded;
    StepPath(env, s, step);
    var states, steps := [s, Apply(env, s, step)], [step];
    assert Path(env, s, states, steps) && Concluded(states[|steps|], id);
  }

  /**
   * A reconnect loses the responses of all calls that are pending then: no continuation tells any of their callers of
   * one, and exactly those whose send has not ended can still be completed by something else than a close.
   */
  lemma RedialledExactly(env: Env, states: seq<State>, steps: seq<Step>, k: nat)
    requires LawfulEnv(env) && ShortRun(env, states, steps)
    requires Enabled(env, states[|steps|], Redialled) && k in states[|steps|].client.pending
    ensures var s := states[|steps|];
            var s' := Apply(env, s, Redialled);
            && Coherent(env, s') && Dialled(s') && Lost(env, s', k) && s'.client.pending == s.client.pending
            && (CanEnd(env, s', s.client.pending[k]) <==> k in s.senders)
  {
    hide Apply, Enabled, Coherent, Dialled, Lost, CanEnd, MutexFree;
    var s := states[|steps|];
    var s' := Apply(env, s, Redialled);
    RunCoherent(env, states, steps, |steps|);
    RunDialled(env, states, steps, |steps|);
    RedialFades(env, s);
    RedialLoses(env, s, k);
    StepFades(env, s, Redialled);
    StepCoherent(env, s, Redialled);
    if k in s.senders {
      assert MutexFree(s') by { ReadingFree(s'); }
      SendCanEnd(env, s', k);
    } else {
      StepPath(env, s, Redialled);
      PathAppend(env, START, states, steps, [s, s'], [Redialled]);
      NeverEnds(env, states + [s, s'][1..], steps + [Redialled], k);
    }
  }

  lemma ReadingFree(s: State)
    requires s.input.Reading?
    ensures MutexFree(s)
  {
  }
}
