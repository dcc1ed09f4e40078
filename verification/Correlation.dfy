/** Every reply comes from its own call, in every run; and what can be said of the numbers on their way. */
module Correlation {
  import opened Bytes
  import MetadataCodec
  import Frame
  import FrameLaws
  import opened Header
  import opened Server
  import opened Transitions
  import opened Connection
  import opened Exchange
  import opened Ledger
  import opened InFlight

  lemma {:induction false} PathCoherent(env: Env, s: State, states: seq<State>, steps: seq<Step>, i: nat)
    requires LawfulEnv(env) && Coherent(env, s) && Path(env, s, states, steps) && states[|steps|].issued < U64
    requires i <= |steps|
    ensures Coherent(env, states[i])
  {
    hide Coherent, Apply, Enabled;
    if i > 0 {
      PathCoherent(env, s, states, steps, i - 1);
      IssuedGrows(env, s, states, steps, i, |steps|);
      StepCoherent(env, states[i - 1], steps[i - 1]);
    }
  }

  lemma RunCoherent(env: Env, states: seq<State>, steps: seq<Step>, i: nat)
    requires LawfulEnv(env) && ShortRun(env, states, steps) && i <= |steps|
    ensures Coherent(env, states[i])
  {
    StartCoherent(env);
    hide Coherent;
    PathCoherent(env, START, states, steps, i);
  }

  /** A response read for a call is marked as one, and names the call's own path and method. */
  lemma ReadIsMarked(env: Env, call: Call, k: nat, prior: Option<MetadataCodec.Metadata>, msg: Frame.Msg)
    requires LawfulEnv(env) && k < U64 && ReplyRead(env, call, k, prior, msg)
    ensures MessageType(msg.header) == 1 && StatusType(msg.header) == 0
    ensures msg.path == call.path && msg.method_ == call.method_
  {
    hide SeqNo, IsHeartbeat, StatusType, SerializeType, IsOneway, CompressType, MessageType, ReplyMsg, Frame.Compressed;
    hide AnsweredAs;
    var m :| ReplyMsg(env, call, k, m) && msg == FrameLaws.Received(env.wire, m, prior);
    ReplyIsGenuine(env, call, k, m);
    CompressedHeader(env.wire, m.header, m.payload);
    ResponseFlag(m.header);
    ResponseFlag(msg.header);
  }

  /** In every run, whatever the client has in hand is marked as a response to the call of its number. */
  lemma MarkedResponses(env: Env, states: seq<State>, steps: seq<Step>, i: nat)
    requires LawfulEnv(env) && ShortRun(env, states, steps) && i <= |steps|
    requires states[i].input.Got? || states[i].input.Delivering?
    ensures var s, msg := states[i], states[i].input.msg;
            && SeqNo(msg.header) in Known(s) && Known(s)[SeqNo(msg.header)] < |s.calls|
            && var call := s.calls[Known(s)[SeqNo(msg.header)]];
               && MessageType(msg.header) == 1 && StatusType(msg.header) == 0
               && msg.path == call.path && msg.method_ == call.method_
  {
    RunCoherent(env, states, steps, i);
    hide Balanced, NetOk, SeqNo, MessageType, StatusType, ReplyRead, LastSome, Known, UnsentPending, Waits;
    var s, msg := states[i], states[i].input.msg;
    assert Arrived(env, s, msg);
    ReadIsMarked(env, s.calls[Known(s)[SeqNo(msg.header)]], SeqNo(msg.header), LastSome(s.heard[..|s.heard| - 1]), msg);
  }

  /** The sequence number in a message that arrives, or that a handler holds. */
  function SeqIn(env: Env, f: Flight, prior: Option<MetadataCodec.Metadata>): Option<nat> {
    match f
    case Handling(_, req, _) => Some(SeqNo(req.header))
    case _ =>
      var r := Frame.Decode(env.wire, prior, [], f.bytes);
      if r.Ok? then Some(SeqNo(r.msg.header)) else None
  }

  lemma FlightSeq(env: Env, call: Call, f: Flight, prior: Option<MetadataCodec.Metadata>)
    requires LawfulEnv(env) && f.origin < U64 && Carries(env, call, f) && (f.ToServer? ==> prior == None)
    ensures SeqIn(env, f, prior) in {None, Some(f.origin)}
  {
    hide Frame.Decode, SeqNo, RequestFrame, ReplyFrame, RequestAtServer, Request;
    match f
    case ToServer(_, bytes, k) =>
      ReadRequest(env, call, k, bytes);
      assert Request(env, call, k).Some? by { FrameRequest(env, call, k, bytes); }
      RequestAtServerFields(env, call, k);
    case Handling(_, req, k) =>
      RequestAtServerFields(env, call, k);
    case ToClient(_, bytes, k) =>
      ReadReply(env, call, k, bytes, prior);
  }

  lemma FrameRequest(env: Env, call: Call, k: nat, bytes: Bytes)
    requires RequestFrame(env, call, k, bytes)
    ensures Request(env, call, k).Some?
  {
  }

  /** The number under which a frame was sent is the one its bytes carry. */
  lemma OriginIsSeq(env: Env, states: seq<State>, steps: seq<Step>, i: nat, t: nat)
    requires LawfulEnv(env) && ShortRun(env, states, steps) && i <= |steps| && t in states[i].net
    ensures var f := states[i].net[t];
            SeqIn(env, f, if f.ToServer? then None else states[i].received) in {None, Some(f.origin)}
  {
    RunCoherent(env, states, steps, i);
    hide SeqIn, Carries, InputOk, Balanced, Known;
    var f := states[i].net[t];
    NetFlight(env, states[i], t);
    FlightSeq(env, CallOf(states[i], f), f, if f.ToServer? then None else states[i].received);
  }

  // The main theorem.

  /** The metadata left by the responses read before the last of the first `at`. */
  function LeftBefore(heard: seq<Option<MetadataCodec.Metadata>>, at: nat): Option<MetadataCodec.Metadata>
    requires at <= |heard|
  {
    if at == 0 then None else LastSome(heard[..at - 1])
  }

  ghost predicate JustifiedAt(env: Env, s: State, c: Completion) {
    && c.call < |s.calls| && c.at <= |s.heard|
    && Justified(env, s.calls[c.call], LeftBefore(s.heard, c.at), c.outcome)
  }

  ghost predicate AllJustified(env: Env, s: State) {
    forall c | c in s.completions :: JustifiedAt(env, s, c)
  }

  /** What has been justified stays so. */
  lemma JustifiedStays(env: Env, s: State, s': State)
    requires AllJustified(env, s) && s.calls <= s'.calls && s.heard <= s'.heard
    ensures forall c | c in s.completions :: JustifiedAt(env, s', c)
  {
    hide Justified, LastSome;
    forall c | c in s.completions
      ensures JustifiedAt(env, s', c)
    {
      assert JustifiedAt(env, s, c);
      if c.at > 0 {
        assert s'.heard[..c.at - 1] == s.heard[..c.at - 1];
      }
    }
  }

  /** The outcomes that say nothing of a reply. */
  predicate Silent(outcome: Ending) { outcome in {WasShutdown, NotEncoded, NotWritten} }

  lemma SilentJustified(env: Env, s: State, c: Completion)
    requires Silent(c.outcome) && c.call < |s.calls| && c.at <= |s.heard|
    ensures JustifiedAt(env, s, c)
  {
  }

  lemma DeliverJustified(env: Env, s: State)
    requires LawfulEnv(env) && Coherent(env, s) && AllJustified(env, s) && Enabled(env, s, Deliver)
    ensures AllJustified(env, Apply(env, s, Deliver))
  {
    hide Balanced, NetOk, JustifiedAt, OutcomeOf, SeqNo, IsHeartbeat, ReplyRead, LastSome, Registered;
    var s' := Apply(env, s, Deliver);
    JustifiedStays(env, s, s');
    if s.input.call.Some? {
      var c := s'.completions[|s.completions|];
      assert JustifiedAt(env, s', c) by {
        ReplyJustified(env, s, c);
        SameJustified(env, s, s', c);
      }
    }
  }

  lemma SameJustified(env: Env, s: State, s': State, c: Completion)
    requires JustifiedAt(env, s, c) && s'.calls == s.calls && s'.heard == s.heard
    ensures JustifiedAt(env, s', c)
  {
    hide Justified, LastSome;
  }

  lemma ReplyJustified(env: Env, s: State, c: Completion)
    requires LawfulEnv(env) && Coherent(env, s) && s.input.Delivering? && s.input.call == Some(c.call)
    requires c.at == |s.heard| && c.call < |s.calls|
    requires c.outcome == if IsHeartbeat(s.input.msg.header) then HeartbeatOk
                          else OutcomeOf(env, s.calls[c.call].want, s.input.msg)
    ensures JustifiedAt(env, s, c)
  {
    hide Balanced, NetOk, OutcomeOf, SeqNo, IsHeartbeat, ReplyRead, LastSome, Told, Registered;
    var k := SeqNo(s.input.msg.header);
    KnownKey(s, k);
    OutcomeJustified(env, s.calls[c.call], k, LeftBefore(s.heard, c.at), s.input.msg);
  }

  lemma {:induction false} ShutdownOnly(keys: seq<nat>, pending: map<nat, nat>, at: nat)
    requires forall k | k in keys :: k in pending
    ensures forall c | c in ShutdownAll(keys, pending, at) ::
              c.outcome == WasShutdown && c.call in pending.Values && c.at == at
  {
    if keys != [] {
      assert pending[keys[0]] in pending.Values;
      ShutdownOnly(keys[1..], pending, at);
    }
  }

  /** Nothing but silent completions has been added. */
  ghost predicate Silently(s: State, s': State) {
    && s.calls <= s'.calls && s.heard <= s'.heard && s.completions <= s'.completions
    && forall c | c in s'.completions ::
         c in s.completions || (Silent(c.outcome) && c.call < |s'.calls| && c.at <= |s'.heard|)
  }

  lemma SendSilently(env: Env, s: State, call: Call, now: int)
    requires Enabled(env, s, Send(call, now))
    ensures Silently(s, Apply(env, s, Send(call, now)))
  {
  }

  lemma ReadSilently(env: Env, s: State, t: nat)
    requires Enabled(env, s, Connection.Read(t))
    ensures Silently(s, Apply(env, s, Connection.Read(t)))
  {
    hide Frame.Decode, OwnMetadata;
  }

  /** The steps that complete nothing. */
  lemma NothingSilently(env: Env, s: State, step: Step)
    requires Enabled(env, s, step) && !step.Deliver? && !step.Send? && !step.Read? && !step.CloseCall?
    requires !step.EncodeFail? && !step.WriteFail?
    ensures Silently(s, Apply(env, s, step))
  {
    hide Request, Response, Possible, Frame.Decode, Frame.Encoded, ShutdownAll, SeqNo, OwnMetadata, IsHeartbeat, Framed;
    hide Silent, TakeAndFinish;
    var s' := Apply(env, s, step);
    assert s'.calls == s.calls && s'.heard == s.heard && s'.completions == s.completions;
  }

  /** What the steps other than a delivery add to the completions. */
  lemma SilentCompletions(env: Env, s: State, step: Step)
    requires Balanced(BookOf(s)) && Enabled(env, s, step) && !step.Deliver?
    ensures Silently(s, Apply(env, s, step))
  {
    hide Balanced, Silently, Request, Response, Possible, Frame.Decode, Frame.Encoded, ShutdownAll, SeqNo, OwnMetadata;
    hide TakeAndFinish, Framed, IsHeartbeat;
    match step
    case Send(call, now) => SendSilently(env, s, call, now);
    case Read(t) => ReadSilently(env, s, t);
    case EncodeFail(k) => FinishSilently(s, k, NotEncoded);
    case WriteFail(k) => FinishSilently(s, k, NotWritten);
    case CloseCall(keys) => CloseSilently(env, s, keys);
    case _ => NothingSilently(env, s, step);
  }

  lemma FinishSilently(s: State, k: nat, outcome: Ending)
    requires Balanced(BookOf(s)) && Silent(outcome)
    ensures var s' := TakeAndFinish(s, k, outcome); Silently(s, s') && s'.calls == s.calls && s'.heard == s.heard
  {
    hide Balanced, TakeAndFinish, Silently;
    if k in s.client.pending {
      assert s.client.pending[k] < |s.calls| by { KnownKey(s, k); }
    }
    FinishAdds(s, k, outcome);
  }

  lemma FinishAdds(s: State, k: nat, outcome: Ending)
    requires Silent(outcome) && (k in s.client.pending ==> s.client.pending[k] < |s.calls|)
    ensures var s' := TakeAndFinish(s, k, outcome); Silently(s, s') && s'.calls == s.calls && s'.heard == s.heard
  {
    hide Silent;
  }

  lemma CloseSilently(env: Env, s: State, keys: seq<nat>)
    requires Balanced(BookOf(s)) && Enabled(env, s, CloseCall(keys))
    ensures Silently(s, Apply(env, s, CloseCall(keys)))
  {
    hide Balanced, ShutdownAll;
    ShutdownOnly(keys, s.client.pending, |s.heard|);
    forall k | k in s.client.pending
      ensures s.client.pending[k] < |s.calls|
    {
      KnownKey(s, k);
    }
  }

  lemma StepJustified(env: Env, s: State, step: Step)
    requires LawfulEnv(env) && Coherent(env, s) && AllJustified(env, s) && Enabled(env, s, step)
    ensures AllJustified(env, Apply(env, s, step))
  {
    if step.Deliver? {
      DeliverJustified(env, s);
    } else {
      hide JustifiedAt, Apply, Enabled, Silent, Balanced, NetOk, InputOk, UnsentPending;
      var s' := Apply(env, s, step);
      SilentCompletions(env, s, step);
      JustifiedStays(env, s, s');
      forall c | c in s'.completions && c !in s.completions
        ensures JustifiedAt(env, s', c)
      {
        SilentJustified(env, s', c);
      }
    }
  }

  /**
   * In every run with fewer than 2^64 calls, whatever is lost, reordered, or delivered by writes that fail: what a
   * caller is told of a reply is what the client makes of the answer that the method under the call's own path and
   * name gave to the call's own arguments, with the metadata that the responses before it left if it has none. Only
   * heartbeats end as heartbeats, and no caller is ever told of an error of the server.
   */
  lemma {:induction false} EndToEnd(env: Env, states: seq<State>, steps: seq<Step>, i: nat)
    requires LawfulEnv(env) && ShortRun(env, states, steps) && i <= |steps|
    ensures AllJustified(env, states[i])
  {
    if i > 0 {
      hide AllJustified, Coherent, Apply, Enabled;
      EndToEnd(env, states, steps, i - 1);
      RunCoherent(env, states, steps, i - 1);
      StepJustified(env, states[i - 1], steps[i - 1]);
    }
  }

  /** What the codec of the client makes of the encoded answer decides how the call ends. */
  ghost predicate EndsByCodec(env: Env, call: Call, data: Bytes, outcome: Ending) {
    var t := Serialization(call);
    && (outcome == NoReplyCodec <==> call.serialize == 0 && 0 !in env.clientCodecs)
    && (outcome == Undecodable <==> t in env.clientCodecs && env.clientCodecs[t].decode(call.want, data) == None)
    && (outcome.Reply? <==> t in env.clientCodecs && env.clientCodecs[t].decode(call.want, data).Some?)
  }

  /** A completion that is neither silent nor a heartbeat's is what the client makes of an answer. */
  lemma ToldInRun(env: Env, states: seq<State>, steps: seq<Step>, i: nat, c: Completion)
    requires LawfulEnv(env) && ShortRun(env, states, steps) && i <= |steps| && c in states[i].completions
    requires !Silent(c.outcome) && c.outcome != HeartbeatOk
    ensures c.call < |states[i].calls| && c.at <= |states[i].heard|
    ensures var call := states[i].calls[c.call];
            && Told(env, call, LeftBefore(states[i].heard, c.at), c.outcome)
            && (c.outcome == NoReplyCodec ==> call.serialize == 0 && 0 !in env.clientCodecs)
  {
    hide Told, LastSome;
    EndToEnd(env, states, steps, i);
    assert JustifiedAt(env, states[i], c);
  }

  /**
   * In every run, a call that is told of a response has been answered, and ends as a missing codec, an undecodable
   * payload or a reply exactly as the client's codecs decide for that answer.
   */
  lemma UnderstoodExactly(env: Env, states: seq<State>, steps: seq<Step>, i: nat, c: Completion)
    requires LawfulEnv(env) && ShortRun(env, states, steps) && i <= |steps| && c in states[i].completions
    requires !Silent(c.outcome) && c.outcome != HeartbeatOk
    ensures c.call < |states[i].calls|
    ensures var call := states[i].calls[c.call];
            exists world, reply, sent, data ::
              AnsweredAs(env, call, world, reply, sent, data) && EndsByCodec(env, call, data, c.outcome)
  {
    hide AnsweredAs, LeftBefore, LawfulEnv;
    ToldInRun(env, states, steps, i, c);
    var call, prior := states[i].calls[c.call], LeftBefore(states[i].heard, c.at);
    var world, reply, sent, data :| AnsweredAs(env, call, world, reply, sent, data)
      && c.outcome == Understood(env, call.want, Serialization(call), data, Leftover(sent, prior));
    assert call.serialize == 0 ==> Serialization(call) == 0;
    assert EndsByCodec(env, call, data, c.outcome);
  }

  /**
   * With codecs that undo each other, a call whose arguments have the method's type gets the method's own reply to
   * them, if its reply object has that type.
   */
  lemma TypedEndToEnd(env: Env, states: seq<State>, steps: seq<Step>, i: nat, c: Completion)
    requires LawfulEnv(env) && Inverses(env) && ShortRun(env, states, steps) && i <= |steps|
    requires c in states[i].completions && (c.outcome.Reply? || c.outcome.Undecodable?)
    ensures c.call < |states[i].calls| && c.at <= |states[i].heard|
    ensures var call := states[i].calls[c.call];
            && call.path in env.services && call.method_ in env.services[call.path]
            && var m := env.services[call.path][call.method_];
               call.serialize != 0 && env.shapeOf(call.args) == m.args ==>
                 exists world, reply, sent ::
                   && Conveyed(call.md, world) && m.run(world, call.args) == Replied(reply, sent)
                   && (env.shapeOf(reply) == call.want ==>
                         c.outcome == Reply(reply, Leftover(sent, LeftBefore(states[i].heard, c.at))))
  {
    hide Told, LeftBefore, Conveyed, Inverses, LawfulEnv;
    ToldInRun(env, states, steps, i, c);
    var call, prior := states[i].calls[c.call], LeftBefore(states[i].heard, c.at);
    ToldService(env, call, prior, c.outcome);
    if call.serialize != 0 && env.shapeOf(call.args) == env.services[call.path][call.method_].args {
      TypedReply(env, call, prior, c.outcome);
    }
  }

  lemma ToldService(env: Env, call: Call, prior: Option<MetadataCodec.Metadata>, outcome: Ending)
    requires Told(env, call, prior, outcome)
    ensures call.path in env.services && call.method_ in env.services[call.path]
  {
    hide Conveyed, ArgsAtServer, Understood;
  }

  // Containment.

  /** All numbers, or those of heartbeats only. */
  predicate Covered(s: State, all: bool, k: nat) {
    k in Known(s) && Known(s)[k] < |s.calls| && (all || s.calls[Known(s)[k]].heartbeat)
  }

  /** Every covered number on its way is still pending. */
  ghost predicate Held(s: State, all: bool) {
    && (forall t | t in s.net :: Covered(s, all, s.net[t].origin) ==> s.net[t].origin in s.client.pending)
    && HandHeld(s, all)
  }

  ghost predicate HandHeld(s: State, all: bool) {
    && (s.input.Got? && Covered(s, all, SeqNo(s.input.msg.header)) ==> SeqNo(s.input.msg.header) in s.client.pending)
    && (s.input.Delivering? && Covered(s, all, SeqNo(s.input.msg.header)) ==> s.input.call.Some?)
  }

  /** No write fails after its frame has left while its call is pending, as far as covered. */
  predicate Careful(s: State, step: Step, all: bool) {
    step.WriteFail? && step.k in s.senders && s.senders[step.k].left && step.k in s.client.pending ==>
      !Covered(s, all, step.k)
  }

  ghost predicate CarefulRun(states: seq<State>, steps: seq<Step>, all: bool)
    requires |states| == |steps| + 1
  {
    forall i | 0 <= i < |steps| :: Careful(states[i], steps[i], all)
  }

  /** Nothing on its way has changed, and at most `gone` is no longer pending. */
  ghost predicate Loosens(s: State, s': State, gone: nat) {
    && s'.net == s.net && s'.input == s.input && s'.calls == s.calls && Known(s') == Known(s)
    && (forall k | k in s.client.pending && k != gone :: k in s'.client.pending)
  }

  lemma HeldLoosened(s: State, s': State, gone: nat, all: bool)
    requires Held(s, all) && Loosens(s, s', gone)
    requires gone in s.client.pending && Covered(s, all, gone) ==>
               && (forall t | t in s.net :: s.net[t].origin != gone)
               && (s.input.Got? ==> SeqNo(s.input.msg.header) != gone)
    ensures Held(s', all)
  {
    hide Known, SeqNo;
  }

  lemma FinishLoosens(s: State, k: nat, outcome: Ending)
    requires Balanced(BookOf(s)) && k in s.senders
    ensures Loosens(s, TakeAndFinish(s, k, outcome), k)
  {
    hide Balanced, Registered;
    FinishBalanced(s, k, outcome);
  }

  lemma FinishHeld(env: Env, s: State, k: nat, outcome: Ending, all: bool)
    requires Coherent(env, s) && Held(s, all) && k in s.senders
    requires s.senders[k].left && k in s.client.pending ==> !Covered(s, all, k)
    ensures Held(TakeAndFinish(s, k, outcome), all)
  {
    FinishLoosens(s, k, outcome);
    if Waits(s.senders, k) {
      NoneOnTheWay(env, s, k);
      NotInHand(env, s, k);
    }
    hide Coherent, Known, SeqNo, TakeAndFinish, Loosens, Held;
    HeldLoosened(s, TakeAndFinish(s, k, outcome), k, all);
  }

  lemma NotInHand(env: Env, s: State, k: nat)
    requires InputOk(env, s) && Waits(s.senders, k)
    ensures s.input.Got? || s.input.Delivering? ==> SeqNo(s.input.msg.header) != k
  {
    hide SeqNo, ReadLast, Registered;
  }

  /** Registering one more call changes nothing for the numbers in use. */
  ghost predicate Adds(s: State, s': State) {
    && s'.net == s.net && s'.input == s.input && s.calls <= s'.calls
    && forall k | k in Known(s) ::
         && k in Known(s') && Known(s')[k] == Known(s)[k]
         && (k in s.client.pending ==> k in s'.client.pending)
  }

  lemma SendAdds(env: Env, s: State, call: Call, now: int)
    requires Balanced(BookOf(s)) && Enabled(env, s, Send(call, now))
    requires Apply(env, s, Send(call, now)).issued < U64
    ensures Adds(s, Apply(env, s, Send(call, now)))
  {
    hide Balanced, Apply, Enabled, Registered;
    SendFiles(env, s, call, now);
  }

  /** Every number on its way has been registered. */
  lemma OriginsKnown(env: Env, s: State)
    requires NetOk(env, s) && InputOk(env, s)
    ensures forall t | t in s.net :: s.net[t].origin in Known(s) && Known(s)[s.net[t].origin] < |s.calls|
    ensures s.input.Got? || s.input.Delivering? ==>
              SeqNo(s.input.msg.header) in Known(s) && Known(s)[SeqNo(s.input.msg.header)] < |s.calls|
  {
    hide Carries, SeqNo, Registered, ReadLast;
    forall t | t in s.net
      ensures s.net[t].origin in Known(s) && Known(s)[s.net[t].origin] < |s.calls|
    {
      NetFlight(env, s, t);
    }
  }

  lemma SendHeld(env: Env, s: State, call: Call, now: int, all: bool)
    requires Coherent(env, s) && Held(s, all) && Enabled(env, s, Send(call, now))
    requires Apply(env, s, Send(call, now)).issued < U64
    ensures Held(Apply(env, s, Send(call, now)), all)
  {
    hide Balanced, SeqNo, Known, NetOk, InputOk, UnsentPending, Apply, Enabled, Held, Adds;
    SendAdds(env, s, call, now);
    OriginsKnown(env, s);
    HeldAdded(s, Apply(env, s, Send(call, now)), all);
  }

  lemma HeldAdded(s: State, s': State, all: bool)
    requires Held(s, all) && Adds(s, s')
    requires forall t | t in s.net :: s.net[t].origin in Known(s) && Known(s)[s.net[t].origin] < |s.calls|
    requires s.input.Got? || s.input.Delivering? ==>
               SeqNo(s.input.msg.header) in Known(s) && Known(s)[SeqNo(s.input.msg.header)] < |s.calls|
    ensures Held(s', all)
  {
    hide SeqNo, Known;
  }

  lemma LeaveHeld(env: Env, s: State, k: nat, order: seq<Bytes>, all: bool)
    requires Coherent(env, s) && Held(s, all) && Enabled(env, s, Leave(k, order))
    ensures Held(Apply(env, s, Leave(k, order)), all)
  {
    hide Balanced, NetOk, InputOk, SeqNo, Registered, Request, Frame.Encoded;
    SenderBalanced(env, s, Leave(k, order));
  }

  lemma ReadHeld(env: Env, s: State, t: nat, all: bool)
    requires LawfulEnv(env) && Coherent(env, s) && Held(s, all) && Enabled(env, s, Connection.Read(t))
    ensures Held(Apply(env, s, Connection.Read(t)), all)
  {
    hide Apply, Enabled, Balanced, Frame.Decode, InputOk, FlightOk, SeqNo, Registered, OwnMetadata, ReplyRead;
    ReadState(env, s, t);
    NetFlight(env, s, t);
    ReadFlight(env, s, s.net[t]);
  }

  lemma TakeResponseHeld(env: Env, s: State, all: bool)
    requires Coherent(env, s) && Held(s, all) && Enabled(env, s, TakeResponse)
    ensures Held(Apply(env, s, TakeResponse), all)
  {
    hide Balanced, NetOk, SeqNo, ReadLast, Registered, UnsentPending;
    TakeResponseBalanced(env, s);
    assert Arrived(env, s, s.input.msg);
    hide InputOk, Waits;
    TakenHeld(env, s, all);
  }

  lemma TakenHeld(env: Env, s: State, all: bool)
    requires Held(s, all) && Enabled(env, s, TakeResponse)
    requires forall t | t in s.net :: s.net[t].origin != SeqNo(s.input.msg.header)
    requires Known(Apply(env, s, TakeResponse)) == Known(s)
    ensures Held(Apply(env, s, TakeResponse), all)
  {
    hide SeqNo, Known;
  }

  lemma CarriageHeld(env: Env, s: State, step: Step, all: bool)
    requires Held(s, all) && Enabled(env, s, step) && Carriage(step)
    ensures Held(Apply(env, s, step), all)
  {
    hide Apply, Enabled, SeqNo, Registered;
    CarriageState(env, s, step);
  }

  lemma QuietHeld(env: Env, s: State, step: Step, all: bool)
    requires Held(s, all) && Enabled(env, s, step) && Quiet(step)
    ensures Held(Apply(env, s, step), all)
  {
    hide Apply, Enabled, SeqNo, Registered;
    QuietKeeps(env, s, step);
  }

  lemma WriteOkHeld(env: Env, s: State, k: nat, all: bool)
    requires Coherent(env, s) && Held(s, all) && Enabled(env, s, WriteOk(k))
    ensures Held(Apply(env, s, WriteOk(k)), all)
  {
    hide Balanced, NetOk, InputOk, SeqNo, Registered;
    SenderBalanced(env, s, WriteOk(k));
  }

  lemma StepHeld(env: Env, s: State, step: Step, all: bool)
    requires LawfulEnv(env) && Coherent(env, s) && Held(s, all) && Enabled(env, s, step) && Careful(s, step, all)
    requires Apply(env, s, step).issued < U64
    ensures Held(Apply(env, s, step), all)
  {
    hide Coherent, Held, Covered, TakeAndFinish, Request, Response, Possible, Frame.Decode, Frame.Encoded, OutcomeOf;
    hide ShutdownAll, SeqNo, Framed, IsHeartbeat;
    match step
    case Send(call, now) => SendHeld(env, s, call, now, all);
    case EncodeFail(k) => FinishHeld(env, s, k, NotEncoded, all);
    case WriteFail(k) => FinishHeld(env, s, k, NotWritten, all);
    case WriteOk(k) => WriteOkHeld(env, s, k, all);
    case Leave(k, order) => LeaveHeld(env, s, k, order, all);
    case Read(t) => ReadHeld(env, s, t, all);
    case TakeResponse => TakeResponseHeld(env, s, all);
    case Lose(_) => CarriageHeld(env, s, step, all);
    case Accept(_, _) => CarriageHeld(env, s, step, all);
    case Respond(_, _, _) => CarriageHeld(env, s, step, all);
    case _ => QuietHeld(env, s, step, all);
  }

  lemma {:induction false} PathHeld(env: Env, s: State, states: seq<State>, steps: seq<Step>, all: bool, i: nat)
    requires LawfulEnv(env) && Coherent(env, s) && Held(s, all) && Path(env, s, states, steps)
    requires states[|steps|].issued < U64 && CarefulRun(states, steps, all) && i <= |steps|
    ensures Held(states[i], all)
  {
    hide Coherent, Held, Careful, Apply, Enabled;
    if i > 0 {
      PathHeld(env, s, states, steps, all, i - 1);
      PathCoherent(env, s, states, steps, i - 1);
      IssuedGrows(env, s, states, steps, i, |steps|);
      StepHeld(env, states[i - 1], steps[i - 1], all);
    }
  }

  /** Only a delivery can end in the nil call. */
  lemma OnlyDeliveryFindsNil(env: Env, s: State, step: Step)
    requires Enabled(env, s, step) && !step.Deliver?
    ensures Apply(env, s, step).crashed != Some(NilHeartbeat)
  {
    if Carriage(step) {
      hide Apply, Enabled;
      assert s.crashed == None by { EnabledRuns(env, s, step); }
      CarriageState(env, s, step);
    } else if step.Read? {
      hide Apply, Enabled;
      assert s.crashed == None by { EnabledRuns(env, s, step); }
      ReadState(env, s, step.token);
    } else {
      hide Request, Frame.Encoded, ShutdownAll, SeqNo, Framed, BeginReconnect, KeepaliveClose, Close, Register;
    }
  }

  lemma EnabledRuns(env: Env, s: State, step: Step)
    requires Enabled(env, s, step)
    ensures s.crashed == None
  {
  }

  lemma CrashStep(env: Env, s: State, step: Step)
    requires LawfulEnv(env) && Coherent(env, s) && Held(s, false) && Enabled(env, s, step)
    ensures Apply(env, s, step).crashed != Some(NilHeartbeat)
  {
    hide Coherent, Held, OutcomeOf, TakeAndFinish;
    if step.Deliver? {
      DeliveryFindsCall(env, s);
    } else {
      hide Apply, Enabled;
      OnlyDeliveryFindsNil(env, s, step);
    }
  }

  lemma DeliveryFindsCall(env: Env, s: State)
    requires LawfulEnv(env) && Coherent(env, s) && Held(s, false) && Enabled(env, s, Deliver)
    ensures Apply(env, s, Deliver).crashed != Some(NilHeartbeat)
  {
    hide Coherent, HandHeld, OutcomeOf, SeqNo, IsHeartbeat;
    if s.input.call == None {
      NilIsNoHeartbeat(env, s);
    }
  }

  /** A response that found no call answers no heartbeat. */
  lemma NilIsNoHeartbeat(env: Env, s: State)
    requires LawfulEnv(env) && Coherent(env, s) && HandHeld(s, false) && s.input.Delivering? && s.input.call == None
    ensures !IsHeartbeat(s.input.msg.header)
  {
    hide Balanced, NetOk, SeqNo, IsHeartbeat, ReplyRead, LastSome, Registered, OutcomeOf, Justified;
    var k := SeqNo(s.input.msg.header);
    KnownKey(s, k);
    OutcomeJustified(env, s.calls[Known(s)[k]], k, LastSome(s.heard[..|s.heard| - 1]), s.input.msg);
  }

  lemma {:induction false} PathNoNil(env: Env, s: State, states: seq<State>, steps: seq<Step>, i: nat)
    requires LawfulEnv(env) && Coherent(env, s) && Held(s, false) && Path(env, s, states, steps)
    requires states[|steps|].issued < U64 && CarefulRun(states, steps, false) && i <= |steps|
    requires s.crashed != Some(NilHeartbeat)
    ensures states[i].crashed != Some(NilHeartbeat)
  {
    hide Coherent, Held, Careful, Apply, Enabled;
    if i > 0 {
      PathCoherent(env, s, states, steps, i - 1);
      PathHeld(env, s, states, steps, false, i - 1);
      CrashStep(env, states[i - 1], steps[i - 1]);
    }
  }

  lemma StartHeld(all: bool)
    ensures Held(START, all) && START.crashed == None
  {
  }

  /** Unless a heartbeat fails to be written after its frame has left, no response finds its heartbeat gone. */
  lemma NoNilHeartbeat(env: Env, states: seq<State>, steps: seq<Step>, i: nat)
    requires LawfulEnv(env) && ShortRun(env, states, steps) && CarefulRun(states, steps, false) && i <= |steps|
    ensures states[i].crashed != Some(NilHeartbeat)
  {
    StartCoherent(env);
    StartHeld(false);
    hide Coherent, Held, Careful;
    PathNoNil(env, START, states, steps, i);
  }

  /**
   * In-flight containment, if failed writes deliver nothing: the frames, handlers and responses on their way have
   * different sequence numbers, all of them pending, and every response finds its call.
   */
  lemma Containment(env: Env, states: seq<State>, steps: seq<Step>, i: nat)
    requires LawfulEnv(env) && ShortRun(env, states, steps) && CarefulRun(states, steps, true) && i <= |steps|
    ensures var s := states[i];
            && (forall t | t in s.net :: s.net[t].origin in s.client.pending && !Waits(s.senders, s.net[t].origin))
            && (forall t, u | t in s.net && u in s.net && t != u :: s.net[t].origin != s.net[u].origin)
            && (s.input.Got? ==>
                  var k := SeqNo(s.input.msg.header);
                  k in s.client.pending && forall t | t in s.net :: s.net[t].origin != k)
            && (s.input.Delivering? ==> s.input.call.Some?)
            && s.crashed != Some(NilHeartbeat)
  {
    StartCoherent(env);
    StartHeld(true);
    hide Careful, Coherent, Held;
    PathCoherent(env, START, states, steps, i);
    PathHeld(env, START, states, steps, true, i);
    assert CarefulRun(states, steps, false) by { CarefulOfAll(states, steps); }
    NoNilHeartbeat(env, states, steps, i);
    AllHeld(env, states[i]);
  }

  lemma CarefulOfAll(states: seq<State>, steps: seq<Step>)
    requires |states| == |steps| + 1 && CarefulRun(states, steps, true)
    ensures CarefulRun(states, steps, false)
  {
    hide Known;
    forall i | 0 <= i < |steps|
      ensures Careful(states[i], steps[i], false)
    {
      assert Careful(states[i], steps[i], true);
    }
  }

  lemma AllHeld(env: Env, s: State)
    requires Coherent(env, s) && Held(s, true)
    ensures (forall t | t in s.net :: s.net[t].origin in s.client.pending && !Waits(s.senders, s.net[t].origin))
         && (forall t, u | t in s.net && u in s.net && t != u :: s.net[t].origin != s.net[u].origin)
         && (s.input.Got? ==>
               var k := SeqNo(s.input.msg.header);
               k in s.client.pending && forall t | t in s.net :: s.net[t].origin != k)
         && (s.input.Delivering? ==> s.input.call.Some?)
  {
    hide Balanced, Carries, ReadLast, SeqNo, Registered;
    forall t | t in s.net
      ensures s.net[t].origin in s.client.pending && !Waits(s.senders, s.net[t].origin)
    {
      NetFlight(env, s, t);
    }
  }
}
