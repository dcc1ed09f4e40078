/** Where the metadata of a reply comes from, when the client decodes every response into the same message. */
module Origins {
  import opened Bytes
  import opened MetadataCodec
  import Frame
  import opened FrameLaws
  import opened Header
  import opened Server
  import opened Connection
  import opened Exchange
  import opened Ledger
  import opened InFlight
  import opened Correlation

  /** Metadata that the server sent back for this call: given by its handler, or echoed with a heartbeat. */
  ghost predicate SentFor(env: Env, call: Call, md: Metadata) {
    if call.heartbeat then md == call.md else exists world, reply :: Answered(env, call, world, reply, Some(md))
  }

  ghost predicate SentForSome(env: Env, calls: seq<Call>, md: Metadata) {
    exists id: nat :: id < |calls| && SentFor(env, calls[id], md)
  }

  /** All metadata read came from this connection's calls. */
  ghost predicate HeardSent(env: Env, s: State) {
    forall own | own in s.heard && own.Some? :: SentForSome(env, s.calls, own.value)
  }

  /** A reply is delivered with the last metadata read by then. */
  ghost predicate Latest(s: State, c: Completion) {
    c.at <= |s.heard| && (c.outcome.Reply? ==> c.at > 0 && c.outcome.md == LastSome(s.heard[..c.at]))
  }

  ghost predicate AllLatest(s: State) {
    && (s.input.Got? || s.input.Delivering? ==> s.heard != [] && s.input.msg.metadata == LastSome(s.heard))
    && (forall c | c in s.completions :: Latest(s, c))
  }

  lemma ReplyMetadata(env: Env, call: Call, k: nat, m: Frame.Msg)
    requires LawfulEnv(env) && k < U64 && ReplyMsg(env, call, k, m) && m.Entries() != map[]
    ensures SentFor(env, call, m.Entries())
  {
    hide SeqNo, IsHeartbeat, StatusType, SerializeType, IsOneway, Answered, RequestAtServer, Response, Possible;
    if call.heartbeat {
      RequestAtServerFields(env, call, k);
    } else {
      ReplyIsGenuine(env, call, k, m);
      var world, reply :| AnsweredAs(env, call, world, reply, m.metadata, m.payload);
      assert Answered(env, call, world, reply, Some(m.Entries()));
    }
  }

  /** The metadata in the bytes of a reply. */
  lemma FrameMetadata(env: Env, call: Call, k: nat, bytes: Bytes)
    requires LawfulEnv(env) && k < U64 && ReplyFrame(env, call, k, bytes)
    ensures var own := OwnMetadata(env, bytes); own.Some? ==> SentFor(env, call, own.value)
  {
    hide SentFor, Frame.Decode, ReplyMsg, SeqNo, Frame.Compressed;
    ReadReply(env, call, k, bytes, None);
    if OwnMetadata(env, bytes).Some? {
      var msg := Frame.Decode(env.wire, None, [], bytes).msg;
      var m :| ReplyMsg(env, call, k, m) && msg == Received(env.wire, m, None);
      ReplyMetadata(env, call, k, m);
    }
  }

  lemma HeardGrows(env: Env, s: State, s': State)
    requires HeardSent(env, s) && s.calls <= s'.calls && s'.heard == s.heard
    ensures HeardSent(env, s')
  {
    hide SentFor;
    forall own | own in s'.heard && own.Some?
      ensures SentForSome(env, s'.calls, own.value)
    {
      var id: nat :| id < |s.calls| && SentFor(env, s.calls[id], own.value);
      assert s'.calls[id] == s.calls[id];
    }
  }

  lemma ReadHeard(env: Env, s: State, t: nat)
    requires LawfulEnv(env) && NetOk(env, s) && HeardSent(env, s) && Enabled(env, s, Connection.Read(t))
    ensures HeardSent(env, Apply(env, s, Connection.Read(t)))
  {
    hide Apply, Enabled, NetOk, Frame.Decode, OwnMetadata, Registered, SentFor, ReplyFrame;
    ReadState(env, s, t);
    NetFlight(env, s, t);
    var f := s.net[t];
    assert ReplyFrame(env, CallOf(s, f), f.origin, f.bytes);
    FrameMetadata(env, CallOf(s, f), f.origin, f.bytes);
  }

  /** Only reading adds to what was heard. */
  lemma OthersHear(env: Env, s: State, step: Step)
    requires Balanced(BookOf(s)) && Enabled(env, s, step) && !step.Read?
    ensures s.calls <= Apply(env, s, step).calls && Apply(env, s, step).heard == s.heard
  {
    hide Balanced, TakeAndFinish, Apply, Enabled;
    if Carriage(step) {
      CarriageState(env, s, step);
    } else if Quiet(step) {
      QuietKeeps(env, s, step);
    } else {
      SendersHear(env, s, step);
    }
  }

  lemma SendersHear(env: Env, s: State, step: Step)
    requires Balanced(BookOf(s)) && Enabled(env, s, step) && !step.Read? && !Carriage(step) && !Quiet(step)
    ensures s.calls <= Apply(env, s, step).calls && Apply(env, s, step).heard == s.heard
  {
    hide Balanced, Request, Frame.Encoded, SeqNo, TakeAndFinish, Framed;
    match step
    case EncodeFail(k) => FinishSilently(s, k, NotEncoded);
    case WriteFail(k) => FinishSilently(s, k, NotWritten);
    case _ =>
  }

  lemma StepHeard(env: Env, s: State, step: Step)
    requires LawfulEnv(env) && Coherent(env, s) && HeardSent(env, s) && Enabled(env, s, step)
    ensures HeardSent(env, Apply(env, s, step))
  {
    hide Apply, Enabled, HeardSent, NetOk, InputOk, Balanced;
    if step.Read? {
      ReadHeard(env, s, step.token);
    } else {
      OthersHear(env, s, step);
      HeardGrows(env, s, Apply(env, s, step));
    }
  }

  /** Everything the client ever reads was sent for one of its calls on this connection. */
  lemma {:induction false} MetadataOrigin(env: Env, states: seq<State>, steps: seq<Step>, i: nat)
    requires LawfulEnv(env) && ShortRun(env, states, steps) && i <= |steps|
    ensures HeardSent(env, states[i])
  {
    if i > 0 {
      hide HeardSent, Coherent, Apply, Enabled;
      MetadataOrigin(env, states, steps, i - 1);
      RunCoherent(env, states, steps, i - 1);
      StepHeard(env, states[i - 1], steps[i - 1]);
    }
  }

  // Exactly which metadata is delivered.

  lemma LatestStays(s: State, s': State)
    requires AllLatest(s) && s.heard <= s'.heard
    ensures forall c | c in s.completions :: Latest(s', c)
  {
    hide LastSome;
    forall c | c in s.completions
      ensures Latest(s', c)
    {
      assert Latest(s, c);
      assert s'.heard[..c.at] == s.heard[..c.at];
    }
  }

  lemma DeliverLatest(env: Env, s: State)
    requires AllLatest(s) && Enabled(env, s, Deliver)
    ensures AllLatest(Apply(env, s, Deliver))
  {
    hide LastSome, Latest, IsHeartbeat, OutcomeOf;
    var s' := Apply(env, s, Deliver);
    LatestStays(s, s');
    if s.input.call.Some? {
      var c := s'.completions[|s.completions|];
      OutcomeMetadata(env, s.calls[c.call].want, s.input.msg);
      NewLatest(s', c);
    }
  }

  lemma NewLatest(s: State, c: Completion)
    requires c.at == |s.heard| > 0 && (c.outcome.Reply? ==> c.outcome.md == LastSome(s.heard))
    ensures Latest(s, c)
  {
    assert s.heard[..c.at] == s.heard;
  }

  lemma OutcomeMetadata(env: Env, want: Shape, msg: Frame.Msg)
    ensures var o := OutcomeOf(env, want, msg); o.Reply? ==> o.md == msg.metadata
  {
    hide StatusType, SerializeType;
  }

  lemma ReadLatest(env: Env, s: State, t: nat)
    requires AllLatest(s) && s.received == LastSome(s.heard) && Enabled(env, s, Connection.Read(t))
    ensures AllLatest(Apply(env, s, Connection.Read(t)))
  {
    hide LastSome, Latest, Frame.Decode, OwnMetadata;
    ReadKeepsLast(env, s, t);
    LatestStays(s, Apply(env, s, Connection.Read(t)));
  }

  /** The response in hand stays the same or is done with. */
  lemma OthersKeepInput(env: Env, s: State, step: Step)
    requires Enabled(env, s, step) && !step.Read? && !step.Deliver?
    ensures var s' := Apply(env, s, step);
            s'.input.Got? || s'.input.Delivering? ==>
              (s.input.Got? || s.input.Delivering?) && s'.input.msg == s.input.msg
  {
    if Carriage(step) {
      hide Apply, Enabled;
      CarriageState(env, s, step);
    } else if Quiet(step) {
      hide Apply, Enabled;
      QuietKeeps(env, s, step);
    } else {
      hide Request, Frame.Encoded, SeqNo, Framed;
    }
  }

  lemma StepLatest(env: Env, s: State, step: Step)
    requires Coherent(env, s) && AllLatest(s) && Enabled(env, s, step)
    ensures AllLatest(Apply(env, s, step))
  {
    hide Apply, Enabled, NetOk, InputOk, Balanced, LastSome, Latest;
    if step.Read? {
      ReadLatest(env, s, step.token);
    } else if step.Deliver? {
      DeliverLatest(env, s);
    } else {
      var s' := Apply(env, s, step);
      OthersHear(env, s, step);
      SilentCompletions(env, s, step);
      OthersKeepInput(env, s, step);
      LatestStays(s, s');
      forall c | c in s'.completions && c !in s.completions
        ensures Latest(s', c)
      {
        SilentLatest(s', c);
      }
    }
  }

  lemma SilentLatest(s: State, c: Completion)
    requires Silent(c.outcome) && c.at <= |s.heard|
    ensures Latest(s, c)
  {
  }

  lemma {:induction false} RunLatest(env: Env, states: seq<State>, steps: seq<Step>, i: nat)
    requires LawfulEnv(env) && ShortRun(env, states, steps) && i <= |steps|
    ensures AllLatest(states[i])
  {
    if i > 0 {
      hide AllLatest, Coherent, Apply, Enabled;
      RunLatest(env, states, steps, i - 1);
      RunCoherent(env, states, steps, i - 1);
      StepLatest(env, states[i - 1], steps[i - 1]);
    }
  }

  /**
   * In every run a reply is delivered with the metadata that its own handler sent, if it sent any, and otherwise with
   * exactly the last metadata that an earlier response to this client carried, none if none did.
   */
  lemma MetadataExactly(env: Env, states: seq<State>, steps: seq<Step>, i: nat, c: Completion)
    requires LawfulEnv(env) && ShortRun(env, states, steps) && i <= |steps|
    requires c in states[i].completions && c.outcome.Reply?
    ensures var s := states[i];
            && c.call < |s.calls| && 1 <= c.at <= |s.heard|
            && c.outcome.md == LastSome(s.heard[..c.at])
            && exists world, reply, sent ::
                 && Answered(env, s.calls[c.call], world, reply, sent)
                 && c.outcome.md == if sent.Some? && sent != Some(map[]) then sent else LastSome(s.heard[..c.at - 1])
  {
    hide Answered, Understood;
    EndToEnd(env, states, steps, i);
    RunLatest(env, states, steps, i);
    var s := states[i];
    assert JustifiedAt(env, s, c) && Latest(s, c);
    ToldMetadata(env, s.calls[c.call], LeftBefore(s.heard, c.at), c.outcome);
  }

  lemma ToldMetadata(env: Env, call: Call, prior: Option<Metadata>, outcome: Ending)
    requires Told(env, call, prior, outcome) && outcome.Reply?
    ensures exists world, reply, sent :: Answered(env, call, world, reply, sent) && outcome.md == Leftover(sent, prior)
  {
    hide Answered;
    var world, reply, sent, data :|
      && AnsweredAs(env, call, world, reply, sent, data)
      && outcome == Understood(env, call.want, Serialization(call), data, Leftover(sent, prior));
    assert Answered(env, call, world, reply, sent);
  }
}
