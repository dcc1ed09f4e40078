/** What a closed or ended connection still carries, and who can always go on. */
module Ends {
  import opened Bytes
  import Frame
  import opened Header
  import opened Server
  import opened Transitions
  import opened Connection
  import opened Ledger
  import opened InFlight
  import opened Exchange
  import opened Correlation
  import opened Delivery
  import opened Lifecycle
  import opened Unanswered

  // Closing.

  /** A close that takes effect, by the user or by keepalive. */
  predicate Shuts(s: State, step: Step) {
    (step.CloseCall? && s.client.status != Closed) || (step.KeepaliveFails? && s.client.status == Available)
  }

  lemma ShutsConn(env: Env, s: State, step: Step)
    requires Enabled(env, s, step) && Shuts(s, step)
    ensures s.client.conn in Apply(env, s, step).closedConns && Apply(env, s, step).client.status == Closed
  {
    hide ShutdownAll, EnumeratesKeys;
  }

  lemma ClosedStays(env: Env, s: State, step: Step)
    requires Enabled(env, s, step)
    ensures s.closedConns <= Apply(env, s, step).closedConns
  {
    if ChangesStatus(step) {
      hide ShutdownAll, EnumeratesKeys;
    } else {
      hide Apply, Enabled;
      StatusKept(env, s, step);
    }
  }

  lemma {:induction false} ClosedForEver(env: Env, states: seq<State>, steps: seq<Step>, i: nat, j: nat)
    requires Run(env, states, steps) && i <= j <= |steps|
    ensures states[i].closedConns <= states[j].closedConns
    decreases j
  {
    hide Apply, Enabled;
    if i < j {
      ClosedForEver(env, states, steps, i, j - 1);
      ClosedStays(env, states[j - 1], steps[j - 1]);
    }
  }

  /** The step lets a frame leave on the connection, or reads one from it. */
  predicate Uses(s: State, step: Step, conn: nat) {
    || (step.Leave? && step.k in s.senders && s.senders[step.k].conn == conn)
    || (step.Read? && step.token in s.net && s.net[step.token].conn == conn)
  }

  lemma UsesOpen(env: Env, s: State, step: Step, conn: nat)
    requires Enabled(env, s, step) && Uses(s, step, conn)
    ensures conn !in s.closedConns
  {
    hide Request, Frame.Encoded, Framed;
  }

  /** After a close that takes effect, no frame leaves on its connection any more, and none is read from it. */
  lemma ClosedIsSilent(env: Env, states: seq<State>, steps: seq<Step>, i: nat, j: nat)
    requires Run(env, states, steps) && i < j < |steps| && Shuts(states[i], steps[i])
    ensures states[i + 1].client.status == Closed
    ensures states[i].client.conn in states[j].closedConns && !Uses(states[j], steps[j], states[i].client.conn)
  {
    hide Apply, Enabled, Uses, Shuts;
    ShutsConn(env, states[i], steps[i]);
    ClosedForEver(env, states, steps, i + 1, j);
    if Uses(states[j], steps[j], states[i].client.conn) {
      UsesOpen(env, states[j], steps[j], states[i].client.conn);
    }
  }

  // The end of a server loop.

  /** The server's loop over the connection ends: by itself, or with a frame that it cannot decode. */
  predicate EndsLoop(env: Env, s: State, step: Step, conn: nat) {
    match step
    case ServerEnds(c) => c == conn
    case Accept(t, _) =>
      t in s.net && s.net[t].ToServer? && s.net[t].conn == conn
      && !Frame.Decode(env.wire, None, [], s.net[t].bytes).Ok?
    case _ => false
  }

  lemma EndsGone(env: Env, s: State, step: Step, conn: nat)
    requires Enabled(env, s, step) && EndsLoop(env, s, step, conn)
    ensures conn in Apply(env, s, step).goneConns
  {
    hide Frame.Decode, Frame.Encoded, IsHeartbeat, Framed, Echo;
  }

  lemma {:induction false} GoneForEver(env: Env, states: seq<State>, steps: seq<Step>, i: nat, j: nat)
    requires Run(env, states, steps) && i <= j <= |steps|
    ensures states[i].goneConns <= states[j].goneConns
    decreases j
  {
    hide Apply, Enabled, Dialled;
    if i < j {
      GoneForEver(env, states, steps, i, j - 1);
      RunDialled(env, states, steps, j - 1);
      StepFades(env, states[j - 1], steps[j - 1]);
    }
  }

  /** The step accepts a request from the connection, or sends something back over it. */
  ghost predicate Serving(env: Env, s: State, step: Step, s': State, conn: nat) {
    && (step.Accept? || step.Respond?) && step.token in s.net && s.net[step.token].conn == conn
    && (step.Respond? ==> s'.net != s.net - {step.token})
  }

  lemma ServingOpen(env: Env, s: State, step: Step, conn: nat)
    requires Enabled(env, s, step) && Serving(env, s, step, Apply(env, s, step), conn)
    ensures conn !in s.goneConns
  {
    hide Frame.Decode, Frame.Encoded, Response, Possible, IsHeartbeat, Framed, Echo;
  }

  /** Once the server's loop over a connection has ended, nothing is accepted from it or sent back over it. */
  lemma EndedIsSilent(env: Env, states: seq<State>, steps: seq<Step>, i: nat, j: nat, conn: nat)
    requires Run(env, states, steps) && i < j < |steps| && EndsLoop(env, states[i], steps[i], conn)
    ensures !Serving(env, states[j], steps[j], states[j + 1], conn)
  {
    hide Apply, Enabled, Serving, EndsLoop;
    EndsGone(env, states[i], steps[i], conn);
    GoneForEver(env, states, steps, i + 1, j);
    if Serving(env, states[j], steps[j], states[j + 1], conn) {
      ServingOpen(env, states[j], steps[j], conn);
    }
  }

  // Who can go on.

  /** The steps of the reading goroutine that wait for nobody else. */
  predicate OfInput(step: Step) {
    step.TakeResponse? || step.Deliver? || step.ReadError? || step.StartReconnect? || step.Redialled?
    || step.RedialFailed? || step.InputTail?
  }

  lemma {:induction false} Enumerated(keys: set<nat>) returns (order: seq<nat>)
    ensures (forall i, j | 0 <= i < j < |order| :: order[i] != order[j]) && forall k :: k in order <==> k in keys
    decreases |keys|
  {
    order := [];
    if keys != {} {
      var k :| k in keys;
      var rest := Enumerated(keys - {k});
      order := [k] + rest;
    }
  }

  lemma CloseEnabled(env: Env, s: State) returns (keys: seq<nat>)
    requires s.crashed == None && s.input != Stuck
    ensures Enabled(env, s, CloseCall(keys))
  {
    keys := Enumerated(s.client.pending.Keys);
  }

  lemma SenderEnds(env: Env, s: State, k: nat)
    requires s.crashed == None && k in s.senders
    ensures Enabled(env, s, EncodeFail(k)) || Enabled(env, s, WriteFail(k)) <==> s.input != Stuck
  {
    hide Request;
  }

  lemma ErrorEnabled(env: Env, s: State)
    requires s.crashed == None && s.input.Reading?
    ensures Enabled(env, s, ReadError)
    ensures Apply(env, s, ReadError).input == if s.client.suicide then Tail else ReadFailed
  {
  }

  lemma ReconnectEnabled(env: Env, s: State)
    requires s.crashed == None && s.input.ReadFailed?
    ensures Enabled(env, s, StartReconnect)
    ensures Apply(env, s, StartReconnect).input == if s.client.suicide then Tail else Redialling
  {
  }

  lemma OthersEnabled(env: Env, s: State) returns (step: Step)
    requires s.crashed == None && (s.input.Got? || s.input.Redialling? || s.input.Tail?)
    ensures OfInput(step) && Enabled(env, s, step)
  {
    step := if s.input.Got? then TakeResponse else if s.input.Redialling? then Redialled else InputTail;
  }

  lemma DeliverEnabled(env: Env, s: State)
    requires s.crashed == None && s.input.Delivering? && (s.input.call.Some? ==> s.input.call.value < |s.calls|)
    ensures Enabled(env, s, Deliver)
  {
  }

  /** The next step of the reading goroutine; after an error of the connection it reconnects unless closed. */
  lemma InputGoesOn(env: Env, s: State) returns (step: Step)
    requires Coherent(env, s) && s.crashed == None && s.input != Stuck && s.input != Exited
    ensures OfInput(step) && Enabled(env, s, step)
    ensures s.input.Reading? ==> Apply(env, s, step).input == if s.client.suicide then Tail else ReadFailed
    ensures s.input.ReadFailed? ==> Apply(env, s, step).input == if s.client.suicide then Tail else Redialling
  {
    hide Coherent, Apply, Enabled;
    match s.input
    case Reading =>
      step := ReadError;
      ErrorEnabled(env, s);
    case ReadFailed =>
      step := StartReconnect;
      ReconnectEnabled(env, s);
    case Delivering(_, _) =>
      step := Deliver;
      HandCall(env, s);
      DeliverEnabled(env, s);
    case _ => step := OthersEnabled(env, s);
  }

  lemma NoInputLeft(env: Env, s: State, step: Step)
    requires Enabled(env, s, step) && OfInput(step)
    ensures s.input != Stuck && s.input != Exited
  {
  }

  lemma MutexNeeded(env: Env, s: State, step: Step)
    requires Enabled(env, s, step)
    requires step.Send? || step.EncodeFail? || step.WriteFail? || step.KeepaliveFails? || step.CloseCall?
    ensures s.input != Stuck
  {
    hide Request, EnumeratesKeys;
  }

  lemma SendEnabled(env: Env, s: State, call: Call, now: int)
    requires s.crashed == None && s.input != Stuck
    ensures Enabled(env, s, Send(call, now))
  {
  }

  /**
   * In every state of a run before a panic, the reading goroutine can go on unless it has ended or holds the mutex for
   * ever; and only in the latter case can calls not be sent, sends not end, and the client not be closed.
   */
  lemma GoesOnExactly(env: Env, states: seq<State>, steps: seq<Step>, i: nat)
    requires LawfulEnv(env) && ShortRun(env, states, steps) && i <= |steps| && states[i].crashed == None
    ensures var s := states[i];
            && ((exists step :: OfInput(step) && Enabled(env, s, step)) <==> s.input != Stuck && s.input != Exited)
            && (forall call, now :: Enabled(env, s, Send(call, now)) <==> s.input != Stuck)
            && (forall k | k in s.senders ::
                  Enabled(env, s, EncodeFail(k)) || Enabled(env, s, WriteFail(k)) <==> s.input != Stuck)
            && ((exists keys :: Enabled(env, s, CloseCall(keys))) <==> s.input != Stuck)
  {
    hide Apply, Enabled, Coherent, OfInput;
    var s := states[i];
    RunCoherent(env, states, steps, i);
    if s.input != Stuck && s.input != Exited {
      var step := InputGoesOn(env, s);
    }
    forall step | OfInput(step) && Enabled(env, s, step)
      ensures s.input != Stuck && s.input != Exited
    {
      NoInputLeft(env, s, step);
    }
    forall call, now
      ensures Enabled(env, s, Send(call, now)) <==> s.input != Stuck
    {
      if s.input != Stuck {
        SendEnabled(env, s, call, now);
      } else if Enabled(env, s, Send(call, now)) {
        MutexNeeded(env, s, Send(call, now));
      }
    }
    forall k | k in s.senders
      ensures Enabled(env, s, EncodeFail(k)) || Enabled(env, s, WriteFail(k)) <==> s.input != Stuck
    {
      SenderEnds(env, s, k);
    }
    if s.input != Stuck {
      var keys := CloseEnabled(env, s);
    }
    forall keys | Enabled(env, s, CloseCall(keys))
      ensures s.input != Stuck
    {
      MutexNeeded(env, s, CloseCall(keys));
    }
  }
}
