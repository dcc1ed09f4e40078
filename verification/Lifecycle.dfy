/** Closing, reconnecting and the ways in which a connection stops serving its calls. */
module Lifecycle {
  import opened Bytes
  import Frame
  import opened Header
  import opened Server
  import opened Transitions
  import opened Connection
  import opened Ledger
  import opened Completions

  // What the steps leave alone.

  /** Between the first and the last section of `reconnect`. */
  predicate InWindow(s: State) { s.input == Redialling }

  /** The steps that change the status of the connection. */
  predicate ChangesStatus(step: Step) {
    step.StartReconnect? || step.Redialled? || step.RedialFailed? || step.KeepaliveFails? || step.CloseCall?
  }

  /** The steps of senders, of the network and the server, and of the reading goroutine. */
  predicate Sends(step: Step) { step.Send? || step.EncodeFail? || step.WriteFail? }

  predicate Transports(step: Step) {
    step.Leave? || step.WriteOk? || step.Lose? || step.ServerEnds? || step.Accept? || step.Respond?
  }

  predicate Receives(step: Step) {
    step.Read? || step.TakeResponse? || step.Deliver? || step.ReadError? || step.InputTail?
  }

  /** The part of the state that decides about closing. */
  datatype Mode = Mode(
    status: Status, suicide: bool, doneClosed: bool, conn: nat, closedConns: set<nat>, closes: seq<set<nat>>,
    crashed: Option<Crash>)

  function ModeOf(s: State): Mode {
    Mode(s.client.status, s.client.suicide, s.client.doneClosed, s.client.conn, s.closedConns, s.closes, s.crashed)
  }

  /** The reading goroutine has not begun to end. */
  predicate Listening(i: Input) { i.Reading? || i.Got? || i.Delivering? || i.ReadFailed? }

  lemma FinishKeepsMode(s: State, k: nat, outcome: Ending)
    ensures var s' := TakeAndFinish(s, k, outcome);
            ModeOf(s') == ModeOf(s) && s'.input == s.input && s'.issued == s.issued
  {
  }

  lemma SendsKeepMode(env: Env, s: State, step: Step)
    requires Enabled(env, s, step) && Sends(step)
    ensures var s' := Apply(env, s, step);
            && ModeOf(s') == ModeOf(s) && s'.input == s.input
            && (s.client.status != Available ==> s'.issued == s.issued)
  {
    hide Request, TakeAndFinish;
    match step
    case Send(_, _) =>
    case EncodeFail(k) => FinishKeepsMode(s, k, NotEncoded);
    case WriteFail(k) => FinishKeepsMode(s, k, NotWritten);
  }

  lemma TransportsKeepAll(env: Env, s: State, step: Step)
    requires Enabled(env, s, step) && Transports(step)
    ensures var s' := Apply(env, s, step);
            && s'.client == s.client && s'.calls == s.calls && s'.input == s.input && s'.completions == s.completions
            && s'.issued == s.issued && ModeOf(s') == ModeOf(s) && s'.senders.Keys <= s.senders.Keys
  {
    hide Request, Response, Possible, Frame.Decode, Frame.Encoded, IsHeartbeat, Framed;
  }

  /** What receiving leaves alone. */
  ghost predicate KeepsMode(s: State, s': State) {
    && ModeOf(s').(crashed := None) == ModeOf(s).(crashed := None) && s'.crashed != Some(DoubleClose)
    && s'.issued == s.issued && (InWindow(s') <==> InWindow(s))
    && (Listening(s.input) && !s.client.suicide ==> Listening(s'.input))
    && s'.senders == s.senders && s'.calls == s.calls
  }

  lemma TakesKeepMode(env: Env, s: State)
    requires Enabled(env, s, TakeResponse)
    ensures KeepsMode(s, Apply(env, s, TakeResponse))
  {
    hide SeqNo;
  }

  lemma DeliverKeepsMode(env: Env, s: State)
    requires Enabled(env, s, Deliver)
    ensures KeepsMode(s, Apply(env, s, Deliver))
  {
    hide OutcomeOf, IsHeartbeat;
  }

  lemma ReadKeepsMode(env: Env, s: State, t: nat)
    requires Enabled(env, s, Connection.Read(t))
    ensures KeepsMode(s, Apply(env, s, Connection.Read(t)))
  {
    hide Frame.Decode, OwnMetadata;
  }

  lemma EndsKeepMode(env: Env, s: State, step: Step)
    requires Enabled(env, s, step) && (step.ReadError? || step.InputTail?)
    ensures KeepsMode(s, Apply(env, s, step))
  {
  }

  lemma ReceivesKeepMode(env: Env, s: State, step: Step)
    requires Enabled(env, s, step) && Receives(step)
    ensures KeepsMode(s, Apply(env, s, step)) && s.crashed == None
  {
    assert s.crashed == None;
    hide Apply, Enabled, KeepsMode;
    match step
    case Read(t) => ReadKeepsMode(env, s, t);
    case TakeResponse => TakesKeepMode(env, s);
    case Deliver => DeliverKeepsMode(env, s);
    case _ => EndsKeepMode(env, s, step);
  }

  lemma StatusKept(env: Env, s: State, step: Step)
    requires Enabled(env, s, step) && !ChangesStatus(step)
    ensures var s' := Apply(env, s, step);
            && ModeOf(s').(crashed := None) == ModeOf(s)
            && s'.crashed != Some(DoubleClose) && (InWindow(s') <==> InWindow(s))
            && (Listening(s.input) && !s.client.suicide ==> Listening(s'.input))
            && (s.client.status != Available ==> s'.issued == s.issued)
  {
    assert s.crashed == None;
    hide Apply, Enabled;
    if Sends(step) {
      SendsKeepMode(env, s, step);
    } else if Transports(step) {
      TransportsKeepAll(env, s, step);
    } else {
      ReceivesKeepMode(env, s, step);
    }
  }

  // Under every interleaving.

  /** `suicide` says that the connection is closed. */
  predicate SuicideIsClosed(c: ClientState) { c.suicide <==> c.status == Closed }

  lemma StepSuicide(env: Env, s: State, step: Step)
    requires Enabled(env, s, step) && SuicideIsClosed(s.client)
    ensures SuicideIsClosed(Apply(env, s, step).client)
    ensures step.StartReconnect? && s.client.status == Closed ==> Apply(env, s, step).input == Tail
  {
    hide ShutdownAll, EnumeratesKeys;
    if !ChangesStatus(step) {
      hide Apply, Enabled;
      StatusKept(env, s, step);
    }
  }

  /** In every run `suicide` holds exactly while closed, so no reconnect starts from a closed connection. */
  lemma {:induction false} SuicideRun(env: Env, states: seq<State>, steps: seq<Step>, i: nat)
    requires Run(env, states, steps) && i <= |steps|
    ensures SuicideIsClosed(states[i].client)
    ensures i < |steps| && steps[i].StartReconnect? && states[i + 1].input == Redialling ==>
              states[i].client.status != Closed
  {
    hide Apply, Enabled;
    if i > 0 {
      SuicideRun(env, states, steps, i - 1);
      StepSuicide(env, states[i - 1], steps[i - 1]);
    }
    if i < |steps| {
      StepSuicide(env, states[i], steps[i]);
    }
  }

  /** On an available connection the reading goroutine is at work. */
  predicate Attentive(s: State) {
    SuicideIsClosed(s.client) && (s.client.status == Available ==> Listening(s.input))
  }

  lemma StepAttentive(env: Env, s: State, step: Step)
    requires Enabled(env, s, step) && Attentive(s)
    ensures Attentive(Apply(env, s, step))
  {
    hide ShutdownAll, EnumeratesKeys;
    if !ChangesStatus(step) {
      hide Apply, Enabled;
      StatusKept(env, s, step);
    }
  }

  lemma {:induction false} RunAttentive(env: Env, states: seq<State>, steps: seq<Step>, i: nat)
    requires Run(env, states, steps) && i <= |steps|
    ensures Attentive(states[i])
  {
    hide Apply, Enabled;
    if i > 0 {
      RunAttentive(env, states, steps, i - 1);
      StepAttentive(env, states[i - 1], steps[i - 1]);
    }
  }

  // When no close lands inside a reconnect.

  ghost predicate NoCloseInWindow(states: seq<State>, steps: seq<Step>)
    requires |states| == |steps| + 1
  {
    forall i | 0 <= i < |steps| :: steps[i].CloseCall? ==> !InWindow(states[i])
  }

  /** What such runs keep. */
  ghost predicate Orderly(s: State) {
    && SuicideIsClosed(s.client)
    && (InWindow(s) ==> s.client.status == Reconnecting)
    && (s.client.doneClosed ==> s.client.status == Closed)
    && |s.closes| == (if s.client.doneClosed then 1 else 0)
    && s.crashed != Some(DoubleClose)
  }

  lemma StepOrderly(env: Env, s: State, step: Step)
    requires Enabled(env, s, step) && Orderly(s) && (step.CloseCall? ==> !InWindow(s))
    ensures var s' := Apply(env, s, step);
            && Orderly(s')
            && (s.client.status == Closed ==> s'.client.status == Closed && s'.issued == s.issued)
  {
    hide ShutdownAll, EnumeratesKeys;
    if !ChangesStatus(step) {
      hide Apply, Enabled;
      StatusKept(env, s, step);
    }
  }

  lemma {:induction false} RunOrderly(env: Env, states: seq<State>, steps: seq<Step>, i: nat)
    requires Run(env, states, steps) && NoCloseInWindow(states, steps) && i <= |steps|
    ensures Orderly(states[i])
  {
    hide Apply, Enabled, Orderly;
    if i == 0 {
      assert Orderly(START) by { StartOrderly(); }
    } else {
      RunOrderly(env, states, steps, i - 1);
      StepOrderly(env, states[i - 1], steps[i - 1]);
    }
  }

  lemma StartOrderly()
    ensures Orderly(START)
  {
  }

  /**
   * If no close lands inside a reconnect, then closed is for ever, nothing is registered from then on,
   * a close takes effect at most once, and `doneChan` is never closed twice.
   */
  lemma {:induction false} CloseIsFinal(env: Env, states: seq<State>, steps: seq<Step>, i: nat, j: nat)
    requires Run(env, states, steps) && NoCloseInWindow(states, steps) && i <= j <= |steps|
    ensures |states[j].closes| <= 1 && states[j].crashed != Some(DoubleClose)
    ensures states[i].client.status == Closed ==>
              states[j].client.status == Closed && states[j].issued == states[i].issued
    decreases j
  {
    hide Apply, Enabled;
    RunOrderly(env, states, steps, j);
    if i < j {
      CloseIsFinal(env, states, steps, i, j - 1);
      RunOrderly(env, states, steps, j - 1);
      StepOrderly(env, states[j - 1], steps[j - 1]);
    }
  }

  // When one does.

  /** Closed, with `suicide` set, and not between the sections of a reconnect: this never ends. */
  predicate Final(s: State) { s.client.status == Closed && s.client.suicide && !InWindow(s) }

  lemma StepFinal(env: Env, s: State, step: Step)
    requires Enabled(env, s, step) && Final(s) && s.crashed != Some(DoubleClose)
    ensures Final(Apply(env, s, step)) && Apply(env, s, step).crashed != Some(DoubleClose)
  {
    hide ShutdownAll, EnumeratesKeys;
    if !ChangesStatus(step) {
      hide Apply, Enabled;
      StatusKept(env, s, step);
    }
  }

  lemma {:induction false} FinalPath(env: Env, s: State, states: seq<State>, steps: seq<Step>, i: nat)
    requires Path(env, s, states, steps) && i <= |steps| && Final(s) && s.crashed != Some(DoubleClose)
    ensures Final(states[i]) && states[i].crashed != Some(DoubleClose)
  {
    hide Apply, Enabled;
    if i > 0 {
      FinalPath(env, s, states, steps, i - 1);
      StepFinal(env, states[i - 1], steps[i - 1]);
    }
  }

  /** The connection stays closed on every continuation, and none panics in a second close. */
  ghost predicate StaysClosed(env: Env, s: State) {
    forall states: seq<State>, steps: seq<Step> | Path(env, s, states, steps) ::
      states[|steps|].client.status == Closed && states[|steps|].crashed != Some(DoubleClose)
  }

  lemma {:induction false} KeysExist(m: map<nat, nat>, left: set<nat>) returns (keys: seq<nat>)
    requires left <= m.Keys
    ensures forall i, j | 0 <= i < j < |keys| :: keys[i] != keys[j]
    ensures forall k :: k in keys <==> k in left
    decreases |left|
  {
    keys := [];
    if left != {} {
      var k :| k in left;
      var rest := KeysExist(m, left - {k});
      keys := [k] + rest;
    }
  }

  /** A close inside a reconnect is undone by the reconnect, and the next close then panics. */
  lemma ReopenAndCrash(env: Env, s: State) returns (states: seq<State>, steps: seq<Step>)
    requires s.crashed == None && InWindow(s) && s.client.status == Closed && s.client.doneClosed
    ensures Path(env, s, states, steps) && |steps| == 2
    ensures states[1].client.status == Available
    ensures states[2].crashed == Some(DoubleClose)
  {
    var s1 := Apply(env, s, Redialled);
    var keys := KeysExist(s1.client.pending, s1.client.pending.Keys);
    var s2 := Apply(env, s1, CloseCall(keys));
    states, steps := [s, s1, s2], [Redialled, CloseCall(keys)];
  }

  /** A close is final exactly when it does not land inside a reconnect. */
  lemma CloseIsFinalExactly(env: Env, s: State)
    requires s.crashed == None && SuicideIsClosed(s.client) && s.client.status == Closed && s.client.doneClosed
    ensures StaysClosed(env, s) <==> !InWindow(s)
  {
    hide Apply, Enabled;
    if InWindow(s) {
      var states, steps := ReopenAndCrash(env, s);
      assert !StaysClosed(env, s);
    } else {
      forall states: seq<State>, steps: seq<Step> | Path(env, s, states, steps)
        ensures states[|steps|].client.status == Closed && states[|steps|].crashed != Some(DoubleClose)
      {
        FinalPath(env, s, states, steps, |steps|);
      }
    }
  }

  /** Such a close happens: a read error, the start of the reconnect, and a close before the dialling ends. */
  lemma CloseInWindowHappens(env: Env) returns (states: seq<State>, steps: seq<Step>)
    ensures Run(env, states, steps)
    ensures var s := states[|steps|];
            s.crashed == None && InWindow(s) && s.client.status == Closed && s.client.doneClosed
  {
    steps := [ReadError, StartReconnect, CloseCall([])];
    var s1 := Apply(env, START, ReadError);
    var s2 := Apply(env, s1, StartReconnect);
    var s3 := Apply(env, s2, CloseCall([]));
    states := [START, s1, s2, s3];
  }

  // After a failed reconnect.

  lemma StepStuck(env: Env, s: State, step: Step)
    requires Enabled(env, s, step) && s.input == Stuck
    ensures var s' := Apply(env, s, step);
            s'.input == Stuck && s'.client == s.client && s'.completions == s.completions && s'.calls == s.calls
  {
    hide Request, Response, Possible, Frame.Decode, Frame.Encoded, OutcomeOf, ShutdownAll, SeqNo, IsHeartbeat, Framed;
  }

  /**
   * Once the reading goroutine has taken the mutex and calls `close` under it, nothing in the client changes any
   * more: no call is sent, closed or completed, on any continuation.
   */
  lemma {:induction false} FrozenForEver(env: Env, s: State, states: seq<State>, steps: seq<Step>, i: nat)
    requires Path(env, s, states, steps) && i <= |steps| && s.input == Stuck
    ensures states[i].input == Stuck && states[i].client == s.client
    ensures states[i].completions == s.completions && states[i].calls == s.calls
  {
    hide Apply, Enabled;
    if i > 0 {
      FrozenForEver(env, s, states, steps, i - 1);
      StepStuck(env, states[i - 1], steps[i - 1]);
    }
  }

  /** Such an end happens: a read error, and a reconnect in which no dialling succeeds. */
  lemma FailedReconnectHappens(env: Env) returns (states: seq<State>, steps: seq<Step>)
    ensures Run(env, states, steps)
    ensures states[|steps|].input == Stuck && states[|steps|].client.status == ReconnectFailed
  {
    var s1 := Apply(env, START, ReadError);
    var s2 := Apply(env, s1, StartReconnect);
    assert s2.input == Redialling && s2.crashed == None && Enabled(env, s1, StartReconnect);
    hide Apply, Enabled;
    StepPath(env, START, ReadError);
    StepPath(env, s1, StartReconnect);
    PathAppend(env, START, [START, s1], [ReadError], [s1, s2], [StartReconnect]);
    var a, p := LosesForGood(env, s2);
    PathAppend(env, START, [START, s1] + [s1, s2][1..], [ReadError] + [StartReconnect], a, p);
    states, steps := [START, s1] + [s1, s2][1..] + a[1..], [ReadError] + [StartReconnect] + p;
  }

  lemma LosesForGood(env: Env, s: State) returns (states: seq<State>, steps: seq<Step>)
    requires s.input == Redialling && s.crashed == None
    ensures Path(env, s, states, steps) && states[|steps|].input == Stuck
    ensures states[|steps|].client.status == ReconnectFailed
  {
    var s1 := Apply(env, s, RedialFailed);
    var s2 := Apply(env, s1, InputTail);
    states, steps := [s, s1, s2], [RedialFailed, InputTail];
  }

  // After a failed heartbeat.

  /** The response in the hands of the reading goroutine belongs to another call. */
  predicate NotInHand(s: State, k: nat)
    requires k in s.client.pending
  {
    match s.input
    case Got(msg) => SeqNo(msg.header) != k
    case Delivering(_, call) => call != Some(s.client.pending[k])
    case _ => s.input in {Reading, ReadFailed, Tail, Exited}
  }

  /** A pending call that is neither being sent nor in hand, on a connection that keepalive has closed. */
  ghost predicate Orphaned(s: State, k: nat) {
    && s.client.status == Closed && s.client.suicide
    && s.client.conn in s.closedConns
    && k in s.client.pending && k !in s.senders && NotInHand(s, k)
    && (forall j | j in s.client.pending && j != k :: s.client.pending[j] != s.client.pending[k])
  }

  /** No completion has been added for the call. */
  ghost predicate Uncompleted(s: State, s': State, id: nat) {
    forall c | c in s'.completions :: c in s.completions || c.call != id
  }

  /** A send that fails completes its own call only. */
  lemma FinishKeepsOrphan(s: State, j: nat, outcome: Ending, k: nat)
    requires Orphaned(s, k) && j in s.senders
    ensures var s' := TakeAndFinish(s, j, outcome);
            && Orphaned(s', k) && s'.client.pending[k] == s.client.pending[k]
            && Uncompleted(s, s', s.client.pending[k]) && s'.client.doneClosed == s.client.doneClosed
  {
    hide SeqNo;
  }

  lemma SendsKeepOrphan(env: Env, s: State, step: Step, k: nat)
    requires Enabled(env, s, step) && Orphaned(s, k) && Sends(step)
    ensures var s' := Apply(env, s, step);
            && Orphaned(s', k) && s'.client.pending[k] == s.client.pending[k]
            && (Uncompleted(s, s', s.client.pending[k]) || step.Send?) && s'.client.doneClosed == s.client.doneClosed
            && (step.Send? ==> s'.completions == Finished(s, |s.calls|, WasShutdown))
  {
    hide Request, TakeAndFinish, SeqNo;
    match step
    case Send(_, _) =>
    case EncodeFail(j) => FinishKeepsOrphan(s, j, NotEncoded, k);
    case WriteFail(j) => FinishKeepsOrphan(s, j, NotWritten, k);
  }

  lemma ReadsKeepOrphan(env: Env, s: State, step: Step, k: nat)
    requires Enabled(env, s, step) && Orphaned(s, k) && (step.Read? || step.ReadError? || step.InputTail?)
    ensures var s' := Apply(env, s, step);
            && Orphaned(s', k) && s'.client.pending[k] == s.client.pending[k] && s'.completions == s.completions
            && s'.client.doneClosed == s.client.doneClosed
  {
    hide Frame.Decode, OwnMetadata, SeqNo;
  }

  /** What every step leaves alone about an orphan. */
  ghost predicate KeepsOrphan(s: State, s': State, k: nat)
    requires k in s.client.pending
  {
    && Orphaned(s', k) && s'.client.pending[k] == s.client.pending[k]
    && Uncompleted(s, s', s.client.pending[k]) && s'.client.doneClosed == s.client.doneClosed
  }

  lemma TakesKeepOrphan(env: Env, s: State, k: nat)
    requires Enabled(env, s, TakeResponse) && Orphaned(s, k)
    ensures KeepsOrphan(s, Apply(env, s, TakeResponse), k)
  {
    hide SeqNo;
  }

  lemma DeliverKeepsOrphan(env: Env, s: State, k: nat)
    requires Enabled(env, s, Deliver) && Orphaned(s, k)
    ensures KeepsOrphan(s, Apply(env, s, Deliver), k)
  {
    hide OutcomeOf, SeqNo, IsHeartbeat;
  }

  lemma StatusKeepsOrphan(env: Env, s: State, step: Step, k: nat)
    requires Enabled(env, s, step) && Orphaned(s, k) && ChangesStatus(step)
    ensures var s' := Apply(env, s, step);
            && Orphaned(s', k) && s'.client.pending[k] == s.client.pending[k] && s'.completions == s.completions
            && s'.client.doneClosed == s.client.doneClosed
  {
    hide SeqNo, ShutdownAll, EnumeratesKeys;
  }

  lemma TransportsKeepOrphan(env: Env, s: State, step: Step, k: nat)
    requires Enabled(env, s, step) && Orphaned(s, k) && Transports(step)
    ensures var s' := Apply(env, s, step);
            && Orphaned(s', k) && s'.client.pending[k] == s.client.pending[k] && s'.completions == s.completions
            && s'.client.doneClosed == s.client.doneClosed
  {
    hide Apply, Enabled, SeqNo;
    TransportsKeepAll(env, s, step);
  }

  lemma StepOrphaned(env: Env, s: State, step: Step, k: nat)
    requires Enabled(env, s, step) && Orphaned(s, k) && s.client.pending[k] < |s.calls|
    ensures var s' := Apply(env, s, step);
            && Orphaned(s', k) && s'.client.pending[k] == s.client.pending[k] < |s'.calls|
            && Uncompleted(s, s', s.client.pending[k]) && s'.client.doneClosed == s.client.doneClosed
  {
    hide Orphaned, Apply, Enabled;
    IssuedStep(env, s, step);
    if Sends(step) {
      SendsKeepOrphan(env, s, step, k);
    } else if Transports(step) {
      TransportsKeepOrphan(env, s, step, k);
    } else if ChangesStatus(step) {
      StatusKeepsOrphan(env, s, step, k);
    } else if step.TakeResponse? {
      TakesKeepOrphan(env, s, k);
    } else if step.Deliver? {
      DeliverKeepsOrphan(env, s, k);
    } else {
      ReadsKeepOrphan(env, s, step, k);
    }
  }

  /**
   * After keepalive has closed the connection its pending calls are never completed on any continuation, and
   * `doneChan` is never closed later: a later `Close` has no effect.
   */
  lemma {:induction false} NeverCompleted(env: Env, s: State, k: nat, states: seq<State>, steps: seq<Step>, i: nat)
    requires Path(env, s, states, steps) && i <= |steps| && Orphaned(s, k) && s.client.pending[k] < |s.calls|
    ensures Orphaned(states[i], k) && states[i].client.pending[k] == s.client.pending[k] < |states[i].calls|
    ensures Uncompleted(s, states[i], s.client.pending[k])
    ensures states[i].client.doneClosed == s.client.doneClosed
  {
    hide Apply, Enabled, Orphaned;
    if i > 0 {
      NeverCompleted(env, s, k, states, steps, i - 1);
      StepOrphaned(env, states[i - 1], steps[i - 1], k);
    }
  }

  /** Some continuation completes the call with anything but ErrShutdown. */
  ghost predicate CanConclude(env: Env, s: State, id: nat) {
    exists states: seq<State>, steps: seq<Step> :: Path(env, s, states, steps) && Concluded(states[|steps|], id)
  }

  predicate Concluded(s: State, id: nat) {
    exists c :: c in s.completions && c.call == id && !c.outcome.WasShutdown?
  }

  lemma {:induction false} AnswersCounted(cs: seq<Completion>, c: Completion)
    requires c in cs && !c.outcome.WasShutdown?
    ensures Count(cs, c.call, false) > 0
  {
    if c != cs[|cs| - 1] {
      AnswersCounted(cs[..|cs| - 1], c);
    }
  }

  /** A pending call has not been completed with anything but ErrShutdown. */
  lemma PendingUnanswered(s: State, k: nat)
    requires Balanced(BookOf(s)) && Counted(s) && k in s.client.pending
    ensures !Concluded(s, s.client.pending[k])
    ensures s.input.Delivering? ==> s.input.call != Some(s.client.pending[k])
  {
    BalancedSeparated(s);
    var id := s.client.pending[k];
    assert Count(s.completions, id, false) == 0;
    forall c | c in s.completions && c.call == id && !c.outcome.WasShutdown?
      ensures false
    {
      AnswersCounted(s.completions, c);
    }
  }

  /** The state after keepalive's close. */
  ghost function AfterKeepalive(env: Env, s: State): State
    requires Enabled(env, s, KeepaliveFails)
  {
    Apply(env, s, KeepaliveFails)
  }

  lemma KeepaliveLeaves(env: Env, s: State, k: nat)
    requires Enabled(env, s, KeepaliveFails) && Separated(s) && Attentive(s)
    requires s.client.status == Available && k in s.client.pending && k !in s.senders
    requires !(s.input.Got? && SeqNo(s.input.msg.header) == k)
    requires s.input.Delivering? ==> s.input.call != Some(s.client.pending[k])
    ensures Orphaned(AfterKeepalive(env, s), k)
  {
    hide SeqNo;
  }

  lemma FinishAnswers(s: State, k: nat, outcome: Ending)
    requires k in s.client.pending && !outcome.WasShutdown?
    ensures Concluded(TakeAndFinish(s, k, outcome), s.client.pending[k])
  {
    var s' := TakeAndFinish(s, k, outcome);
    assert s'.completions[|s.completions|] == Completion(s.client.pending[k], outcome, |s.heard|);
  }

  /** A send that is still going on can end, and its end completes the call. */
  lemma SendEnds(env: Env, s: State, k: nat)
    requires s.crashed == None && MutexFree(s) && k in s.senders && k in s.client.pending
    ensures CanConclude(env, s, s.client.pending[k])
  {
    hide Request, TakeAndFinish, Concluded;
    if Unsent(s, k) && RequestOf(env, s, k) == None {
      FinishAnswers(s, k, NotEncoded);
      OneStep(env, s, EncodeFail(k), s.client.pending[k]);
    } else {
      FinishAnswers(s, k, NotWritten);
      OneStep(env, s, WriteFail(k), s.client.pending[k]);
    }
  }

  lemma OneStep(env: Env, s: State, step: Step, id: nat)
    requires Enabled(env, s, step) && Concluded(Apply(env, s, step), id)
    ensures CanConclude(env, s, id)
  {
    hide Apply, Enabled, Concluded;
    var states, steps := [s, Apply(env, s, step)], [step];
    assert Path(env, s, states, steps);
    assert Concluded(states[|steps|], id);
  }

  /** A response in hand is delivered, also on a closed connection. */
  lemma HandEnds(env: Env, s: State, k: nat)
    requires s.crashed == None && s.input.Got? && SeqNo(s.input.msg.header) == k
    requires k in s.client.pending && s.client.pending[k] < |s.calls|
    ensures CanConclude(env, s, s.client.pending[k])
  {
    hide SeqNo, IsHeartbeat, OutcomeOf, Concluded, Apply, Enabled;
    var id := s.client.pending[k];
    TakesFor(env, s, k);
    var s1 := Apply(env, s, TakeResponse);
    DeliversTo(env, s1, id);
    var s2 := Apply(env, s1, Deliver);
    var states, steps := [s, s1, s2], [TakeResponse, Deliver];
    assert Path(env, s, states, steps) && Concluded(states[|steps|], id);
  }

  lemma TakesFor(env: Env, s: State, k: nat)
    requires s.crashed == None && s.input.Got? && SeqNo(s.input.msg.header) == k && k in s.client.pending
    ensures Enabled(env, s, TakeResponse)
    ensures var s' := Apply(env, s, TakeResponse);
            && s'.crashed == None && s'.calls == s.calls
            && s'.input.Delivering? && s'.input.call == Some(s.client.pending[k])
  {
    hide SeqNo;
  }

  lemma DeliversTo(env: Env, s: State, id: nat)
    requires s.crashed == None && s.input.Delivering? && s.input.call == Some(id) && id < |s.calls|
    ensures Enabled(env, s, Deliver) && Concluded(Apply(env, s, Deliver), id)
  {
    hide IsHeartbeat, OutcomeOf;
    var s' := Apply(env, s, Deliver);
    NeverShutdown(env, s.calls[id].want, s.input.msg);
    assert s'.completions[|s.completions|].call == id;
  }

  lemma NeverConcludes(env: Env, s: State, k: nat)
    requires Orphaned(s, k) && s.client.pending[k] < |s.calls| && !Concluded(s, s.client.pending[k])
    ensures !CanConclude(env, s, s.client.pending[k])
  {
    var id := s.client.pending[k];
    hide Orphaned, Apply, Enabled;
    forall states: seq<State>, steps: seq<Step> | Path(env, s, states, steps)
      ensures !Concluded(states[|steps|], id)
    {
      NeverCompleted(env, s, k, states, steps, |steps|);
    }
  }

  /**
   * Exactly which calls survive keepalive's close: of the calls then pending, those whose send has not ended and the
   * one whose response is in hand can still be completed by something else than a close, and no other ever is.
   */
  lemma KeepaliveOrphans(env: Env, states: seq<State>, steps: seq<Step>, i: nat, k: nat)
    requires ShortRun(env, states, steps) && i <= |steps|
    requires Enabled(env, states[i], KeepaliveFails) && states[i].client.status == Available
    requires k in states[i].client.pending
    ensures var s := states[i];
            CanConclude(env, AfterKeepalive(env, s), s.client.pending[k])
            <==> k in s.senders || (s.input.Got? && SeqNo(s.input.msg.header) == k)
  {
    var s := states[i];
    RunBalanced(env, states, steps, i);
    RunCounted(env, states, steps, i);
    RunAttentive(env, states, steps, i);
    KnownKey(s, k);
    PendingUnanswered(s, k);
    BalancedSeparated(s);
    hide Balanced, Counted, Separated, CanConclude, Concluded, Attentive, Orphaned, SeqNo;
    assert KeepsTable(s, AfterKeepalive(env, s)) by { KeepaliveKeepsTable(env, s); }
    if k in s.senders {
      SendEnds(env, AfterKeepalive(env, s), k);
    } else if s.input.Got? && SeqNo(s.input.msg.header) == k {
      HandEnds(env, AfterKeepalive(env, s), k);
    } else {
      KeepaliveLeaves(env, s, k);
      assert !Concluded(AfterKeepalive(env, s), s.client.pending[k]) by {
        SameAnswers(s, AfterKeepalive(env, s), s.client.pending[k]);
      }
      NeverConcludes(env, AfterKeepalive(env, s), k);
    }
  }

  ghost predicate KeepsTable(s: State, s': State) {
    && BookOf(s') == BookOf(s) && s'.calls == s.calls && s'.completions == s.completions && s'.input == s.input
    && s'.crashed == None && MutexFree(s')
  }

  lemma KeepaliveKeepsTable(env: Env, s: State)
    requires Enabled(env, s, KeepaliveFails)
    ensures KeepsTable(s, AfterKeepalive(env, s))
  {
  }

  lemma SameAnswers(s: State, s': State, id: nat)
    requires s'.completions == s.completions && !Concluded(s, id)
    ensures !Concluded(s', id)
  {
  }
}
