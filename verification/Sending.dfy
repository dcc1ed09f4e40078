/** When the client last sent something, as keepalive reads it. */
module Sending {
  import Frame
  import opened Header
  import opened Server
  import opened Transitions
  import opened Connection
  import opened InFlight

  /** The step has registered a call. */
  predicate Registers(s: State, step: Step, s': State) { step.Send? && s'.issued == s.issued + 1 }

  lemma SendStamps(env: Env, s: State, call: Call, now: int)
    requires Enabled(env, s, Send(call, now))
    ensures var s' := Apply(env, s, Send(call, now));
            && (Registers(s, Send(call, now), s') <==> s.client.status == Available)
            && s'.client.lastSend == if s.client.status == Available then now else s.client.lastSend
  {
  }

  lemma FinishStamps(s: State, k: nat, outcome: Ending)
    ensures TakeAndFinish(s, k, outcome).client.lastSend == s.client.lastSend
  {
  }

  lemma CarriageStamps(env: Env, s: State, step: Step)
    requires Enabled(env, s, step) && (Carriage(step) || step.Leave? || step.WriteOk?)
    ensures Apply(env, s, step).client.lastSend == s.client.lastSend
  {
    hide Request, Response, Possible, Frame.Decode, Frame.Encoded, Framed, IsHeartbeat, Echo;
  }

  lemma InputStamps(env: Env, s: State, step: Step)
    requires Enabled(env, s, step) && (step.Read? || step.TakeResponse? || step.Deliver?)
    ensures Apply(env, s, step).client.lastSend == s.client.lastSend
  {
    hide Frame.Decode, OwnMetadata, SeqNo, IsHeartbeat, OutcomeOf;
  }

  lemma StatusStamps(env: Env, s: State, step: Step)
    requires Enabled(env, s, step) && Quiet(step) && !step.Deliver?
    ensures Apply(env, s, step).client.lastSend == s.client.lastSend
  {
    hide ShutdownAll, EnumeratesKeys;
  }

  /** Only a registration sets the time, and to its own. */
  lemma StepStamps(env: Env, s: State, step: Step)
    requires Enabled(env, s, step)
    ensures var s' := Apply(env, s, step);
            s'.client.lastSend == if Registers(s, step, s') then step.now else s.client.lastSend
  {
    hide Request, TakeAndFinish;
    match step {
      case Send(call, now) => SendStamps(env, s, call, now);
      case EncodeFail(k) => FinishStamps(s, k, NotEncoded);
      case WriteFail(k) => FinishStamps(s, k, NotWritten);
      case _ => OthersStamp(env, s, step);
    }
  }

  lemma OthersStamp(env: Env, s: State, step: Step)
    requires Enabled(env, s, step) && !step.Send? && !step.EncodeFail? && !step.WriteFail?
    ensures Apply(env, s, step).client.lastSend == s.client.lastSend
  {
    hide Apply, Enabled;
    if Carriage(step) || step.Leave? || step.WriteOk? {
      CarriageStamps(env, s, step);
    } else if step.Read? || step.TakeResponse? || step.Deliver? {
      InputStamps(env, s, step);
    } else {
      StatusStamps(env, s, step);
    }
  }

  predicate RegistersAt(states: seq<State>, steps: seq<Step>, i: nat)
    requires |states| == |steps| + 1 && i < |steps|
  {
    Registers(states[i], steps[i], states[i + 1])
  }

  /** The time of the last registration before position `i` of the run, zero if there was none. */
  ghost predicate LastRegistered(states: seq<State>, steps: seq<Step>, i: nat, time: int)
    requires |states| == |steps| + 1 && i <= |steps|
  {
    if forall j: nat | j < i :: !RegistersAt(states, steps, j) then time == 0
    else
      exists j: nat ::
        && j < i && RegistersAt(states, steps, j) && time == steps[j].now
        && forall l: nat | j < l < i :: !RegistersAt(states, steps, l)
  }

  /** In every run `lastSend` is the time of the last call that was registered. */
  lemma {:induction false} LastSendExactly(env: Env, states: seq<State>, steps: seq<Step>, i: nat)
    requires Run(env, states, steps) && i <= |steps|
    ensures LastRegistered(states, steps, i, states[i].client.lastSend)
  {
    hide Apply, Enabled, Registers;
    if i > 0 {
      LastSendExactly(env, states, steps, i - 1);
      StepStamps(env, states[i - 1], steps[i - 1]);
      assert RegistersAt(states, steps, i - 1) || !RegistersAt(states, steps, i - 1);
    }
  }
}
