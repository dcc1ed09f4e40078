/** How often a call is completed, exactly: by its response or failed send, and by the closes it was pending at. */
module Completions {
  import opened Bytes
  import Frame
  import opened Header
  import opened Server
  import opened Transitions
  import opened Connection
  import opened Ledger

  /** The completions of a call with ErrShutdown, or those with any other outcome. */
  function Count(cs: seq<Completion>, id: nat, shutdown: bool): nat {
    if cs == [] then 0
    else
      var last := cs[|cs| - 1];
      Count(cs[..|cs| - 1], id, shutdown) + if last.call == id && last.outcome.WasShutdown? == shutdown then 1 else 0
  }

  /** At how many of the closes the call was pending. */
  function Occurs(closes: seq<set<nat>>, id: nat): nat {
    if closes == [] then 0
    else Occurs(closes[..|closes| - 1], id) + if id in closes[|closes| - 1] then 1 else 0
  }

  lemma CountOne(cs: seq<Completion>, c: Completion, id: nat, shutdown: bool)
    ensures Count(cs + [c], id, shutdown)
         == Count(cs, id, shutdown) + if c.call == id && c.outcome.WasShutdown? == shutdown then 1 else 0
  {
    assert (cs + [c])[..|cs|] == cs;
  }

  lemma OccursOne(closes: seq<set<nat>>, pending: set<nat>, id: nat)
    ensures Occurs(closes + [pending], id) == Occurs(closes, id) + if id in pending then 1 else 0
  {
    assert (closes + [pending])[..|closes|] == closes;
  }

  lemma {:induction false} CountAppend(a: seq<Completion>, b: seq<Completion>, id: nat, shutdown: bool)
    ensures Count(a + b, id, shutdown) == Count(a, id, shutdown) + Count(b, id, shutdown)
    decreases |b|
  {
    if b == [] {
      assert a + b == a;
    } else {
      CountAppend(a, b[..|b| - 1], id, shutdown);
      assert (a + b)[..|a + b| - 1] == a + b[..|b| - 1];
    }
  }

  lemma CountFirst(c: Completion, cs: seq<Completion>, id: nat, shutdown: bool)
    ensures Count([c] + cs, id, shutdown)
         == (if c.call == id && c.outcome.WasShutdown? == shutdown then 1 else 0) + Count(cs, id, shutdown)
  {
    CountAppend([c], cs, id, shutdown);
    assert [c][..0] == [];
  }

  /** A close completes each pending call exactly once, in whatever order it visits them. */
  lemma {:induction false} CountShutdown(keys: seq<nat>, pending: map<nat, nat>, at: nat, id: nat)
    requires Distinct(pending)
    requires forall i, j | 0 <= i < j < |keys| :: keys[i] != keys[j]
    requires forall k | k in keys :: k in pending
    ensures Count(ShutdownAll(keys, pending, at), id, false) == 0
    ensures Count(ShutdownAll(keys, pending, at), id, true)
         == if exists k :: k in keys && pending[k] == id then 1 else 0
  {
    if keys != [] {
      var rest := keys[1..];
      CountShutdown(rest, pending, at, id);
      assert forall k :: k in keys <==> k == keys[0] || k in rest;
      assert forall k | k in rest :: k != keys[0];
      var c := Completion(pending[keys[0]], WasShutdown, at);
      CountFirst(c, ShutdownAll(rest, pending, at), id, true);
      CountFirst(c, ShutdownAll(rest, pending, at), id, false);
    }
  }

  /** The call has been taken, and its response or failed send has been dealt with. */
  predicate Settled(s: State, id: nat) {
    id in s.taken.Values && !(s.input.Delivering? && s.input.call == Some(id))
  }

  ghost predicate Counted(s: State) {
    && (forall id: nat :: Count(s.completions, id, false) == if Settled(s, id) then 1 else 0)
    && (forall id: nat ::
          Count(s.completions, id, true) == (if id in s.refused then 1 else 0) + Occurs(s.closes, id))
    && (s.input.Delivering? && s.input.call.Some? ==> s.input.call.value in s.taken.Values)
  }

  /** The facts about the table that counting needs. */
  ghost predicate Separated(s: State) {
    && Distinct(s.client.pending)
    && (forall k | k in s.client.pending :: s.client.pending[k] !in s.taken.Values)
    && (forall id | id in s.refused :: id < |s.calls|)
    && s.client.pending.Keys !! s.taken.Keys
  }

  lemma PartsApart(p: map<nat, nat>, t: map<nat, nat>)
    requires Distinct(p + t) && p.Keys !! t.Keys
    ensures Distinct(p) && forall k | k in p :: p[k] !in t.Values
  {
    var all := p + t;
    forall k | k in p
      ensures p[k] !in t.Values
    {
      assert all[k] == p[k];
      forall j | j in t
        ensures t[j] != p[k]
      {
        assert all[j] == t[j];
      }
    }
    assert forall k | k in p :: all[k] == p[k];
  }

  lemma BalancedSeparated(s: State)
    requires Balanced(BookOf(s))
    ensures Separated(s)
  {
    hide KeysUpTo, SendersKnown, Distinct;
    PartsApart(s.client.pending, s.taken);
  }

  lemma ValuesAdd(m: map<nat, nat>, k: nat, v: nat)
    requires k !in m
    ensures m[k := v].Values == m.Values + {v}
  {
    var m' := m[k := v];
    forall x | x in m.Values
      ensures x in m'.Values
    {
      var j :| j in m && m[j] == x;
      assert m'[j] == x;
    }
    assert m'[k] == v;
  }

  lemma FinishCounted(s: State, k: nat, outcome: Ending)
    requires Counted(s) && Separated(s) && !outcome.WasShutdown?
    ensures Counted(TakeAndFinish(s, k, outcome))
  {
    hide Count, Occurs;
    if k in s.client.pending {
      var c := Completion(s.client.pending[k], outcome, |s.heard|);
      ValuesAdd(s.taken, k, c.call);
      forall x: nat, shutdown: bool
        ensures Count(s.completions + [c], x, shutdown)
             == Count(s.completions, x, shutdown) + if c.call == x && !shutdown then 1 else 0
      {
        CountOne(s.completions, c, x, shutdown);
      }
    }
  }

  lemma RefuseCounted(env: Env, s: State, call: Call, now: int)
    requires Counted(s) && Separated(s) && Enabled(env, s, Send(call, now))
    ensures Counted(Apply(env, s, Send(call, now)))
  {
    hide Count, Occurs;
    var c := Completion(|s.calls|, WasShutdown, |s.heard|);
    forall x: nat, shutdown: bool
      ensures Count(s.completions + [c], x, shutdown)
           == Count(s.completions, x, shutdown) + if c.call == x && shutdown then 1 else 0
    {
      CountOne(s.completions, c, x, shutdown);
    }
  }

  lemma TakeResponseCounted(env: Env, s: State)
    requires Counted(s) && Separated(s) && Enabled(env, s, TakeResponse)
    ensures Counted(Apply(env, s, TakeResponse))
  {
    hide Count, Occurs, SeqNo;
    var k := SeqNo(s.input.msg.header);
    if k in s.client.pending {
      ValuesAdd(s.taken, k, s.client.pending[k]);
    }
  }

  lemma DeliverCounted(env: Env, s: State)
    requires Counted(s) && Separated(s) && Enabled(env, s, Deliver)
    ensures Counted(Apply(env, s, Deliver))
  {
    hide Count, Occurs, OutcomeOf, IsHeartbeat;
    var s' := Apply(env, s, Deliver);
    if s.input.call.Some? {
      var c := s'.completions[|s.completions|];
      assert !c.outcome.WasShutdown? by { NeverShutdown(env, s.calls[c.call].want, s.input.msg); }
      forall x: nat, shutdown: bool
        ensures Count(s'.completions, x, shutdown)
             == Count(s.completions, x, shutdown) + if c.call == x && !shutdown then 1 else 0
      {
        CountOne(s.completions, c, x, shutdown);
      }
    }
  }

  lemma NeverShutdown(env: Env, want: Shape, msg: Frame.Msg)
    ensures !OutcomeOf(env, want, msg).WasShutdown?
  {
    hide StatusType, SerializeType;
  }

  /** An effective close adds one completion to every pending call and to no other. */
  lemma CloseCompletesEach(env: Env, s: State, keys: seq<nat>, id: nat)
    requires Distinct(s.client.pending) && Enabled(env, s, CloseCall(keys)) && Closes(s.client)
    ensures var s' := Apply(env, s, CloseCall(keys));
            && s'.completions == s.completions + ShutdownAll(keys, s.client.pending, |s.heard|)
            && Count(s'.completions, id, true)
               == Count(s.completions, id, true) + (if id in s.client.pending.Values then 1 else 0)
            && Count(s'.completions, id, false) == Count(s.completions, id, false)
            && s'.client.pending == s.client.pending && s'.closes == s.closes + [s.client.pending.Values]
  {
    CountShutdown(keys, s.client.pending, |s.heard|, id);
    CountAppend(s.completions, ShutdownAll(keys, s.client.pending, |s.heard|), id, true);
    CountAppend(s.completions, ShutdownAll(keys, s.client.pending, |s.heard|), id, false);
  }

  lemma CloseCounted(env: Env, s: State, keys: seq<nat>)
    requires Counted(s) && Separated(s) && Enabled(env, s, CloseCall(keys))
    ensures Counted(Apply(env, s, CloseCall(keys)))
  {
    if Closes(s.client) {
      hide Count, Occurs, ShutdownAll;
      var s' := Apply(env, s, CloseCall(keys));
      forall id: nat
        ensures Count(s'.completions, id, true)
             == Count(s.completions, id, true) + if id in s.client.pending.Values then 1 else 0
        ensures Count(s'.completions, id, false) == Count(s.completions, id, false)
        ensures Occurs(s'.closes, id) == Occurs(s.closes, id) + if id in s.client.pending.Values then 1 else 0
      {
        CloseCompletesEach(env, s, keys, id);
        OccursOne(s.closes, s.client.pending.Values, id);
      }
    }
  }

  /** The other steps complete no call and take no entry. */
  predicate CompletesNothing(step: Step) {
    !step.Send? && !step.EncodeFail? && !step.WriteFail? && !step.CloseCall? && !step.TakeResponse? && !step.Deliver?
  }

  ghost predicate SameCounts(s: State, s': State) {
    && s'.completions == s.completions && s'.taken == s.taken && s'.refused == s.refused && s'.closes == s.closes
    && (s'.input == s.input || (!s.input.Delivering? && !s'.input.Delivering?))
  }

  lemma OtherKeeps(env: Env, s: State, step: Step)
    requires Enabled(env, s, step) && CompletesNothing(step)
    ensures SameCounts(s, Apply(env, s, step))
  {
    hide Request, Response, Possible, Frame.Decode, Frame.Encoded, SeqNo, IsHeartbeat, OwnMetadata;
    hide TakeAndFinish, EnumeratesKeys, Closes, BeginReconnect, Framed;
  }

  lemma OtherCounted(env: Env, s: State, step: Step)
    requires Counted(s) && Enabled(env, s, step) && CompletesNothing(step)
    ensures Counted(Apply(env, s, step))
  {
    hide Count, Occurs, Apply, Enabled;
    OtherKeeps(env, s, step);
  }

  lemma StepCounted(env: Env, s: State, step: Step)
    requires Counted(s) && Balanced(BookOf(s)) && Enabled(env, s, step)
    ensures Counted(Apply(env, s, step))
  {
    hide Balanced, Counted, Separated, Request, Response, Possible, Frame.Decode, Frame.Encoded, OutcomeOf;
    hide ShutdownAll, SeqNo, IsHeartbeat, TakeAndFinish, Framed;
    BalancedSeparated(s);
    match step
    case Send(call, now) => RefuseCounted(env, s, call, now);
    case EncodeFail(k) => FinishCounted(s, k, NotEncoded);
    case WriteFail(k) => FinishCounted(s, k, NotWritten);
    case TakeResponse => TakeResponseCounted(env, s);
    case Deliver => DeliverCounted(env, s);
    case CloseCall(keys) => CloseCounted(env, s, keys);
    case _ => OtherCounted(env, s, step);
  }

  lemma {:induction false} RunCounted(env: Env, states: seq<State>, steps: seq<Step>, i: nat)
    requires ShortRun(env, states, steps) && i <= |steps|
    ensures Counted(states[i])
  {
    if i > 0 {
      hide Counted, Balanced, Apply, Enabled;
      RunCounted(env, states, steps, i - 1);
      RunBalanced(env, states, steps, i - 1);
      StepCounted(env, states[i - 1], steps[i - 1]);
    }
  }

  /**
   * Conservation, in every state of every run with fewer than 2^64 calls, whatever is lost or fails: `seq` is the
   * number of pending calls plus the number taken, no call is under two keys, and registration never overwrites.
   * Completions other than with ErrShutdown number exactly one for a call whose taking, by a response or by a failed
   * send, has been dealt with, and none before. Those with ErrShutdown are exactly its refusal and the effective
   * closes at which it was pending.
   */
  lemma ConservationOfCalls(env: Env, states: seq<State>, steps: seq<Step>, i: nat)
    requires ShortRun(env, states, steps) && i <= |steps|
    ensures var s := states[i];
            && s.client.seqNo == |s.client.pending| + |s.taken|
            && (forall k | k in s.client.pending :: 1 <= k <= s.client.seqNo && k !in s.taken)
            && Distinct(s.client.pending + s.taken)
            && (forall k | k in s.client.pending + s.taken :: (s.client.pending + s.taken)[k] !in s.refused)
            && Next64(s.client.seqNo) !in s.client.pending
            && (forall id: nat :: Count(s.completions, id, false) == if Settled(s, id) then 1 else 0)
            && (forall id: nat ::
                  Count(s.completions, id, true) == (if id in s.refused then 1 else 0) + Occurs(s.closes, id))
  {
    var s := states[i];
    RunBalanced(env, states, steps, i);
    RunCounted(env, states, steps, i);
    Conservation(s);
  }
}
