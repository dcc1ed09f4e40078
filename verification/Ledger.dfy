/** Conservation of calls: every registration sits under one key or has been taken once. */
module Ledger {
  import opened Bytes
  import Frame
  import opened Header
  import opened Server
  import opened Transitions
  import opened Connection

  function KeysUpTo(n: nat): (keys: set<nat>)
    ensures forall k :: k in keys <==> 1 <= k <= n
    ensures |keys| == n
  {
    if n == 0 then {} else KeysUpTo(n - 1) + {n}
  }

  /** `table` never maps two keys to one call. */
  ghost predicate Distinct(table: map<nat, nat>) {
    forall j, k | j in table && k in table && j != k :: table[j] != table[k]
  }

  /** The part of the state that registrations and takes change; `calls` is how many calls were made. */
  datatype Book = Book(
    seqNo: nat, issued: nat, calls: nat, pending: map<nat, nat>, taken: map<nat, nat>, refused: set<nat>,
    senders: map<nat, Sender>)

  function BookOf(s: State): Book {
    Book(s.client.seqNo, s.issued, |s.calls|, s.client.pending, s.taken, s.refused, s.senders)
  }

  /** Every registration there has been: the pending ones and the ones taken. */
  function Registered(b: Book): map<nat, nat> { b.pending + b.taken }

  ghost predicate KeysBalanced(pending: set<nat>, taken: set<nat>, n: nat) {
    pending !! taken && pending + taken == KeysUpTo(n)
  }

  /** No call was registered twice, none was registered and refused. */
  ghost predicate CallsBalanced(registered: map<nat, nat>, refused: set<nat>, calls: nat) {
    && Distinct(registered)
    && (forall k | k in registered :: registered[k] < calls)
    && (forall k | k in registered :: registered[k] !in refused)
    && (forall id | id in refused :: id < calls)
  }

  ghost predicate SendersKnown(registered: map<nat, nat>, senders: map<nat, Sender>) {
    forall k | k in senders :: k in registered && registered[k] == senders[k].call
  }

  /** The keys 1..seq are split between the table and the entries taken from it, and so are the calls. */
  ghost predicate Balanced(b: Book) {
    && b.seqNo == b.issued
    && KeysBalanced(b.pending.Keys, b.taken.Keys, b.issued)
    && CallsBalanced(Registered(b), b.refused, b.calls)
    && SendersKnown(Registered(b), b.senders)
  }

  lemma CallsRegister(registered: map<nat, nat>, refused: set<nat>, calls: nat, k: nat)
    requires CallsBalanced(registered, refused, calls) && k !in registered
    ensures CallsBalanced(registered[k := calls], refused, calls + 1)
  {
  }

  lemma CallsRefuse(registered: map<nat, nat>, refused: set<nat>, calls: nat)
    requires CallsBalanced(registered, refused, calls)
    ensures CallsBalanced(registered, refused + {calls}, calls + 1)
  {
  }

  lemma KeysRegister(pending: set<nat>, taken: set<nat>, n: nat)
    requires KeysBalanced(pending, taken, n)
    ensures n + 1 !in pending + taken && KeysBalanced(pending + {n + 1}, taken, n + 1)
  {
  }

  lemma KeysTake(pending: set<nat>, taken: set<nat>, n: nat, k: nat)
    requires KeysBalanced(pending, taken, n) && k in pending
    ensures KeysBalanced(pending - {k}, taken + {k}, n)
  {
    assert pending - {k} + (taken + {k}) == pending + taken;
  }

  lemma MapAdd(p: map<nat, nat>, t: map<nat, nat>, k: nat, v: nat)
    requires k !in t
    ensures p[k := v].Keys == p.Keys + {k}
    ensures p[k := v] + t == (p + t)[k := v]
  {
  }

  lemma MapMove(p: map<nat, nat>, t: map<nat, nat>, k: nat)
    requires k in p && p.Keys !! t.Keys
    ensures (p - {k}).Keys == p.Keys - {k} && t[k := p[k]].Keys == t.Keys + {k}
    ensures (p - {k}) + t[k := p[k]] == p + t
  {
  }

  lemma BookRegister(b: Book, k: nat, sender: Sender)
    requires Balanced(b) && k == b.issued + 1 && sender.call == b.calls
    ensures k !in Registered(b)
    ensures Balanced(Book(k, k, b.calls + 1, b.pending[k := b.calls], b.taken, b.refused, b.senders[k := sender]))
    ensures b.pending[k := b.calls] + b.taken == Registered(b)[k := b.calls]
  {
    hide KeysBalanced, CallsBalanced, KeysUpTo;
    KeysRegister(b.pending.Keys, b.taken.Keys, b.issued);
    assert k !in b.pending.Keys && k !in b.taken.Keys;
    CallsRegister(Registered(b), b.refused, b.calls, k);
    MapAdd(b.pending, b.taken, k, b.calls);
  }

  lemma BookRefuse(b: Book)
    requires Balanced(b)
    ensures Balanced(b.(calls := b.calls + 1, refused := b.refused + {b.calls}))
  {
    hide KeysBalanced, CallsBalanced;
    CallsRefuse(Registered(b), b.refused, b.calls);
  }

  /** Taking an entry moves it from one part to the other. */
  lemma BookTake(b: Book, k: nat)
    requires Balanced(b) && k in b.pending
    ensures k !in b.taken
    ensures (b.pending - {k}) + b.taken[k := b.pending[k]] == Registered(b)
    ensures Balanced(b.(pending := b.pending - {k}, taken := b.taken[k := b.pending[k]]))
  {
    hide CallsBalanced, SendersKnown;
    KeysTake(b.pending.Keys, b.taken.Keys, b.issued, k);
    MapMove(b.pending, b.taken, k);
  }

  lemma BookSenders(b: Book, senders: map<nat, Sender>)
    requires Balanced(b)
    requires forall k | k in senders :: k in b.senders && senders[k].call == b.senders[k].call
    ensures Balanced(b.(senders := senders))
  {
    hide CallsBalanced, KeysBalanced;
  }

  lemma SeqBalanced(b: Book)
    requires Balanced(b)
    ensures b.seqNo == b.issued
  {
  }

  /** What a registration does to the tables. */
  ghost predicate Files(s: State, s': State, k: nat) {
    && k == s.issued + 1 && k !in Registered(BookOf(s))
    && s'.client.pending == s.client.pending[k := |s.calls|]
    && s'.senders == s.senders[k := Sender(|s.calls|, s.client.conn, false)]
    && Registered(BookOf(s')) == Registered(BookOf(s))[k := |s.calls|]
  }

  ghost predicate SameTables(s: State, s': State) {
    && s'.client.pending == s.client.pending && s'.senders == s.senders && s'.taken == s.taken
    && Registered(BookOf(s')) == Registered(BookOf(s))
  }

  lemma SendFiles(env: Env, s: State, call: Call, now: int)
    requires Balanced(BookOf(s)) && Enabled(env, s, Send(call, now))
    requires Apply(env, s, Send(call, now)).issued < U64
    ensures var s' := Apply(env, s, Send(call, now));
            && s'.net == s.net && s'.input == s.input && s'.calls == s.calls + [call]
            && if s.client.status == Available then Files(s, s', s.issued + 1) else SameTables(s, s')
  {
    if s.client.status == Available {
      hide Balanced, Apply, Enabled, Files;
      SendAccepted(env, s, call, now);
    } else {
      hide Balanced, Registered;
    }
  }

  lemma SendAccepted(env: Env, s: State, call: Call, now: int)
    requires Balanced(BookOf(s)) && Enabled(env, s, Send(call, now)) && s.client.status == Available
    requires Apply(env, s, Send(call, now)).issued < U64
    ensures var s' := Apply(env, s, Send(call, now));
            s'.net == s.net && s'.input == s.input && s'.calls == s.calls + [call] && Files(s, s', s.issued + 1)
  {
    hide Balanced;
    SeqBalanced(BookOf(s));
    BookRegister(BookOf(s), s.issued + 1, Sender(|s.calls|, s.client.conn, false));
  }

  lemma SendBalanced(env: Env, s: State, call: Call, now: int)
    requires Balanced(BookOf(s)) && Enabled(env, s, Send(call, now))
    requires Apply(env, s, Send(call, now)).issued < U64
    ensures Balanced(BookOf(Apply(env, s, Send(call, now))))
  {
    hide Balanced;
    var b := BookOf(s);
    SeqBalanced(b);
    if s.client.status == Available {
      BookRegister(b, b.issued + 1, Sender(b.calls, s.client.conn, false));
    } else {
      BookRefuse(b);
    }
  }

  lemma FinishBalanced(s: State, k: nat, outcome: Ending)
    requires Balanced(BookOf(s)) && k in s.senders
    ensures Balanced(BookOf(TakeAndFinish(s, k, outcome)))
    ensures Registered(BookOf(TakeAndFinish(s, k, outcome))) == Registered(BookOf(s))
  {
    hide Balanced;
    var b := BookOf(s);
    if k in b.pending {
      BookTake(b, k);
      BookSenders(b.(pending := b.pending - {k}, taken := b.taken[k := b.pending[k]]), b.senders - {k});
    } else {
      BookSenders(b, b.senders - {k});
      assert b.pending - {k} == b.pending;
    }
  }

  lemma TakeResponseBalanced(env: Env, s: State)
    requires Balanced(BookOf(s)) && Enabled(env, s, TakeResponse)
    ensures Balanced(BookOf(Apply(env, s, TakeResponse)))
    ensures Registered(BookOf(Apply(env, s, TakeResponse))) == Registered(BookOf(s))
  {
    hide Balanced, SeqNo;
    var k := SeqNo(s.input.msg.header);
    if k in s.client.pending {
      BookTake(BookOf(s), k);
    } else {
      assert s.client.pending - {k} == s.client.pending;
    }
  }

  /** Steps that change neither the table nor the senders. */
  predicate KeepsBook(step: Step) {
    !step.Send? && !step.EncodeFail? && !step.WriteFail? && !step.WriteOk? && !step.Leave? && !step.TakeResponse?
  }

  lemma StatusKeepsBook(env: Env, s: State, step: Step)
    requires Enabled(env, s, step)
    requires step.StartReconnect? || step.Redialled? || step.RedialFailed? || step.KeepaliveFails? || step.CloseCall?
    ensures BookOf(Apply(env, s, step)) == BookOf(s)
  {
    hide ShutdownAll, EnumeratesKeys;
  }

  lemma DeliverKeepsBook(env: Env, s: State)
    requires Enabled(env, s, Deliver)
    ensures BookOf(Apply(env, s, Deliver)) == BookOf(s)
  {
    hide OutcomeOf, IsHeartbeat;
  }

  lemma CarriageKeepsBook(env: Env, s: State, step: Step)
    requires Enabled(env, s, step) && (step.Lose? || step.Accept? || step.Respond? || step.Read?)
    ensures BookOf(Apply(env, s, step)) == BookOf(s)
  {
    hide Response, Possible, Frame.Decode, Frame.Encoded, IsHeartbeat, Framed, OwnMetadata;
  }

  lemma EndKeepsBook(env: Env, s: State, step: Step)
    requires Enabled(env, s, step) && (step.ReadError? || step.InputTail? || step.ServerEnds?)
    ensures BookOf(Apply(env, s, step)) == BookOf(s)
  {
  }

  lemma BookKept(env: Env, s: State, step: Step)
    requires Enabled(env, s, step) && KeepsBook(step)
    ensures BookOf(Apply(env, s, step)) == BookOf(s)
  {
    hide Apply, Enabled, BookOf;
    if step.Deliver? {
      DeliverKeepsBook(env, s);
    } else if step.Lose? || step.Accept? || step.Respond? || step.Read? {
      CarriageKeepsBook(env, s, step);
    } else if step.ReadError? || step.InputTail? || step.ServerEnds? {
      EndKeepsBook(env, s, step);
    } else {
      StatusKeepsBook(env, s, step);
    }
  }

  lemma SenderBalanced(env: Env, s: State, step: Step)
    requires Balanced(BookOf(s)) && Enabled(env, s, step) && (step.Leave? || step.WriteOk?)
    ensures Balanced(BookOf(Apply(env, s, step)))
    ensures Registered(BookOf(Apply(env, s, step))) == Registered(BookOf(s))
  {
    hide Balanced, Request, Frame.Encoded;
    BookSenders(BookOf(s), Apply(env, s, step).senders);
  }

  /** Whatever arrives, and whatever writes fail before or after their frames have left. */
  lemma StepBalanced(env: Env, s: State, step: Step)
    requires Balanced(BookOf(s)) && Enabled(env, s, step) && Apply(env, s, step).issued < U64
    ensures Balanced(BookOf(Apply(env, s, step)))
  {
    hide Balanced, Request, Response, Possible, Frame.Decode, Frame.Encoded, OutcomeOf, ShutdownAll, SeqNo, IsHeartbeat;
    hide TakeAndFinish, Framed;
    match step
    case Send(call, now) => SendBalanced(env, s, call, now);
    case EncodeFail(k) => FinishBalanced(s, k, NotEncoded);
    case WriteFail(k) => FinishBalanced(s, k, NotWritten);
    case TakeResponse => TakeResponseBalanced(env, s);
    case Leave(_, _) => SenderBalanced(env, s, step);
    case WriteOk(_) => SenderBalanced(env, s, step);
    case _ => BookKept(env, s, step);
  }

  lemma KnownKey(s: State, k: nat)
    requires Balanced(BookOf(s)) && k in Registered(BookOf(s))
    ensures 1 <= k <= s.issued && Registered(BookOf(s))[k] < |s.calls|
    ensures k in s.client.pending <==> k !in s.taken
    ensures k in s.client.pending ==> Registered(BookOf(s))[k] == s.client.pending[k]
  {
    assert k in s.client.pending.Keys + s.taken.Keys;
  }

  /** `seq` counts the pending calls and the entries taken. */
  lemma Conservation(s: State)
    requires Balanced(BookOf(s))
    ensures s.client.seqNo == |s.client.pending| + |s.taken|
    ensures forall k | k in s.client.pending :: 1 <= k <= s.client.seqNo && k !in s.taken
  {
    assert |s.client.pending.Keys + s.taken.Keys| == |s.client.pending.Keys| + |s.taken.Keys|;
    forall k | k in s.client.pending
      ensures 1 <= k <= s.client.seqNo
    {
      assert k in KeysUpTo(s.issued);
    }
  }

  // Runs.

  lemma {:induction false} IssuedGrows(env: Env, s: State, states: seq<State>, steps: seq<Step>, i: nat, j: nat)
    requires Path(env, s, states, steps) && i <= j <= |steps|
    ensures states[i].issued <= states[j].issued
  {
    hide Apply, Enabled;
    if i < j {
      IssuedGrows(env, s, states, steps, i, j - 1);
      IssuedStep(env, states[j - 1], steps[j - 1]);
    }
  }

  /** Calls are only ever added. */
  ghost predicate Grows(s: State, s': State) { s.issued <= s'.issued && |s.calls| <= |s'.calls| }

  lemma SendGrows(env: Env, s: State, call: Call, now: int)
    requires Enabled(env, s, Send(call, now))
    ensures Grows(s, Apply(env, s, Send(call, now)))
  {
  }

  lemma FinishGrows(s: State, k: nat, outcome: Ending)
    ensures Grows(s, TakeAndFinish(s, k, outcome))
  {
  }

  lemma SendersGrow(env: Env, s: State, step: Step)
    requires Enabled(env, s, step) && (step.Leave? || step.WriteOk? || step.TakeResponse?)
    ensures Grows(s, Apply(env, s, step))
  {
    hide Request, Frame.Encoded, Framed, SeqNo;
  }

  lemma IssuedStep(env: Env, s: State, step: Step)
    requires Enabled(env, s, step)
    ensures Grows(s, Apply(env, s, step))
  {
    if KeepsBook(step) {
      hide Apply, Enabled;
      BookKept(env, s, step);
    } else {
      hide Grows, TakeAndFinish, Request, Frame.Encoded, Framed, SeqNo;
      match step
      case Send(call, now) => SendGrows(env, s, call, now);
      case EncodeFail(k) => FinishGrows(s, k, NotEncoded);
      case WriteFail(k) => FinishGrows(s, k, NotWritten);
      case _ => SendersGrow(env, s, step);
    }
  }

  /** A run with fewer than 2^64 registrations. */
  ghost predicate ShortRun(env: Env, states: seq<State>, steps: seq<Step>) {
    Run(env, states, steps) && states[|steps|].issued < U64
  }

  lemma {:induction false} RunBalanced(env: Env, states: seq<State>, steps: seq<Step>, i: nat)
    requires ShortRun(env, states, steps) && i <= |steps|
    ensures Balanced(BookOf(states[i]))
  {
    hide Balanced, Apply, Enabled;
    if i == 0 {
      StartBalanced();
    } else {
      RunBalanced(env, states, steps, i - 1);
      IssuedGrows(env, START, states, steps, i, |steps|);
      StepBalanced(env, states[i - 1], steps[i - 1]);
    }
  }

  lemma StartBalanced()
    ensures Balanced(BookOf(START))
  {
    assert BookOf(START) == Book(0, 0, 0, map[], map[], {}, map[]);
  }

  lemma FinishTaken(s: State, k: nat, outcome: Ending)
    requires forall j | j in s.client.pending :: j !in s.taken
    ensures var s' := TakeAndFinish(s, k, outcome);
            forall j | j in s.taken :: j in s'.taken && s'.taken[j] == s.taken[j]
  {
  }

  lemma TakenStep(env: Env, s: State, step: Step)
    requires forall j | j in s.client.pending :: j !in s.taken
    requires Enabled(env, s, step)
    ensures var s' := Apply(env, s, step);
            forall k | k in s.taken :: k in s'.taken && s'.taken[k] == s.taken[k]
  {
    hide Request, Response, Possible, Frame.Decode, Frame.Encoded, OutcomeOf, ShutdownAll, SeqNo, IsHeartbeat, Framed;
    hide TakeAndFinish;
    if KeepsBook(step) {
      hide Apply, Enabled;
      BookKept(env, s, step);
    } else {
      match step
      case EncodeFail(k) => FinishTaken(s, k, NotEncoded);
      case WriteFail(k) => FinishTaken(s, k, NotWritten);
      case _ =>
    }
  }

  /** What has been taken, by a response or by a failed send, is never pending and never taken again. */
  lemma {:induction false} TakenOnce(env: Env, states: seq<State>, steps: seq<Step>, i: nat, j: nat)
    requires ShortRun(env, states, steps) && i <= j <= |steps|
    ensures forall k | k in states[i].taken ::
              k in states[j].taken && states[j].taken[k] == states[i].taken[k] && k !in states[j].client.pending
    decreases j
  {
    hide Balanced, Apply, Enabled;
    RunBalanced(env, states, steps, j);
    Conservation(states[j]);
    if i < j {
      TakenOnce(env, states, steps, i, j - 1);
      RunBalanced(env, states, steps, j - 1);
      Conservation(states[j - 1]);
      TakenStep(env, states[j - 1], steps[j - 1]);
    }
  }
}
