/** The timing of heartbeats: on a connection that stays available the client is never silent for long. */
module Keepalive {

  /** The timer is armed, or a heartbeat waits for its answer. */
  datatype Phase = Waiting(due: real) | Beating(since: real)

  /** Times are in seconds since 1970. `sends` begins with the time at which the connection was opened. */
  datatype Timing = Timing(now: real, sends: seq<real>, lastSend: int, phase: Phase, delays: seq<int>)

  datatype Event = UserSend(at: real) | Fire | Answered(at: real)

  /** `heartBeatInterval` and the timeout of a heartbeat, in whole seconds. */
  datatype Config = Config(interval: int, timeout: int)

  const DEFAULTS := Config(5, 2)
  const MAX_IDLE_SECONDS := 10

  function Opened(at: real, c: Config): Timing {
    Timing(at, [at], 0, Waiting(at + c.interval as real), [])
  }

  /** No event of this phase comes later. */
  function Horizon(p: Phase, c: Config): real {
    match p
    case Waiting(due) => due
    case Beating(since) => since + c.timeout as real
  }

  predicate Possible(t: Timing, e: Event, c: Config) {
    match e
    case UserSend(at) => t.now <= at <= Horizon(t.phase, c)
    case Fire => t.phase.Waiting?
    case Answered(at) => t.phase.Beating? && t.now <= at <= Horizon(t.phase, c)
  }

  function Sent(t: Timing, at: real): Timing {
    t.(now := at, sends := t.sends + [at], lastSend := at.Floor)
  }

  /** One turn of the loop of `keepalive`, or a call of the user. */
  function After(t: Timing, e: Event, c: Config): Timing
    requires Possible(t, e, c)
  {
    match e
    case UserSend(at) => Sent(t, at)
    case Answered(at) => t.(now := at, phase := Waiting(at + c.interval as real))
    case Fire =>
      var at := t.phase.due;
      if at.Floor - t.lastSend < c.interval then
        var delay := t.lastSend + c.interval - at.Floor;
        t.(now := at, phase := Waiting(at + delay as real), delays := t.delays + [delay])
      else
        Sent(t, at).(phase := Beating(at))
  }

  ghost predicate Timeline(states: seq<Timing>, events: seq<Event>, c: Config) {
    && |states| == |events| + 1
    && (exists at :: at >= 0.0 && states[0] == Opened(at, c))
    && forall i | 0 <= i < |events| ::
         Possible(states[i], events[i], c) && states[i + 1] == After(states[i], events[i], c)
  }

  /** No two consecutive sends are more than `limit` seconds apart. */
  ghost predicate Gaps(sends: seq<real>, limit: real) {
    forall i, j | 0 <= i < j < |sends| && j == i + 1 :: sends[j] - sends[i] <= limit
  }

  function Bound(c: Config): real { (c.interval + c.timeout) as real }

  ghost predicate InTime(t: Timing, c: Config) {
    && t.sends != [] && Gaps(t.sends, Bound(c))
    && (forall d | d in t.delays :: 1 <= d <= c.interval)
    && var last := t.sends[|t.sends| - 1];
       && 0.0 <= last <= t.now <= Horizon(t.phase, c) <= last + Bound(c)
       && (|t.sends| > 1 ==> t.lastSend == last.Floor)
       && (|t.sends| == 1 ==> t.lastSend == 0 && t.phase == Waiting(last + c.interval as real))
       && (t.phase.Beating? ==> t.phase.since <= last)
  }

  lemma SentInTime(t: Timing, at: real, c: Config)
    requires c.interval >= 1 && c.timeout >= 1 && InTime(t, c) && t.now <= at <= Horizon(t.phase, c)
    ensures InTime(Sent(t, at), c)
    ensures t.phase == Waiting(at) ==> InTime(Sent(t, at).(phase := Beating(at)), c)
  {
  }

  /** A delay counted from the whole second of the last send is less than a second late. */
  lemma DelayInTime(t: Timing, c: Config)
    requires c.interval >= 1 && c.timeout >= 1 && InTime(t, c) && t.phase.Waiting?
    requires t.phase.due.Floor - t.lastSend < c.interval
    ensures InTime(After(t, Fire, c), c)
  {
  }

  lemma StepInTime(t: Timing, e: Event, c: Config)
    requires c.interval >= 1 && c.timeout >= 1 && InTime(t, c) && Possible(t, e, c)
    ensures InTime(After(t, e, c), c)
  {
    match e
    case UserSend(at) => SentInTime(t, at, c);
    case Answered(at) => AnsweredInTime(t, at, c);
    case Fire =>
      if t.phase.due.Floor - t.lastSend < c.interval {
        DelayInTime(t, c);
      } else {
        SentInTime(t, t.phase.due, c);
      }
  }

  lemma AnsweredInTime(t: Timing, at: real, c: Config)
    requires c.interval >= 1 && c.timeout >= 1 && InTime(t, c) && Possible(t, Answered(at), c)
    ensures InTime(After(t, Answered(at), c), c)
  {
  }

  lemma {:induction false} RunInTime(states: seq<Timing>, events: seq<Event>, c: Config, i: nat)
    requires c.interval >= 1 && c.timeout >= 1 && Timeline(states, events, c) && i <= |events|
    ensures InTime(states[i], c)
  {
    hide InTime, After, Possible;
    if i == 0 {
      OpenedInTime(states[0], c);
    } else {
      RunInTime(states, events, c, i - 1);
      StepInTime(states[i - 1], events[i - 1], c);
    }
  }

  lemma OpenedInTime(t: Timing, c: Config)
    requires c.interval >= 1 && c.timeout >= 1 && exists at :: at >= 0.0 && t == Opened(at, c)
    ensures InTime(t, c)
  {
  }

  ghost predicate GapsWithin(c: Config, limit: real) {
    forall states: seq<Timing>, events: seq<Event> | Timeline(states, events, c) ::
      Gaps(states[|events|].sends, limit)
  }

  /**
   * In every run the client sends within `interval + timeout` seconds of its last send, nothing later can happen
   * first, and every delay computed from `lastSend` is between one second and the interval.
   */
  lemma NeverSilent(states: seq<Timing>, events: seq<Event>, c: Config, i: nat)
    requires c.interval >= 1 && c.timeout >= 1 && Timeline(states, events, c) && i <= |events|
    ensures var t := states[i];
            && t.sends != [] && Gaps(t.sends, Bound(c))
            && Horizon(t.phase, c) - t.sends[|t.sends| - 1] <= Bound(c)
            && forall d | d in t.delays :: 1 <= d <= c.interval
  {
    RunInTime(states, events, c, i);
  }

  /**
   * A tick sends a heartbeat exactly if the interval has passed since the whole second of the last send. Otherwise the
   * timer is set to the rest of it, and falls due within a second of the last send plus the interval.
   */
  lemma TickExactly(states: seq<Timing>, events: seq<Event>, c: Config, i: nat)
    requires c.interval >= 1 && c.timeout >= 1 && Timeline(states, events, c) && i < |events| && events[i] == Fire
    ensures states[i].phase.Waiting? && states[i].sends != []
    ensures var t, t', at := states[i], states[i + 1], states[i].phase.due;
            var last := t.sends[|t.sends| - 1];
            if at.Floor - t.lastSend >= c.interval then
              t'.sends == t.sends + [at] && t'.phase == Beating(at) && t'.lastSend == at.Floor
            else
              && t'.sends == t.sends && t'.lastSend == t.lastSend == last.Floor && t'.phase.Waiting?
              && 0.0 <= t'.phase.due - (t.lastSend + c.interval) as real < 1.0
              && -1.0 < t'.phase.due - (last + c.interval as real) < 1.0
  {
    hide InTime, After, Possible;
    RunInTime(states, events, c, i);
    TickInTime(states[i], c);
  }

  lemma TickInTime(t: Timing, c: Config)
    requires c.interval >= 1 && c.timeout >= 1 && InTime(t, c) && Possible(t, Fire, c)
    ensures t.phase.Waiting? && t.sends != []
    ensures var t', at := After(t, Fire, c), t.phase.due;
            var last := t.sends[|t.sends| - 1];
            if at.Floor - t.lastSend >= c.interval then
              t'.sends == t.sends + [at] && t'.phase == Beating(at) && t'.lastSend == at.Floor
            else
              && t'.sends == t.sends && t'.lastSend == t.lastSend == last.Floor && t'.phase.Waiting?
              && 0.0 <= t'.phase.due - (t.lastSend + c.interval) as real < 1.0
              && -1.0 < t'.phase.due - (last + c.interval as real) < 1.0
  {
  }

  /** After the answer to a heartbeat the timer is set to the whole interval again; a send leaves it alone. */
  lemma OtherEventsExactly(states: seq<Timing>, events: seq<Event>, c: Config, i: nat)
    requires Timeline(states, events, c) && i < |events| && events[i] != Fire
    ensures var t, t', at := states[i], states[i + 1], events[i].at;
            if events[i].Answered? then
              t'.sends == t.sends && t'.lastSend == t.lastSend && t'.phase == Waiting(at + c.interval as real)
            else
              t'.sends == t.sends + [at] && t'.lastSend == at.Floor && t'.phase == t.phase
  {
  }

  /** The slowest run: a heartbeat at the first tick, an answer at its deadline, and the next heartbeat. */
  lemma SlowestRun(c: Config) returns (states: seq<Timing>, events: seq<Event>)
    requires c.interval >= 1 && c.timeout >= 1
    ensures Timeline(states, events, c) && |states[|events|].sends| == 3
    ensures var sends := states[|events|].sends; sends[2] - sends[1] == Bound(c)
  {
    var first, answer := c.interval as real, Bound(c);
    var s0 := Opened(0.0, c);
    var s1 := After(s0, Fire, c);
    var s2 := After(s1, Answered(answer), c);
    var s3 := After(s2, Fire, c);
    assert s1.sends == [0.0, first] && s1.phase == Beating(first);
    assert (answer + c.interval as real).Floor == 2 * c.interval + c.timeout;
    assert s3.sends == [0.0, first, answer + c.interval as real];
    states, events := [s0, s1, s2, s3], [Fire, Answered(answer), Fire];
  }

  /** The bound is exact; with the defaults it is below the idle deadline of the server. */
  lemma GapsExactly(c: Config, limit: real)
    requires c.interval >= 1 && c.timeout >= 1
    ensures GapsWithin(c, limit) <==> Bound(c) <= limit
    ensures DEFAULTS == Config(5, 2) && MAX_IDLE_SECONDS == 10
    ensures c == DEFAULTS && limit == 7.0 ==> GapsWithin(c, limit) && limit < MAX_IDLE_SECONDS as real
  {
    hide After, Possible;
    if Bound(c) <= limit {
      forall states: seq<Timing>, events: seq<Event> | Timeline(states, events, c)
        ensures Gaps(states[|events|].sends, limit)
      {
        NeverSilent(states, events, c, |events|);
      }
    } else {
      var states, events := SlowestRun(c);
      assert !Gaps(states[|events|].sends, limit);
    }
  }
}
