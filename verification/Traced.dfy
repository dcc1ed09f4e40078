/** Trace contexts and user metadata, followed from the caller into the handler that answers the call. */
module Traced {
  import opened Bytes
  import opened MetadataCodec
  import opened Server
  import opened Connection
  import opened Exchange
  import opened Ledger
  import opened Correlation
  import Trace
  import opened TraceLaws

  /** What the context of a handler should hold: the user metadata, and the span if there is one. */
  function Whole(user: Trace.Pairs, span: Option<Trace.SpanContext>): Trace.Extracted {
    Trace.Extracted(if user == map[] then None else Some(user), span)
  }

  /** The call carries what `extractMdFromClientCtx` makes of the user metadata and the span. */
  ghost predicate CarriesContext(call: Call, user: Trace.Pairs, span: Option<Trace.SpanContext>) {
    && Trace.Texts(call.md) == Trace.Merge(Some(user), if span.Some? then Some(Trace.SpanMd(span.value)) else None)
    && (span.Some? ==> span.value.traceId < U64 && span.value.spanId < U64)
  }

  /** The answering handler found everything that the caller gave. */
  ghost predicate AnsweredWith(env: Env, call: Call, prior: Option<Metadata>, outcome: Ending, world: World) {
    exists reply, sent, data ::
      && AnsweredAs(env, call, world, reply, sent, data)
      && outcome == Understood(env, call.want, Serialization(call), data, Leftover(sent, prior))
  }

  lemma ConveyedExactly(call: Call, user: Trace.Pairs, span: Option<Trace.SpanContext>, world: World)
    requires CarriesContext(call, user, span) && Conveyed(call.md, world)
    ensures world.ctx == Whole(user, span) <==> Clean(user) && (span.Some? ==> LowerBaggage(span.value))
  {
    hide Trace.Texts, Trace.Split, Trace.SpanMd, Trace.Merge, Clean, LowerBaggage;
    match span
    case Some(sc) => TraceRoundTrip(sc, user, Some(world.ctx));
    case None => PlainRoundTrip(user, Some(world.ctx));
  }

  lemma ToldWith(env: Env, call: Call, prior: Option<Metadata>, outcome: Ending) returns (world: World)
    requires Told(env, call, prior, outcome)
    ensures Conveyed(call.md, world) && AnsweredWith(env, call, prior, outcome, world)
  {
    hide Conveyed, Understood, ArgsAtServer;
    var w, reply, sent, data :| AnsweredAs(env, call, w, reply, sent, data)
      && outcome == Understood(env, call.want, Serialization(call), data, Leftover(sent, prior));
    world := w;
  }

  /**
   * In every run, the handler whose answer a caller is told of was given the caller's own span and user metadata if and
   * only if the baggage keys are in lower case and no key of the user is reserved, whatever order the maps are visited
   * in at both ends.
   */
  lemma TracedEndToEnd(env: Env, states: seq<State>, steps: seq<Step>, i: nat, c: Completion,
                       user: Trace.Pairs, span: Option<Trace.SpanContext>) returns (world: World)
    requires LawfulEnv(env) && ShortRun(env, states, steps) && i <= |steps| && c in states[i].completions
    requires !Silent(c.outcome) && c.outcome != HeartbeatOk && c.call < |states[i].calls|
    requires CarriesContext(states[i].calls[c.call], user, span)
    ensures c.at <= |states[i].heard|
    ensures AnsweredWith(env, states[i].calls[c.call], LeftBefore(states[i].heard, c.at), c.outcome, world)
    ensures world.ctx == Whole(user, span) <==> Clean(user) && (span.Some? ==> LowerBaggage(span.value))
  {
    hide Told, LeftBefore, LawfulEnv, AnsweredWith, Conveyed, CarriesContext, Whole, Clean, LowerBaggage;
    ToldInRun(env, states, steps, i, c);
    var call, prior := states[i].calls[c.call], LeftBefore(states[i].heard, c.at);
    world := ToldWith(env, call, prior, c.outcome);
    ConveyedExactly(call, user, span, world);
  }
}
