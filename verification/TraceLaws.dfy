/** What survives the way of a trace context and of user metadata from the client into the handler. */
module TraceLaws {
  import opened Bytes
  import opened Text
  import opened Trace

  /** No key of the user collides, in lower case, with a name of the trace fields. */
  predicate Clean(user: Pairs) { forall k | k in user :: !Reserved(k) }

  predicate LowerBaggage(sc: SpanContext) { forall b | b in sc.baggage :: Lower(b) }

  lemma NoCapitals(s: string)
    requires forall i | 0 <= i < |s| :: !('A' <= s[i] <= 'Z')
    ensures Lower(s)
  {
  }

  lemma LowerNames()
    ensures Lower(TRACE_ID) && Lower(SPAN_ID) && Lower(SAMPLED) && Lower(BAGGAGE)
  {
    hide ToLower, Lower;
    NoCapitals(TRACE_ID);
    NoCapitals(SPAN_ID);
    NoCapitals(SAMPLED);
    NoCapitals(BAGGAGE);
  }

  /** Every key of the span is reserved, and is its own lower case if the baggage is. */
  lemma SpanReserved(sc: SpanContext, k: string)
    requires k in SpanMd(sc)
    ensures LowerBaggage(sc) ==> Lower(k)
    ensures Reserved(k)
  {
    LowerNames();
    SpanKeys(sc);
    if b :| b in sc.baggage && k == Prefixed(b) {
      LowerAppend(BAGGAGE, b);
      ToLowerAppend(BAGGAGE, b);
    }
  }

  /** The merge of clean metadata with a lower-case span, key by key. */
  lemma MergedKeys(sc: SpanContext, user: Pairs)
    requires Clean(user) && LowerBaggage(sc)
    ensures var md := Merge(Some(user), Some(SpanMd(sc)));
            && (forall k | k in md && Reserved(k) :: k in SpanMd(sc) && md[k] == SpanMd(sc)[k] && ToLower(k) == k)
            && CommonOf(md) == user
  {
    hide Reserved, SpanMd;
    forall k | k in SpanMd(sc)
      ensures Reserved(k) && Lower(k)
    {
      SpanReserved(sc, k);
    }
  }

  lemma NoneCorrupt(sc: SpanContext, user: Pairs)
    requires sc.traceId < U64 && sc.spanId < U64 && Clean(user) && LowerBaggage(sc)
    ensures var md := Merge(Some(user), Some(SpanMd(sc))); forall k | k in md :: !Corrupt(k, md[k])
  {
    hide ParseHex, FormatHex, ParseBool, FormatBool, SpanMd, ToLower;
    MergedKeys(sc, user);
    SpanKeys(sc);
    ParseFormat(sc.traceId, sc.sampled);
    ParseFormat(sc.spanId, sc.sampled);
  }

  /** The only span that a split of the merge can yield. */
  lemma SpanRecovered(sc: SpanContext, user: Pairs, got: SpanContext)
    requires sc.traceId < U64 && sc.spanId < U64 && Clean(user) && LowerBaggage(sc)
    requires var md := Merge(Some(user), Some(SpanMd(sc)));
             && IdFrom(md, TRACE_ID, got.traceId) && IdFrom(md, SPAN_ID, got.spanId)
             && FlagFrom(md, got.sampled) && BaggageFrom(md, got.baggage)
    ensures got == sc
  {
    hide ParseHex, FormatHex, ParseBool, FormatBool, SpanMd, ToLower, BaggageFrom, CommonOf;
    var md := Merge(Some(user), Some(SpanMd(sc)));
    MergedKeys(sc, user);
    SpanKeys(sc);
    ParseFormat(sc.traceId, sc.sampled);
    ParseFormat(sc.spanId, sc.sampled);
    SpanReserved(sc, TRACE_ID);
    SpanReserved(sc, SPAN_ID);
    SpanReserved(sc, SAMPLED);
    BaggageRecovered(sc, user, got.baggage);
  }

  lemma BaggageKept(sc: SpanContext, user: Pairs, baggage: Pairs, b: string)
    requires Clean(user) && LowerBaggage(sc) && b in sc.baggage
    requires BaggageFrom(Merge(Some(user), Some(SpanMd(sc))), baggage)
    ensures b in baggage
  {
    hide SpanMd, ToLower, CommonOf, Prefixed, Bare, Reserved;
    SpanKeys(sc);
    MergedKeys(sc, user);
    SpanReserved(sc, Prefixed(b));
    BarePrefixed(b);
    assert BAGGAGE <= Prefixed(b) by { PrefixedStarts(b); }
  }

  lemma PrefixedStarts(b: string)
    ensures BAGGAGE <= Prefixed(b) && (forall k | ToLower(k) == Prefixed(b) :: Reserved(k))
  {
  }

  lemma BaggageTrue(sc: SpanContext, user: Pairs, baggage: Pairs, b: string)
    requires Clean(user) && LowerBaggage(sc) && b in baggage
    requires BaggageFrom(Merge(Some(user), Some(SpanMd(sc))), baggage)
    ensures b in sc.baggage && baggage[b] == sc.baggage[b]
  {
    hide SpanMd, ToLower, CommonOf, Prefixed, Bare, Reserved, Merge;
    var md := Merge(Some(user), Some(SpanMd(sc)));
    var k :| k in md && ToLower(k) == Prefixed(b) && md[k] == baggage[b];
    PrefixedStarts(b);
    MergedKeys(sc, user);
    SpanKeys(sc);
    BarePrefixed(b);
    var c :| c in sc.baggage && k == Prefixed(c);
    BarePrefixed(c);
  }

  lemma BaggageRecovered(sc: SpanContext, user: Pairs, baggage: Pairs)
    requires Clean(user) && LowerBaggage(sc)
    requires BaggageFrom(Merge(Some(user), Some(SpanMd(sc))), baggage)
    ensures baggage == sc.baggage
  {
    hide SpanMd, Merge, BaggageFrom, Clean, LowerBaggage;
    forall b | b in sc.baggage
      ensures b in baggage
    {
      BaggageKept(sc, user, baggage, b);
    }
    forall b | b in baggage
      ensures b in sc.baggage && baggage[b] == sc.baggage[b]
    {
      BaggageTrue(sc, user, baggage, b);
    }
  }

  /** Anything lost shows: an upper-case baggage key, or a reserved key of the user. */
  lemma LossShows(sc: SpanContext, user: Pairs, r: Option<Extracted>)
    requires Split(Merge(Some(user), Some(SpanMd(sc))), r) && r.Some? && r.value.span == Some(sc)
    requires r.value.common == if user == map[] then None else Some(user)
    ensures Clean(user) && LowerBaggage(sc)
  {
    hide SpanMd, ToLower, IdFrom, FlagFrom, Corrupt, Reserved;
    var md := Merge(Some(user), Some(SpanMd(sc)));
    forall b | b in sc.baggage
      ensures Lower(b)
    {
      var k :| k in md && ToLower(k) == Prefixed(b) && md[k] == sc.baggage[b];
      ToLowerIsLower(k);
      LowerAppend(BAGGAGE, b);
    }
    forall k | k in user
      ensures !Reserved(k)
    {
      assert CommonOf(md) == user;
    }
  }

  /**
   * Printing, merging and splitting restore the span and the user metadata exactly when the baggage keys are in
   * lower case and no user key is reserved; for every iteration order of the three loops.
   */
  lemma TraceRoundTrip(sc: SpanContext, user: Pairs, r: Option<Extracted>)
    requires sc.traceId < U64 && sc.spanId < U64 && Split(Merge(Some(user), Some(SpanMd(sc))), r)
    ensures r == Some(Extracted(if user == map[] then None else Some(user), Some(sc)))
            <==> Clean(user) && LowerBaggage(sc)
  {
    hide SpanMd, ToLower, IdFrom, FlagFrom, BaggageFrom, Corrupt, Reserved, CommonOf;
    if Clean(user) && LowerBaggage(sc) {
      NoneCorrupt(sc, user);
      MergedKeys(sc, user);
      SpanKeys(sc);
      SpanReserved(sc, TRACE_ID);
      assert TRACE_ID in Merge(Some(user), Some(SpanMd(sc)));
      SpanRecovered(sc, user, r.value.span.value);
    } else if r == Some(Extracted(if user == map[] then None else Some(user), Some(sc))) {
      LossShows(sc, user, r);
    }
  }

  /** Without a span, user metadata arrives unchanged and alone exactly when no key is reserved. */
  lemma PlainRoundTrip(user: Pairs, r: Option<Extracted>)
    requires Split(Merge(Some(user), None), r)
    ensures r == Some(Extracted(if user == map[] then None else Some(user), None)) <==> Clean(user)
  {
    hide ToLower, IdFrom, FlagFrom, BaggageFrom;
    assert Merge(Some(user), None) == user;
    if Clean(user) {
      assert CommonOf(user) == user;
      assert forall k | k in user :: !Corrupt(k, user[k]);
    }
  }

  /** Lower-casing neither frees metadata of reserved keys nor brings any in, and doing it twice changes nothing. */
  lemma LoweredClean(m: Pairs, md: Pairs)
    requires Lowered(m, md)
    ensures Clean(md) <==> Clean(m)
    ensures (forall l | l in md :: Lower(l)) && forall again | Lowered(md, again) :: again == md
  {
    forall l | l in md
      ensures Lower(l)
    {
      var k :| k in m && ToLower(k) == l && m[k] == md[l];
      ToLowerIsLower(k);
    }
    hide ToLower;
    forall k | k in m
      ensures Reserved(ToLower(k)) == Reserved(k)
    {
      assert Lower(ToLower(k));
    }
  }
}
