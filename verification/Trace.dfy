/** Trace contexts and user metadata: printed and merged by the client, split and parsed by the server. */
module Trace {
  import opened Bytes
  import opened Text

  type Pairs = map<string, string>

  const TRACE_ID := "ot-tracer-traceid"
  const SPAN_ID := "ot-tracer-spanid"
  const SAMPLED := "ot-tracer-sampled"
  const BAGGAGE := "ot-baggage-"

  datatype SpanContext = SpanContext(traceId: nat, spanId: nat, sampled: bool, baggage: Pairs)

  // Numbers and booleans as text.

  function HexDigit(d: nat): char
    requires d < 16
  {
    if d < 10 then '0' + d as char else 'a' + (d - 10) as char
  }

  function DigitValue(c: char): Option<nat> {
    if '0' <= c <= '9' then Some((c - '0') as nat)
    else
      var l := LowerChar(c);
      if 'a' <= l <= 'f' then Some((l - 'a') as nat + 10) else None
  }

  /** `FormatUint(n, 16)`. */
  function FormatHex(n: nat): (s: string)
    ensures s != ""
  {
    if n < 16 then [HexDigit(n)] else FormatHex(n / 16) + [HexDigit(n % 16)]
  }

  function HexValue(s: string): Option<nat> {
    if s == "" then Some(0)
    else
      match (HexValue(s[..|s| - 1]), DigitValue(s[|s| - 1]))
      case (Some(n), Some(d)) => Some(16 * n + d)
      case _ => None
  }

  /** `ParseUint(s, 16, 64)`. */
  function ParseHex(s: string): Option<nat> {
    match HexValue(s)
    case Some(n) => if s != "" && n < U64 then Some(n) else None
    case None => None
  }

  function FormatBool(b: bool): string { if b then "true" else "false" }

  function ParseBool(s: string): Option<bool> {
    if s in {"1", "t", "T", "TRUE", "true", "True"} then Some(true)
    else if s in {"0", "f", "F", "FALSE", "false", "False"} then Some(false)
    else None
  }

  // What these texts mean, digit by digit.

  const LOWER_DIGITS := "0123456789abcdef"
  const UPPER_DIGITS := "0123456789ABCDEF"

  /** The digits that the text spells in base 16, in either case. */
  ghost predicate Spells(s: string, digits: seq<nat>) {
    && |digits| == |s|
    && forall i | 0 <= i < |s| ::
         digits[i] < 16 && (s[i] == LOWER_DIGITS[digits[i]] || s[i] == UPPER_DIGITS[digits[i]])
  }

  function Power16(k: nat): nat { if k == 0 then 1 else 16 * Power16(k - 1) }

  /** The number with these digits, most significant first. */
  function Base16(digits: seq<nat>): nat {
    if digits == [] then 0 else digits[0] * Power16(|digits| - 1) + Base16(digits[1..])
  }

  lemma {:induction false} Base16Append(digits: seq<nat>, d: nat)
    ensures Base16(digits + [d]) == 16 * Base16(digits) + d
  {
    if digits == [] {
      assert [d][1..] == [];
    } else {
      Base16Append(digits[1..], d);
      assert (digits + [d])[1..] == digits[1..] + [d];
      Shift16(digits[0], Power16(|digits| - 1), Base16(digits[1..]), d);
    }
  }

  lemma Shift16(a: nat, p: nat, b: nat, d: nat)
    ensures a * (16 * p) + (16 * b + d) == 16 * (a * p + b) + d
  {
  }

  lemma DigitExactly(c: char, d: nat)
    ensures DigitValue(c) == Some(d) <==> d < 16 && (c == LOWER_DIGITS[d] || c == UPPER_DIGITS[d])
  {
  }

  lemma {:induction false} SpelledValue(s: string, digits: seq<nat>)
    requires Spells(s, digits)
    ensures HexValue(s) == Some(Base16(digits))
  {
    if s != "" {
      var n := |s| - 1;
      DigitExactly(s[n], digits[n]);
      hide DigitValue, Base16;
      SpelledValue(s[..n], digits[..n]);
      Base16Append(digits[..n], digits[n]);
      assert digits == digits[..n] + [digits[n]];
    }
  }

  lemma {:induction false} ValueSpelled(s: string) returns (digits: seq<nat>)
    requires HexValue(s).Some?
    ensures Spells(s, digits)
  {
    digits := [];
    if s != "" {
      var n := |s| - 1;
      var front := ValueSpelled(s[..n]);
      var d: Option<nat> := DigitValue(s[n]);
      DigitExactly(s[n], d.value);
      digits := front + [d.value];
    }
  }

  /** A text parses exactly if it is not empty, spells digits of base 16, and their value is below 2^64. */
  lemma ParseHexExactly(s: string, n: nat)
    ensures ParseHex(s) == Some(n)
       <==> s != "" && n < 0x1_0000_0000_0000_0000 && exists digits :: Spells(s, digits) && Base16(digits) == n
  {
    if HexValue(s).Some? {
      var digits := ValueSpelled(s);
      SpelledValue(s, digits);
    }
    forall digits | Spells(s, digits)
      ensures HexValue(s) == Some(Base16(digits))
    {
      SpelledValue(s, digits);
    }
  }

  lemma DigitPrinted(d: nat)
    requires d < 16
    ensures HexDigit(d) == LOWER_DIGITS[d]
  {
  }

  /** A number is printed in lower-case digits, without leading zeros. */
  lemma {:induction false} FormatHexExactly(n: nat) returns (digits: seq<nat>)
    ensures |digits| == |FormatHex(n)| && Base16(digits) == n && (n > 0 ==> digits[0] > 0) && (n == 0 ==> digits == [0])
    ensures forall i | 0 <= i < |digits| :: digits[i] < 16 && FormatHex(n)[i] == LOWER_DIGITS[digits[i]]
  {
    if n < 16 {
      digits := [n];
      assert digits[1..] == [];
      DigitPrinted(n);
    } else {
      hide Base16, HexDigit;
      var front := FormatHexExactly(n / 16);
      Base16Append(front, n % 16);
      DigitPrinted(n % 16);
      digits := front + [n % 16];
    }
  }

  /** The digit, the letter, or the word, the word also in upper case or with a capital. */
  lemma BoolTexts(s: string)
    ensures FormatBool(true) == "true" && FormatBool(false) == "false"
    ensures ParseBool(s) == Some(true)
       <==> s == "1" || s == "t" || s == "T" || s == "true" || s == "TRUE" || s == "True"
    ensures ParseBool(s) == Some(false)
       <==> s == "0" || s == "f" || s == "F" || s == "false" || s == "FALSE" || s == "False"
  {
  }

  lemma DigitRoundTrip(d: nat)
    requires d < 16
    ensures DigitValue(HexDigit(d)) == Some(d)
  {
  }

  lemma {:induction false} HexRoundTrip(n: nat)
    ensures HexValue(FormatHex(n)) == Some(n)
  {
    DigitRoundTrip(n % 16);
    if n >= 16 {
      HexRoundTrip(n / 16);
      assert FormatHex(n)[..|FormatHex(n)| - 1] == FormatHex(n / 16);
    } else {
      assert [HexDigit(n)][..0] == "";
    }
  }

  lemma ParseFormat(n: nat, b: bool)
    ensures n < U64 ==> ParseHex(FormatHex(n)) == Some(n)
    ensures ParseBool(FormatBool(b)) == Some(b)
  {
    HexRoundTrip(n);
  }

  // The client.

  /** The lower-cased keys; of keys that differ in case only, any one may give the value. */
  ghost predicate Lowered(m: Pairs, md: Pairs) {
    && (forall k | k in m :: ToLower(k) in md)
    && (forall l | l in md :: exists k :: k in m && ToLower(k) == l && m[k] == md[l])
  }

  /** `New`, for every iteration order. */
  method New(m: Pairs) returns (md: Pairs)
    ensures Lowered(m, md)
  {
    hide ToLower;
    md := map[];
    var left := m.Keys;
    while left != {}
      invariant left <= m.Keys
      invariant Lowered(m - left, md)
      decreases |left|
    {
      var k :| k in left;
      ghost var seen, before := m - left, md;
      left := left - {k};
      md := md[ToLower(k) := m[k]];
      LoweredStep(seen, before, k, m[k]);
      assert seen[k := m[k]] == m - left;
    }
    assert m - left == m;
  }

  lemma LoweredStep(m: Pairs, md: Pairs, k: string, v: string)
    requires Lowered(m, md) && k !in m
    ensures Lowered(m[k := v], md[ToLower(k) := v])
  {
    hide ToLower;
    var m', md' := m[k := v], md[ToLower(k) := v];
    forall l | l in md'
      ensures exists j :: j in m' && ToLower(j) == l && m'[j] == md'[l]
    {
      if l == ToLower(k) {
        assert k in m';
      } else {
        var j :| j in m && ToLower(j) == l && m[j] == md[l];
        assert j in m';
      }
    }
  }

  function Prefixed(k: string): string { BAGGAGE + k }

  function Bare(k: string): string { if BAGGAGE <= k then k[|BAGGAGE|..] else k }

  lemma BarePrefixed(k: string)
    ensures Bare(Prefixed(k)) == k
    ensures Prefixed(k) !in {TRACE_ID, SPAN_ID, SAMPLED}
  {
    assert Prefixed(k)[3] == BAGGAGE[3];
  }

  function BaggageMd(baggage: Pairs): Pairs {
    var keys := set b | b in baggage :: Prefixed(b);
    map k | k in keys && Bare(k) in baggage :: baggage[Bare(k)]
  }

  /** The metadata of a span: three fixed fields, and the baggage under its prefix. */
  function SpanMd(sc: SpanContext): Pairs { Fields(sc) + BaggageMd(sc.baggage) }

  function Fields(sc: SpanContext): Pairs {
    map[TRACE_ID := FormatHex(sc.traceId), SPAN_ID := FormatHex(sc.spanId), SAMPLED := FormatBool(sc.sampled)]
  }

  lemma BaggageEntries(baggage: Pairs)
    ensures forall k :: k in BaggageMd(baggage) <==> exists b :: b in baggage && k == Prefixed(b)
    ensures forall b | b in baggage ::
              Prefixed(b) in BaggageMd(baggage) && BaggageMd(baggage)[Prefixed(b)] == baggage[b]
  {
    forall b | b in baggage
      ensures Prefixed(b) in BaggageMd(baggage) && BaggageMd(baggage)[Prefixed(b)] == baggage[b]
    {
      BarePrefixed(b);
    }
  }

  lemma BaggageAdd(baggage: Pairs, b: string, v: string)
    ensures BaggageMd(baggage[b := v]) == BaggageMd(baggage)[Prefixed(b) := v]
  {
    hide Prefixed, BaggageMd;
    var more := baggage[b := v];
    BaggageEntries(baggage);
    BaggageEntries(more);
    forall k
      ensures k in BaggageMd(more) <==> k in BaggageMd(baggage)[Prefixed(b) := v]
      ensures k in BaggageMd(more) ==> BaggageMd(more)[k] == BaggageMd(baggage)[Prefixed(b) := v][k]
    {
      if k in BaggageMd(more) {
        var c :| c in more && k == Prefixed(c);
        BarePrefixed(c);
        BarePrefixed(b);
      }
    }
  }

  lemma SpanKeys(sc: SpanContext)
    ensures forall k :: k in SpanMd(sc) <==>
              k in {TRACE_ID, SPAN_ID, SAMPLED} || exists b :: b in sc.baggage && k == Prefixed(b)
    ensures SpanMd(sc)[TRACE_ID] == FormatHex(sc.traceId) && SpanMd(sc)[SPAN_ID] == FormatHex(sc.spanId)
    ensures SpanMd(sc)[SAMPLED] == FormatBool(sc.sampled)
    ensures forall b | b in sc.baggage :: SpanMd(sc)[Prefixed(b)] == sc.baggage[b]
  {
    hide BaggageMd, Prefixed;
    BaggageEntries(sc.baggage);
    forall b | b in sc.baggage
      ensures Prefixed(b) !in {TRACE_ID, SPAN_ID, SAMPLED}
    {
      BarePrefixed(b);
    }
  }

  /** `NewClientSpanContext`, for every iteration order over the baggage. */
  method NewClientSpanContext(sc: SpanContext) returns (md: Pairs)
    ensures md == SpanMd(sc)
    ensures var fields := {"ot-tracer-traceid", "ot-tracer-spanid", "ot-tracer-sampled"};
            forall k :: k in md <==> k in fields || exists b :: b in sc.baggage && k == "ot-baggage-" + b
    ensures md["ot-tracer-traceid"] == FormatHex(sc.traceId) && md["ot-tracer-spanid"] == FormatHex(sc.spanId)
    ensures md["ot-tracer-sampled"] == if sc.sampled then "true" else "false"
    ensures forall b | b in sc.baggage :: md["ot-baggage-" + b] == sc.baggage[b]
  {
    hide BaggageMd, FormatHex;
    md := map[TRACE_ID := FormatHex(sc.traceId), SPAN_ID := FormatHex(sc.spanId), SAMPLED := FormatBool(sc.sampled)];
    md := AddBaggage(md, sc.baggage);
    SpanKeys(sc);
    assert forall b :: Prefixed(b) == "ot-baggage-" + b;
  }

  method AddBaggage(fields: Pairs, baggage: Pairs) returns (md: Pairs)
    ensures md == fields + BaggageMd(baggage)
  {
    hide Prefixed, BaggageMd;
    md := fields;
    var left := baggage.Keys;
    ghost var seen: Pairs := map[];
    BaggageEntries(map[]);
    while left != {}
      invariant left <= baggage.Keys && seen == baggage - left
      invariant md == fields + BaggageMd(seen)
      decreases |left|
    {
      var b :| b in left;
      BaggageAdd(seen, b, baggage[b]);
      MergeAdd(fields, BaggageMd(seen), Prefixed(b), baggage[b]);
      left := left - {b};
      md := md[Prefixed(b) := baggage[b]];
      seen := seen[b := baggage[b]];
    }
    assert seen == baggage;
  }

  /** `extractMdFromClientCtx`: the fields of the span win over the metadata of the user. */
  method ExtractMdFromClientCtx(common: Option<Pairs>, span: Option<Pairs>) returns (md: Pairs)
    ensures md == Merge(common, span)
    ensures forall k | span.Some? && k in span.value :: k in md && md[k] == span.value[k]
    ensures forall k | common.Some? && k in common.value && !(span.Some? && k in span.value) ::
              k in md && md[k] == common.value[k]
    ensures forall k | k in md :: (common.Some? && k in common.value) || (span.Some? && k in span.value)
  {
    md := map[];
    if common.Some? {
      md := CopyInto(md, common.value);
    }
    if span.Some? {
      md := CopyInto(md, span.value);
    }
  }

  function Merge(common: Option<Pairs>, span: Option<Pairs>): Pairs {
    (if common.Some? then common.value else map[]) + if span.Some? then span.value else map[]
  }

  /** `into` overridden by all entries but those still `left`. */
  function Copied(into: Pairs, entries: Pairs, left: set<string>): Pairs { into + (entries - left) }

  method CopyInto(into: Pairs, entries: Pairs) returns (md: Pairs)
    ensures md == into + entries
  {
    hide Copied;
    md := into;
    var left := entries.Keys;
    CopiedEnds(into, entries);
    while left != {}
      invariant left <= entries.Keys && md == Copied(into, entries, left)
      decreases |left|
    {
      var k :| k in left;
      CopiedStep(into, entries, left, k);
      left := left - {k};
      md := md[k := entries[k]];
    }
  }

  lemma CopiedEnds(into: Pairs, entries: Pairs)
    ensures Copied(into, entries, entries.Keys) == into && Copied(into, entries, {}) == into + entries
  {
    assert entries - entries.Keys == map[];
    assert entries - {} == entries;
  }

  lemma CopiedStep(into: Pairs, entries: Pairs, left: set<string>, k: string)
    requires k in left && left <= entries.Keys
    ensures Copied(into, entries, left)[k := entries[k]] == Copied(into, entries, left - {k})
  {
    assert (entries - left)[k := entries[k]] == entries - (left - {k});
    MergeAdd(into, entries - left, k, entries[k]);
  }

  lemma MergeAdd(into: Pairs, more: Pairs, k: string, v: string)
    ensures (into + more)[k := v] == into + more[k := v]
  {
  }

  // The server.

  predicate Reserved(k: string) { ToLower(k) in {TRACE_ID, SPAN_ID, SAMPLED} || BAGGAGE <= ToLower(k) }

  /** What reaches the context of the handler. */
  datatype Extracted = Extracted(common: Option<Pairs>, span: Option<SpanContext>)

  predicate Corrupt(k: string, v: string) {
    || (ToLower(k) in {TRACE_ID, SPAN_ID} && ParseHex(v) == None)
    || (ToLower(k) == SAMPLED && ParseBool(v) == None)
  }

  /** The names of the trace fields, and exactly the values that their parsers refuse. */
  lemma CorruptExactly(k: string, v: string)
    ensures Corrupt(k, v) <==>
      if ToLower(k) == "ot-tracer-traceid" || ToLower(k) == "ot-tracer-spanid" then
        !(v != "" && exists digits :: Spells(v, digits) && Base16(digits) < 0x1_0000_0000_0000_0000)
      else
        ToLower(k) == "ot-tracer-sampled"
        && v !in {"1", "t", "T", "true", "TRUE", "True", "0", "f", "F", "false", "FALSE", "False"}
    ensures Reserved(k) <==> ToLower(k) == "ot-tracer-traceid" || ToLower(k) == "ot-tracer-spanid"
                             || ToLower(k) == "ot-tracer-sampled" || "ot-baggage-" <= ToLower(k)
  {
    hide ToLower, ParseHex, Spells, Base16;
    forall n | ParseHex(v) == Some(n)
      ensures v != "" && exists digits :: Spells(v, digits) && Base16(digits) < 0x1_0000_0000_0000_0000
    {
      ParseHexExactly(v, n);
    }
    forall digits | v != "" && Spells(v, digits) && Base16(digits) < 0x1_0000_0000_0000_0000
      ensures ParseHex(v).Some?
    {
      ParseHexExactly(v, Base16(digits));
    }
  }

  function CommonOf(md: Pairs): Pairs { map k | k in md && !Reserved(k) :: md[k] }

  /** The value of some key that lower-cases to `name`, or zero. */
  ghost predicate IdFrom(md: Pairs, name: string, id: nat) {
    if forall k | k in md :: ToLower(k) != name then id == 0
    else exists k :: k in md && ToLower(k) == name && ParseHex(md[k]) == Some(id)
  }

  ghost predicate FlagFrom(md: Pairs, flag: bool) {
    if forall k | k in md :: ToLower(k) != SAMPLED then !flag
    else exists k :: k in md && ToLower(k) == SAMPLED && ParseBool(md[k]) == Some(flag)
  }

  ghost predicate BaggageFrom(md: Pairs, baggage: Pairs) {
    && (forall k | k in md && BAGGAGE <= ToLower(k) :: Bare(ToLower(k)) in baggage)
    && (forall b | b in baggage :: exists k :: k in md && ToLower(k) == Prefixed(b) && md[k] == baggage[b])
  }

  /** What a split may yield; only keys that differ in case leave a choice, which the iteration order makes. */
  ghost predicate Split(md: Pairs, r: Option<Extracted>) {
    if exists k :: k in md && Corrupt(k, md[k]) then r == None
    else
      && r.Some?
      && r.value.common == (if CommonOf(md) == map[] then None else Some(CommonOf(md)))
      && (r.value.span.Some? <==> exists k :: k in md && Reserved(k))
      && (r.value.span.Some? ==>
            var sc := r.value.span.value;
            && IdFrom(md, TRACE_ID, sc.traceId) && IdFrom(md, SPAN_ID, sc.spanId)
            && FlagFrom(md, sc.sampled) && BaggageFrom(md, sc.baggage))
  }

  // Metadata as it travels in frames.

  function Chars(b: Bytes): (s: string)
    ensures |s| == |b|
  {
    seq(|b|, i requires 0 <= i < |b| => b[i] as char)
  }

  function Octets(s: string): Bytes { seq(|s|, i requires 0 <= i < |s| => (s[i] as int % 256) as byte) }

  lemma OctetsChars(b: Bytes)
    ensures Octets(Chars(b)) == b
  {
  }

  /** The same bytes, as the strings that the handler sees. */
  function Texts(md: map<Bytes, Bytes>): Pairs {
    var keys := set k | k in md :: Chars(k);
    map s | s in keys && Octets(s) in md :: Chars(md[Octets(s)])
  }

  lemma TextEntries(md: map<Bytes, Bytes>)
    ensures forall k | k in md :: Chars(k) in Texts(md) && Texts(md)[Chars(k)] == Chars(md[k])
    ensures forall s | s in Texts(md) :: exists k :: k in md && Chars(k) == s
  {
    forall k | k in md
      ensures Chars(k) in Texts(md) && Texts(md)[Chars(k)] == Chars(md[k])
    {
      OctetsChars(k);
    }
  }

  /** No trace field of the metadata is corrupt. */
  predicate Parses(md: map<Bytes, Bytes>) { forall k | k in md :: !Corrupt(Chars(k), Chars(md[k])) }

  lemma SplitParses(md: map<Bytes, Bytes>, r: Option<Extracted>)
    requires Split(Texts(md), r)
    ensures r.Some? <==> Parses(md)
  {
    hide Texts, Corrupt, Chars, CommonOf, IdFrom, FlagFrom, BaggageFrom, Reserved;
    TextEntries(md);
    if k :| k in Texts(md) && Corrupt(k, Texts(md)[k]) {
      var j :| j in md && Chars(j) == k;
      assert Corrupt(Chars(j), Chars(md[j]));
    }
  }

  // The loop, one key after the other.

  /** The variables of the loop agree with the keys seen so far. */
  ghost predicate Collected(seen: Pairs, traceId: nat, spanId: nat, sampled: bool, hasSpan: bool, baggage: Pairs,
                            common: Pairs)
  {
    && IdFrom(seen, TRACE_ID, traceId) && IdFrom(seen, SPAN_ID, spanId) && FlagFrom(seen, sampled)
    && BaggageFrom(seen, baggage) && common == CommonOf(seen)
    && (hasSpan <==> exists k :: k in seen && Reserved(k))
    && (forall k | k in seen :: !Corrupt(k, seen[k]))
  }

  lemma IdStep(md: Pairs, k: string, v: string, name: string, id: nat, id': nat)
    requires k !in md && IdFrom(md, name, id)
    requires if ToLower(k) == name then ParseHex(v) == Some(id') else id' == id
    ensures IdFrom(md[k := v], name, id')
  {
    hide ToLower, ParseHex;
    var more := md[k := v];
    if ToLower(k) == name {
      assert k in more && ParseHex(more[k]) == Some(id');
    } else if j :| j in md && ToLower(j) == name && ParseHex(md[j]) == Some(id) {
      assert j in more && more[j] == md[j];
    }
  }

  lemma FlagStep(md: Pairs, k: string, v: string, flag: bool, flag': bool)
    requires k !in md && FlagFrom(md, flag)
    requires if ToLower(k) == SAMPLED then ParseBool(v) == Some(flag') else flag' == flag
    ensures FlagFrom(md[k := v], flag')
  {
    hide ToLower, ParseBool;
    var more := md[k := v];
    if ToLower(k) == SAMPLED {
      assert k in more && ParseBool(more[k]) == Some(flag');
    } else if j :| j in md && ToLower(j) == SAMPLED && ParseBool(md[j]) == Some(flag) {
      assert j in more && more[j] == md[j];
    }
  }

  lemma BaggageStep(md: Pairs, k: string, v: string, baggage: Pairs)
    requires k !in md && BaggageFrom(md, baggage)
    ensures BaggageFrom(md[k := v], if BAGGAGE <= ToLower(k) then baggage[Bare(ToLower(k)) := v] else baggage)
  {
    hide ToLower;
    var more := md[k := v];
    var baggage' := if BAGGAGE <= ToLower(k) then baggage[Bare(ToLower(k)) := v] else baggage;
    forall b | b in baggage'
      ensures exists j :: j in more && ToLower(j) == Prefixed(b) && more[j] == baggage'[b]
    {
      if BAGGAGE <= ToLower(k) && b == Bare(ToLower(k)) {
        assert k in more && ToLower(k) == Prefixed(b);
      } else {
        var j :| j in md && ToLower(j) == Prefixed(b) && md[j] == baggage[b];
        assert j in more && more[j] == md[j];
      }
    }
  }

  /** A key changes at most the variable that its lower-cased form names. */
  lemma CollectStep(seen: Pairs, k: string, v: string, traceId: nat, spanId: nat, sampled: bool, hasSpan: bool,
                    baggage: Pairs, common: Pairs, traceId': nat, spanId': nat, sampled': bool)
    requires k !in seen && Collected(seen, traceId, spanId, sampled, hasSpan, baggage, common)
    requires if ToLower(k) == TRACE_ID then ParseHex(v) == Some(traceId') else traceId' == traceId
    requires if ToLower(k) == SPAN_ID then ParseHex(v) == Some(spanId') else spanId' == spanId
    requires if ToLower(k) == SAMPLED then ParseBool(v) == Some(sampled') else sampled' == sampled
    ensures Collected(seen[k := v], traceId', spanId', sampled', hasSpan || Reserved(k),
                      if BAGGAGE <= ToLower(k) then baggage[Bare(ToLower(k)) := v] else baggage,
                      if Reserved(k) then common else common[k := v])
  {
    hide ToLower, ParseHex, ParseBool, IdFrom, FlagFrom, BaggageFrom;
    IdStep(seen, k, v, TRACE_ID, traceId, traceId');
    IdStep(seen, k, v, SPAN_ID, spanId, spanId');
    FlagStep(seen, k, v, sampled, sampled');
    BaggageStep(seen, k, v, baggage);
    CollectOthers(seen, k, v, hasSpan, common);
  }

  lemma CollectOthers(seen: Pairs, k: string, v: string, hasSpan: bool, common: Pairs)
    requires k !in seen && common == CommonOf(seen) && (hasSpan <==> exists j :: j in seen && Reserved(j))
    ensures (if Reserved(k) then common else common[k := v]) == CommonOf(seen[k := v])
    ensures hasSpan || Reserved(k) <==> exists j :: j in seen[k := v] && Reserved(j)
  {
    hide Reserved;
  }

  /** `extractClientMdContexFromMd`, for every iteration order; None stands for a corrupt span context. */
  method ExtractClientMd(md: Pairs) returns (r: Option<Extracted>)
    ensures Split(md, r)
  {
    hide ToLower, ParseHex, ParseBool, Reserved, Collected;
    var traceId: nat, spanId: nat, sampled, hasSpan := 0, 0, false, false;
    var baggage: Pairs, common: Pairs := map[], map[];
    var left := md.Keys;
    CollectNothing();
    assert md - left == map[];
    while left != {}
      invariant left <= md.Keys
      invariant Collected(md - left, traceId, spanId, sampled, hasSpan, baggage, common)
      decreases |left|
    {
      var k :| k in left;
      ghost var seen, t, s, f, hs, b, c := md - left, traceId, spanId, sampled, hasSpan, baggage, common;
      var v, l := md[k], ToLower(k);
      if l == TRACE_ID {
        hasSpan := true;
        var parsed := ParseHex(v);
        if parsed == None { return None; }
        traceId := parsed.value;
      } else if l == SPAN_ID {
        hasSpan := true;
        var parsed := ParseHex(v);
        if parsed == None { return None; }
        spanId := parsed.value;
      } else if l == SAMPLED {
        hasSpan := true;
        var parsed := ParseBool(v);
        if parsed == None { return None; }
        sampled := parsed.value;
      } else if BAGGAGE <= l {
        hasSpan := true;
        baggage := baggage[l[|BAGGAGE|..] := v];
      } else {
        common := common[k := v];
      }
      left := left - {k};
      ReservedNames(k);
      CollectStep(seen, k, v, t, s, f, hs, b, c, traceId, spanId, sampled);
      assert seen[k := v] == md - left;
    }
    assert md - left == md;
    r := Some(Extracted(if common == map[] then None else Some(common),
                        if hasSpan then Some(SpanContext(traceId, spanId, sampled, baggage)) else None));
    CollectEverything(md, traceId, spanId, sampled, hasSpan, baggage, common);
  }

  lemma CollectNothing()
    ensures Collected(map[], 0, 0, false, false, map[], map[])
  {
  }

  lemma ReservedNames(k: string)
    ensures BAGGAGE <= ToLower(k) ==> ToLower(k) !in {TRACE_ID, SPAN_ID, SAMPLED}
    ensures Reserved(k) <==> ToLower(k) in {TRACE_ID, SPAN_ID, SAMPLED} || BAGGAGE <= ToLower(k)
  {
    assert BAGGAGE <= ToLower(k) ==> ToLower(k)[3] == BAGGAGE[3];
  }

  lemma CollectEverything(md: Pairs, traceId: nat, spanId: nat, sampled: bool, hasSpan: bool, baggage: Pairs,
                          common: Pairs)
    requires Collected(md, traceId, spanId, sampled, hasSpan, baggage, common)
    ensures Split(md, Some(Extracted(if common == map[] then None else Some(common),
                                     if hasSpan then Some(SpanContext(traceId, spanId, sampled, baggage)) else None)))
  {
    hide ToLower, IdFrom, FlagFrom, BaggageFrom, Reserved, Corrupt, CommonOf;
  }
}
