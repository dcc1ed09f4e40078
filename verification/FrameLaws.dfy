/** Round trip, framing of a stream, truncation, and what a reused message can and cannot leak. */
module FrameLaws {
  import opened Bytes
  import opened Header
  import opened MetadataCodec
  import opened Frame

  /** What a receiver whose metadata was `prior` holds after decoding the encoding of `m`. */
  function Received(w: Wire, m: Msg, prior: Option<Metadata>): Msg {
    m.(header := Compressed(w, m.header, m.payload).0,
       metadata := if m.Entries() == map[] then prior else Some(m.Entries()))
  }

  /** A message that a receiver takes: right magic byte, and a body within 32 bits and the receiver's limit. */
  ghost predicate Sendable(w: Wire, m: Msg, order: seq<Bytes>)
    requires Enumerates(order, m.Entries())
  {
    var l := |BodyOf(w, m, order)|;
    m.header[0] == MAGIC && l < U32 && (w.maxLength > 0 ==> l <= w.maxLength)
  }

  // The bytes on the wire, by position.

  lemma ShortPut(n: nat)
    requires n < U32
    ensures Put32(n) == BigEndian(n, 4)
  {
    hide BigEndian;
  }

  /** Four sections in a row, each behind the four bytes of its length. */
  lemma FourSections(h: Bytes, a: Bytes, b: Bytes, c: Bytes, d: Bytes)
    requires |h| == 16
    ensures var f, i, j, k := h + (Section(a) + Section(b) + Section(c) + Section(d)), 20 + |a|, 24 + |a| + |b|,
                              28 + |a| + |b| + |c|;
            && |f| == k + 4 + |d| && f[..16] == h
            && f[16..20] == Put32(|a|) && f[20..i] == a
            && f[i..i + 4] == Put32(|b|) && f[i + 4..j] == b
            && f[j..j + 4] == Put32(|c|) && f[j + 4..k] == c
            && f[k..k + 4] == Put32(|d|) && f[k + 4..] == d
  {
    hide Put32;
  }

  /** Where every part of an encoded frame lies; all lengths are four bytes, the most significant first. */
  lemma WireLayout(w: Wire, m: Msg, order: seq<Bytes>)
    requires Enumerates(order, m.Entries()) && |BodyOf(w, m, order)| < U32
    ensures var f, block := Encoded(w, m, order), EncodeBlock(m.Entries(), order);
            var (h, raw) := Compressed(w, m.header, m.payload);
            var i := 20 + |m.path|;
            var j := i + 4 + |m.method_|;
            var k := j + 4 + |block|;
            && |f| == k + 4 + |raw| && f[..12] == h && f[12..16] == BigEndian(|f| - 16, 4)
            && f[16..20] == BigEndian(|m.path|, 4) && f[20..i] == m.path
            && f[i..i + 4] == BigEndian(|m.method_|, 4) && f[i + 4..j] == m.method_
            && f[j..j + 4] == BigEndian(|block|, 4) && f[j + 4..k] == block
            && f[k..k + 4] == BigEndian(|raw|, 4) && f[k + 4..] == raw
  {
    hide BigEndian, Compressed, EncodeBlock, Section, Put32;
    var block := EncodeBlock(m.Entries(), order);
    var (h, raw) := Compressed(w, m.header, m.payload);
    var body := BodyOf(w, m, order);
    FourSections(h + Put32(|body|), m.path, m.method_, block, raw);
    ShortPut(|body|);
    ShortPut(|m.path|);
    ShortPut(|m.method_|);
    ShortPut(|block|);
    ShortPut(|raw|);
    assert (h + Put32(|body|))[..12] == h && (h + Put32(|body|))[12..16] == Put32(|body|);
    assert Encoded(w, m, order)[..12] == Encoded(w, m, order)[..16][..12];
    assert Encoded(w, m, order)[12..16] == Encoded(w, m, order)[..16][12..16];
  }

  /** In the metadata block the key of a pair comes first, each part behind its length. */
  lemma PairLayout(ps: seq<Pair>)
    requires ps != [] && |ps[0].key| < U32 && |ps[0].value| < U32
    ensures var b, k, v := EncodePairs(ps), |ps[0].key|, |ps[0].value|;
            && |b| >= 8 + k + v
            && b[..4] == BigEndian(k, 4) && b[4..4 + k] == ps[0].key
            && b[4 + k..8 + k] == BigEndian(v, 4) && b[8 + k..8 + k + v] == ps[0].value
            && b[8 + k + v..] == EncodePairs(ps[1..])
  {
    hide BigEndian, Put32, Section;
    ShortPut(|ps[0].key|);
    ShortPut(|ps[0].value|);
    TwoSections(ps[0].key, ps[0].value, EncodePairs(ps[1..]));
  }

  lemma TwoSections(a: Bytes, b: Bytes, rest: Bytes)
    ensures var f, i := Section(a) + Section(b) + rest, 4 + |a|;
            && |f| >= i + 4 + |b| && f[..4] == Put32(|a|) && f[4..i] == a
            && f[i..i + 4] == Put32(|b|) && f[i + 4..i + 4 + |b|] == b && f[i + 4 + |b|..] == rest
  {
    hide Put32;
  }

  // Round trip.

  lemma CompressedFinishes(w: Wire, m: Msg)
    requires Lawful(w)
    ensures var (h, raw) := Compressed(w, m.header, m.payload);
            && h[0] == m.header[0]
            && Finish(w, m.(header := h, payload := raw)) == BodyOk(m.(header := h))
  {
    var t := CompressType(m.header);
    SetCompressTypeLaw(m.header, 0);
    assert View(WithCompressType(m.header, 0)).compress == 0;
    if t in w.compressors {
      var c := w.compressors[t];
      assert Inverse(c);
      match c.zip(m.payload)
      case Some(z) => assert c.unzip(z) == Some(m.payload);
      case None =>
    }
  }

  lemma RoundTrip(w: Wire, m: Msg, order: seq<Bytes>, prior: Option<Metadata>, stale: Bytes, rest: Bytes)
    requires Lawful(w) && Enumerates(order, m.Entries()) && Sendable(w, m, order)
    ensures Decode(w, prior, stale, Encoded(w, m, order) + rest) == Ok(Received(w, m, prior), rest)
  {
    hide Compressed, Finish, Section, EncodePairs, Layout, Decode, Store;
    var (h, raw) := Compressed(w, m.header, m.payload);
    var ps := PairsOf(m.Entries(), order);
    var p := Parts(m.path, m.method_, ps, Put32(|raw|), raw);
    var body := BodyOf(w, m, order);
    assert IsBody(body, p) by {
      assert Section(raw) == Put32(|raw|) + raw by { SectionParts(raw); }
      Regroup(Section(p.path), Section(p.method_), Section(EncodePairs(ps)), Put32(|raw|), raw);
    }
    StoreEnumeration(m.Entries(), order);
    EmptyPairs(ps);
    EnumerationLength(m.Entries(), order);
    CompressedFinishes(w, m.(metadata := Received(w, m, prior).metadata));
    DecodeComplete(w, prior, stale, Encoded(w, m, order) + rest, Received(w, m, prior), rest, h, body, p);
  }

  lemma SectionParts(s: Bytes)
    ensures Section(s) == Put32(|s|) + s
  {
  }

  lemma Regroup(a: Bytes, b: Bytes, c: Bytes, d: Bytes, e: Bytes)
    ensures a + b + c + (d + e) == a + b + c + d + e
  {
  }

  /** The round trip holds for these messages and for no others. */
  lemma RoundTripExactly(w: Wire, m: Msg, order: seq<Bytes>, prior: Option<Metadata>, stale: Bytes, rest: Bytes)
    requires Lawful(w) && Enumerates(order, m.Entries())
    ensures Decode(w, prior, stale, Encoded(w, m, order) + rest) == Ok(Received(w, m, prior), rest)
       <==> Sendable(w, m, order)
  {
    hide Received, BodyOf, DecodeBody;
    var body := BodyOf(w, m, order);
    var stream := Encoded(w, m, order) + rest;
    var h := Compressed(w, m.header, m.payload).0;
    if Sendable(w, m, order) {
      RoundTrip(w, m, order, prior, stale, rest);
    } else {
      assert stream[12..16] == Put32(|body|);
      GetPut32(|body|);
      assert LengthAt(stream, 12) == Wrap32(|body|);
      assert |stream| == 16 + |body| + |rest|;
      CompressedFinishes(w, m);
      assert stream[0] == h[0] == m.header[0];
    }
  }

  /** A payload that can be compressed goes out compressed under its header, any other raw without compress bits. */
  lemma CompressedExactly(w: Wire, h: HeaderBytes, payload: Bytes)
    ensures var t := CompressType(h);
            var (h', raw) := Compressed(w, h, payload);
            && (t in w.compressors && w.compressors[t].zip(payload).Some? && t != 0 ==>
                  h' == h && w.compressors[t].zip(payload) == Some(raw))
            && (t == 0 || t !in w.compressors || w.compressors[t].zip(payload) == None ==>
                  raw == payload && View(h') == View(h).(compress := 0))
  {
    hide View;
    SetCompressTypeLaw(h, 0);
    NoCompress(h);
  }

  lemma NoCompress(h: HeaderBytes)
    ensures CompressType(h) == 0 ==> View(h) == View(h).(compress := 0)
  {
  }

  // Which error it is.

  /** The stream holds a header with the magic byte, and a length within the limit. */
  predicate Opens(w: Wire, stream: Bytes) {
    |stream| >= 16 && stream[0] == 0x08 && (w.maxLength > 0 ==> LengthAt(stream, 12) <= w.maxLength)
  }

  /** Exactly when each of the errors of the four reads is reported, for every stream. */
  lemma ReadErrorsExactly(w: Wire, prior: Option<Metadata>, stale: Bytes, stream: Bytes)
    ensures var r := Decode(w, prior, stale, stream);
            && (r == Err(WrongMagic) <==> stream != [] && stream[0] != 0x08)
            && (r == Err(TooLong) <==> |stream| >= 16 && stream[0] == 0x08 && !Opens(w, stream))
            && (r == Err(EOF) <==>
                  || stream == [] || (stream[0] == 0x08 && (|stream| == 1 || |stream| == 12))
                  || (Opens(w, stream) && |stream| == 16 && LengthAt(stream, 12) > 0))
            && (r == Err(UnexpectedEOF) <==>
                  || (stream != [] && stream[0] == 0x08 && (1 < |stream| < 12 || 12 < |stream| < 16))
                  || (Opens(w, stream) && 16 < |stream| < 16 + LengthAt(stream, 12)))
  {
    hide DecodeBody, LengthAt;
  }

  /** A body of four sections is reported by its compress bits: the raw payload, or the two errors of unzipping. */
  lemma UnzipErrorsExactly(w: Wire, prior: Option<Metadata>, stale: Bytes, rest: Bytes,
                           h: HeaderBytes, body: Bytes, p: Parts)
    requires h[0] == MAGIC && |body| < U32 && (w.maxLength > 0 ==> |body| <= w.maxLength) && IsBody(body, p)
    ensures var r, t := Decode(w, prior, stale, Layout(h, body) + rest), Bits(h[2]) / 4 % 8;
            && (r == Err(UnsupportedCompressor) <==> t != 0 && t !in w.compressors)
            && (r == Err(UnzipFailed) <==> t != 0 && t in w.compressors && w.compressors[t].unzip(p.raw) == None)
            && (r.Ok? <==> t == 0 || (t in w.compressors && w.compressors[t].unzip(p.raw).Some?))
            && (r.Ok? && t == 0 ==> r.msg.payload == p.raw)
            && (r.Ok? && t != 0 ==> w.compressors[t].unzip(p.raw) == Some(r.msg.payload))
  {
    FieldBits(h);
    hide Layout, IsBody, DecodeBody, LengthAt, CompressType;
    LayoutOffsets(h, body, rest);
    BodyComplete(w, h, prior, body, Spare(stale, |body|), p);
    LayoutLength(h, body);
  }

  lemma LayoutLength(h: HeaderBytes, body: Bytes)
    ensures |Layout(h, body)| == 16 + |body|
  {
  }

  /** The buffer starts with three whole sections, which take `n` bytes. */
  ghost predicate ThreeSections(full: Bytes, path: Bytes, method_: Bytes, block: Bytes, n: nat) {
    && |path| < U32 && |method_| < U32 && |block| < U32 && n <= |full|
    && full[..n] == Section(path) + Section(method_) + Section(block)
  }

  /** What becomes of the metadata block in front of the position `n`, with the capacity behind it. */
  function BlockRead(full: Bytes, block: Bytes, n: nat): Outcome
    requires |block| <= n <= |full| && |block| < U32
  {
    Parse(|block|, full[n - |block|..], 0, map[])
  }

  lemma SectionsFound(full: Bytes, path: Bytes, method_: Bytes, block: Bytes, n: nat) returns (a: nat, b: nat)
    requires ThreeSections(full, path, method_, block, n)
    ensures SectionEnd(full, 0) == Some(a) && SectionEnd(full, a) == Some(b) && SectionEnd(full, b) == Some(n)
    ensures full[4..a] == path && full[a + 4..b] == method_ && full[b + 4..n] == block && n == b + 4 + |block|
  {
    hide Section, LengthAt, Wrap32;
    a := |Section(path)|;
    b := a + |Section(method_)|;
    assert full[0..a] == full[..n][..a] == Section(path);
    assert full[a..b] == full[..n][a..b] == Section(method_);
    assert full[b..n] == full[..n][b..n] == Section(block);
    ReadSection(full, 0, a, path);
    ReadSection(full, a, b, method_);
    ReadSection(full, b, n, block);
  }

  lemma SectionsMade(full: Bytes, a: nat, b: nat, c: nat)
    requires SectionEnd(full, 0) == Some(a) && SectionEnd(full, a) == Some(b) && SectionEnd(full, b) == Some(c)
    ensures ThreeSections(full, full[4..a], full[a + 4..b], full[b + 4..c], c)
  {
    SectionOf(full, 0, a);
    SectionOf(full, a, b);
    SectionOf(full, b, c);
    hide Section;
    assert full[..c] == full[0..a] + full[a..b] + full[b..c];
  }

  /** Three sections that the decoder passes without a panic, on its way to a payload within the body. */
  ghost predicate Passable(full: Bytes, size: nat, path: Bytes, method_: Bytes, block: Bytes, n: nat) {
    && ThreeSections(full, path, method_, block, n) && |block| <= n
    && (if block == [] then n + 4 <= size
        else !BlockRead(full, block, n).Fault? && (n + 4 <= size || BlockRead(full, block, n).KVMissing?))
  }

  ghost predicate Incomplete(full: Bytes, path: Bytes, method_: Bytes, block: Bytes, n: nat) {
    && ThreeSections(full, path, method_, block, n) && |block| <= n
    && block != [] && BlockRead(full, block, n).KVMissing?
  }

  /** The buffer starts with at most one triple of sections. */
  lemma OneTriple(full: Bytes, a: nat, b: nat, c: nat)
    requires SectionEnd(full, 0) == Some(a) && SectionEnd(full, a) == Some(b) && SectionEnd(full, b) == Some(c)
    ensures forall path, method_, block, n: nat ::
              ThreeSections(full, path, method_, block, n)
              <==> path == full[4..a] && method_ == full[a + 4..b] && block == full[b + 4..c] && n == c
  {
    SectionsMade(full, a, b, c);
    hide ThreeSections, SectionEnd;
    forall path, method_, block, n: nat | ThreeSections(full, path, method_, block, n)
      ensures path == full[4..a] && method_ == full[a + 4..b] && block == full[b + 4..c] && n == c
    {
      var a', b' := SectionsFound(full, path, method_, block, n);
    }
  }

  /** Where the three sections end, if they lie within the capacity. */
  function Ends(full: Bytes): Option<(nat, nat, nat)> {
    var a: Option<nat> := SectionEnd(full, 0);
    if a == None then None
    else
      var b: Option<nat> := SectionEnd(full, a.value);
      if b == None then None
      else
        var c: Option<nat> := SectionEnd(full, b.value);
        if c == None then None else Some((a.value, b.value, c.value))
  }

  lemma NoTriple(full: Bytes)
    requires Ends(full) == None
    ensures forall path, method_, block, n: nat :: !ThreeSections(full, path, method_, block, n)
  {
    hide ThreeSections, SectionEnd;
    forall path, method_, block, n: nat | ThreeSections(full, path, method_, block, n)
      ensures false
    {
      var a', b' := SectionsFound(full, path, method_, block, n);
    }
  }

  /** For every body: a panic exactly without passable sections, ErrMetaKVMissing exactly with an incomplete block. */
  lemma BodyErrorsExactly(w: Wire, h: HeaderBytes, prior: Option<Metadata>, data: Bytes, spare: Bytes)
    ensures var r, full := DecodeBody(w, h, prior, data, spare), data + spare;
            && (r.BodyFault? <==>
                  forall path, method_, block, n: nat :: !Passable(full, |data|, path, method_, block, n))
            && (r == BodyErr(MetaMissing) <==>
                  exists path, method_, block, n: nat :: Incomplete(full, path, method_, block, n))
  {
    hide Section, LengthAt, Parse, SectionEnd, ThreeSections, Finish;
    var full := data + spare;
    if Ends(full) == None {
      NoTriple(full);
    } else {
      var (a, b, c) := Ends(full).value;
      OneTriple(full, a, b, c);
      TripleDecides(w, h, prior, data, spare, a, b, c);
      var path, method_, block := full[4..a], full[a + 4..b], full[b + 4..c];
      assert ThreeSections(full, path, method_, block, c);
      var r := DecodeBody(w, h, prior, data, spare);
      hide DecodeBody, BlockRead;
      assert Passable(full, |data|, path, method_, block, c) <==> !r.BodyFault?;
      assert Incomplete(full, path, method_, block, c) <==> r == BodyErr(MetaMissing);
    }
  }

  /** What the three sections say about the outcome. */
  lemma TripleDecides(w: Wire, h: HeaderBytes, prior: Option<Metadata>, data: Bytes, spare: Bytes,
                      a: nat, b: nat, c: nat)
    requires Ends(data + spare) == Some((a, b, c))
    ensures c == b + 4 + |(data + spare)[b + 4..c]| && |(data + spare)[b + 4..c]| < U32
    ensures var r, full := DecodeBody(w, h, prior, data, spare), data + spare;
            var block := full[b + 4..c];
            && (r == BodyErr(MetaMissing) <==> block != [] && BlockRead(full, block, c).KVMissing?)
            && (r.BodyFault? <==>
                  if block == [] then c + 4 > |data|
                  else BlockRead(full, block, c).Fault?
                       || (c + 4 > |data| && !BlockRead(full, block, c).KVMissing?))
  {
    hide Section, LengthAt, Parse, Finish;
    FinishErrors(w);
  }

  lemma FinishErrors(w: Wire)
    ensures forall m :: Finish(w, m) != BodyErr(MetaMissing) && !Finish(w, m).BodyFault?
  {
  }

  // Truncation.

  /** A frame cut short is an error, which is EOF when the cut falls between two reads and not elsewhere. */
  lemma StrictPrefix(w: Wire, m: Msg, order: seq<Bytes>, prior: Option<Metadata>, stale: Bytes, k: nat)
    requires Lawful(w) && Enumerates(order, m.Entries()) && Sendable(w, m, order)
    requires k < |Encoded(w, m, order)|
    ensures Decode(w, prior, stale, Encoded(w, m, order)[..k])
         == Err(if k in {0, 1, 12, 16} then EOF else UnexpectedEOF)
  {
    hide BodyOf, DecodeBody;
    var h := Compressed(w, m.header, m.payload).0;
    var body := BodyOf(w, m, order);
    CompressedFinishes(w, m);
    LayoutOffsets(h, body, []);
    var frame := Encoded(w, m, order);
    assert frame + [] == frame;
    var cut := frame[..k];
    if k >= 16 {
      assert cut[12..16] == frame[12..16];
    }
    if k > 0 {
      assert cut[0] == frame[0];
    }
  }

  // A stream of frames through one reader, each decoded into a blank message.

  function DecodeAll(w: Wire, stream: Bytes): seq<Msg>
    decreases |stream|
  {
    match Decode(w, None, [], stream)
    case Ok(m, rest) => [m] + DecodeAll(w, rest)
    case _ => []
  }

  /** Why the reading ends. */
  function EndOf(w: Wire, stream: Bytes): Read
    decreases |stream|
  {
    match Decode(w, None, [], stream)
    case Ok(_, rest) => EndOf(w, rest)
    case end => end
  }

  datatype Outgoing = Outgoing(m: Msg, order: seq<Bytes>)

  ghost predicate AllSendable(w: Wire, out: seq<Outgoing>) {
    forall o | o in out :: Enumerates(o.order, o.m.Entries()) && Sendable(w, o.m, o.order)
  }

  function EncodeAll(w: Wire, out: seq<Outgoing>): Bytes
    requires forall o | o in out :: Enumerates(o.order, o.m.Entries())
  {
    if out == [] then [] else Encoded(w, out[0].m, out[0].order) + EncodeAll(w, out[1..])
  }

  function ReceivedAll(w: Wire, out: seq<Outgoing>): (ms: seq<Msg>)
    ensures |ms| == |out|
    ensures forall i | 0 <= i < |out| :: ms[i] == Received(w, out[i].m, None)
  {
    if out == [] then [] else [Received(w, out[0].m, None)] + ReceivedAll(w, out[1..])
  }

  /** The frames come back in order, one message each, and whatever follows them decides how the reading ends. */
  lemma {:induction false} Framing(w: Wire, out: seq<Outgoing>, tail: Bytes)
    requires Lawful(w) && AllSendable(w, out)
    ensures DecodeAll(w, EncodeAll(w, out) + tail) == ReceivedAll(w, out) + DecodeAll(w, tail)
    ensures EndOf(w, EncodeAll(w, out) + tail) == EndOf(w, tail)
  {
    hide Encoded, Decode, Received, Sendable;
    if out == [] {
      assert EncodeAll(w, out) + tail == tail;
    } else {
      var rest := EncodeAll(w, out[1..]) + tail;
      assert EncodeAll(w, out) + tail == Encoded(w, out[0].m, out[0].order) + rest;
      assert out[0] in out;
      RoundTrip(w, out[0].m, out[0].order, None, [], rest);
      Framing(w, out[1..], tail);
    }
  }

  // Reuse of messages.

  /** Whatever the buffer held before: the same streams are accepted, with the same result. */
  lemma BufferIndependence(w: Wire, prior: Option<Metadata>, stale: Bytes, stale': Bytes, stream: Bytes)
    requires Decode(w, prior, stale, stream).Ok?
    ensures Decode(w, prior, stale', stream) == Decode(w, prior, stale, stream)
  {
    var Ok(m, rest) := Decode(w, prior, stale, stream);
    var h, body, p := DecodeSound(w, prior, stale, stream);
    DecodeComplete(w, prior, stale', stream, m, rest, h, body, p);
  }

  /** Metadata of an earlier message survives exactly when the new frame carries none. */
  lemma MetadataLeak(w: Wire, prior: Option<Metadata>, stale: Bytes, stream: Bytes)
    ensures Decode(w, prior, stale, stream).Ok? <==> Decode(w, None, stale, stream).Ok?
    ensures Decode(w, prior, stale, stream).Ok? ==>
      var Ok(m0, rest) := Decode(w, None, stale, stream);
      && Decode(w, prior, stale, stream)
         == Ok(m0.(metadata := if m0.metadata == None then prior else m0.metadata), rest)
  {
  }
}
