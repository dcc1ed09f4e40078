/** Whole frames: what the encoders write, what the decoder does with any stream, and how the two fit. */
module Frame {
  import opened Bytes
  import opened Header
  import opened MetadataCodec

  /** A message; `metadata` is None for the nil map. */
  datatype Msg = Msg(
    header: HeaderBytes,
    path: Bytes,
    method_: Bytes,
    metadata: Option<Metadata>,
    payload: Bytes)
  {
    function Entries(): Metadata { if metadata.Some? then metadata.value else map[] }
  }

  const BLANK_MSG := Msg(BLANK, [], [], None, [])

  /** A compressor may fail both ways. */
  datatype Compressor = Compressor(zip: Bytes -> Option<Bytes>, unzip: Bytes -> Option<Bytes>)

  /** The package variables `Compressors` and `MaxMessageLength`. */
  datatype Wire = Wire(compressors: map<bv8, Compressor>, maxLength: int)

  ghost predicate Inverse(c: Compressor) {
    forall x :: c.zip(x).Some? ==> c.unzip(c.zip(x).value) == Some(x)
  }

  ghost predicate Lawful(w: Wire) {
    forall t | t in w.compressors :: Inverse(w.compressors[t])
  }

  // Encoding.

  /** Header and payload as `Encode` puts them on the wire, with its two fallbacks to the raw payload. */
  function Compressed(w: Wire, h: HeaderBytes, payload: Bytes): (HeaderBytes, Bytes) {
    var t := CompressType(h);
    if t == 0 then (h, payload)
    else if t !in w.compressors then (WithCompressType(h, 0), payload)
    else
      match w.compressors[t].zip(payload)
      case Some(z) => (h, z)
      case None => (WithCompressType(h, 0), payload)
  }

  function Body(path: Bytes, method_: Bytes, block: Bytes, raw: Bytes): Bytes {
    Section(path) + Section(method_) + Section(block) + Section(raw)
  }

  function Layout(h: HeaderBytes, body: Bytes): Bytes { h + Put32(|body|) + body }

  function BodyOf(w: Wire, m: Msg, order: seq<Bytes>): Bytes
    requires Enumerates(order, m.Entries())
  {
    Body(m.path, m.method_, EncodeBlock(m.Entries(), order), Compressed(w, m.header, m.payload).1)
  }

  /** The plain concatenation of the sections. */
  function Encoded(w: Wire, m: Msg, order: seq<Bytes>): Bytes
    requires Enumerates(order, m.Entries())
  {
    Layout(Compressed(w, m.header, m.payload).0, BodyOf(w, m, order))
  }

  // Decoding.

  datatype Failure =
    | EOF | UnexpectedEOF | WrongMagic | TooLong | MetaMissing | UnsupportedCompressor | UnzipFailed

  datatype BodyRead = BodyOk(msg: Msg) | BodyErr(failure: Failure) | BodyFault

  datatype Read = Ok(msg: Msg, rest: Bytes) | Err(failure: Failure) | Panics

  /** Where the length-prefixed section at `n` ends, if it ends within the capacity. */
  function SectionEnd(full: Bytes, n: nat): (e: Option<nat>)
    ensures e.Some? ==> n + 4 <= e.value <= |full| && e.value == n + 4 + LengthAt(full, n)
  {
    if n + 4 <= |full| && n + 4 + LengthAt(full, n) <= |full| then Some(n + 4 + LengthAt(full, n)) else None
  }

  function Finish(w: Wire, m: Msg): BodyRead {
    var t := CompressType(m.header);
    if t == 0 then BodyOk(m)
    else if t !in w.compressors then BodyErr(UnsupportedCompressor)
    else
      match w.compressors[t].unzip(m.payload)
      case Some(p) => BodyOk(m.(payload := p))
      case None => BodyErr(UnzipFailed)
  }

  /** Decoding of the body `data`, behind which the buffer still holds `spare` up to its capacity. */
  function DecodeBody(w: Wire, h: HeaderBytes, prior: Option<Metadata>, data: Bytes, spare: Bytes): (r: BodyRead)
    ensures r.BodyErr? ==> r.failure in {MetaMissing, UnsupportedCompressor, UnzipFailed}
  {
    var full := data + spare;
    var a := SectionEnd(full, 0);
    if a.None? then BodyFault
    else
      var b := SectionEnd(full, a.value);
      if b.None? then BodyFault
      else
        var c := SectionEnd(full, b.value);
        if c.None? then BodyFault
        else
          var l := c.value - b.value - 4;
          var meta := if l == 0 then None else Some(Parse(l, full[b.value + 4..], 0, map[]));
          if meta.Some? && meta.value.KVMissing? then BodyErr(MetaMissing)
          else if meta.Some? && meta.value.Fault? then BodyFault
          else if c.value + 4 > |data| then BodyFault
          else
            Finish(w, Msg(h, full[4..a.value], full[a.value + 4..b.value],
                          if meta.Some? then Some(meta.value.m) else prior, data[c.value + 4..]))
  }

  /** What `io.ReadFull` reports when the stream ends before the buffer is full. */
  function ShortRead(rest: Bytes): Failure { if rest == [] then EOF else UnexpectedEOF }

  /** The part of a buffer with contents `stale` that lies behind the first `l` bytes, when it is reused. */
  function Spare(stale: Bytes, l: nat): Bytes { if |stale| >= l then stale[l..] else [] }

  /** `Decode` into a message with metadata `prior` and buffer contents `stale`, from a reader that holds `stream`. */
  function Decode(w: Wire, prior: Option<Metadata>, stale: Bytes, stream: Bytes): (r: Read)
    ensures r.Ok? ==> |stream| >= 16 && |stream| == 16 + LengthAt(stream, 12) + |r.rest|
  {
    if |stream| < 1 then Err(EOF)
    else if stream[0] != MAGIC then Err(WrongMagic)
    else if |stream| < 12 then Err(ShortRead(stream[1..]))
    else if |stream| < 16 then Err(ShortRead(stream[12..]))
    else
      var l := LengthAt(stream, 12);
      if w.maxLength > 0 && l > w.maxLength then Err(TooLong)
      else if |stream| < 16 + l then Err(ShortRead(stream[16..]))
      else
        match DecodeBody(w, stream[..12], prior, stream[16..16 + l], Spare(stale, l))
        case BodyOk(m) => Ok(m, stream[16 + l..])
        case BodyErr(f) => Err(f)
        case BodyFault => Panics
  }

  // The grammar of frames, which mentions neither offsets nor buffers.

  datatype Parts = Parts(path: Bytes, method_: Bytes, pairs: seq<Pair>, payloadLength: Bytes, raw: Bytes)

  ghost predicate IsBody(data: Bytes, p: Parts) {
    && |p.payloadLength| == 4
    && data == Section(p.path) + Section(p.method_) + Section(EncodePairs(p.pairs)) + p.payloadLength + p.raw
  }

  function MsgOf(h: HeaderBytes, prior: Option<Metadata>, p: Parts): Msg {
    Msg(h, p.path, p.method_, if p.pairs == [] then prior else Some(Store(map[], p.pairs)), p.raw)
  }

  /** `stream` starts with a frame that means `m` to a receiver whose metadata was `prior`. */
  ghost predicate IsFrame(w: Wire, prior: Option<Metadata>, stream: Bytes, m: Msg, rest: Bytes,
                          h: HeaderBytes, body: Bytes, p: Parts)
  {
    && stream == Layout(h, body) + rest
    && h[0] == MAGIC
    && |body| < U32
    && (w.maxLength > 0 ==> |body| <= w.maxLength)
    && IsBody(body, p)
    && Finish(w, MsgOf(h, prior, p)) == BodyOk(m)
  }

  lemma SectionOf(full: Bytes, a: nat, b: nat)
    requires SectionEnd(full, a) == Some(b)
    ensures full[a..b] == Section(full[a + 4..b])
  {
    PutGet32(full[a..a + 4]);
    assert full[a..b] == full[a..a + 4] + full[a + 4..b];
  }

  lemma BodyOffsets(full: Bytes, data: Bytes, p: Parts) returns (a: nat, b: nat, c: nat)
    requires data <= full && IsBody(data, p) && |data| < U32
    ensures SectionEnd(full, 0) == Some(a) && SectionEnd(full, a) == Some(b) && SectionEnd(full, b) == Some(c)
    ensures full[4..a] == p.path && full[a + 4..b] == p.method_ && full[b + 4..c] == EncodePairs(p.pairs)
    ensures c + 4 <= |data| && data[c + 4..] == p.raw
  {
    hide Section, EncodePairs, Wrap32, LengthAt;
    var s1, s2, s3 := Section(p.path), Section(p.method_), Section(EncodePairs(p.pairs));
    a := |s1|;
    b := a + |s2|;
    c := b + |s3|;
    assert full[0..a] == data[..a] == s1;
    assert full[a..b] == data[a..b] == s2;
    assert full[b..c] == data[b..c] == s3;
    ReadSection(full, 0, a, p.path);
    ReadSection(full, a, b, p.method_);
    ReadSection(full, b, c, EncodePairs(p.pairs));
  }

  lemma BodyComplete(w: Wire, h: HeaderBytes, prior: Option<Metadata>, data: Bytes, spare: Bytes, p: Parts)
    requires IsBody(data, p) && |data| < U32
    ensures DecodeBody(w, h, prior, data, spare) == Finish(w, MsgOf(h, prior, p))
  {
    hide Section, Finish, LengthAt, Parse;
    var full := data + spare;
    var a, b, c := BodyOffsets(full, data, p);
    EmptyPairs(p.pairs);
    if p.pairs != [] {
      var l := c - b - 4;
      assert full[b + 4..][0..l] == full[b + 4..c];
      ParseComplete(l, full[b + 4..], 0, map[], p.pairs);
    }
  }

  lemma BodySound(w: Wire, h: HeaderBytes, prior: Option<Metadata>, data: Bytes, spare: Bytes) returns (p: Parts)
    requires |data| < U32 && DecodeBody(w, h, prior, data, spare).BodyOk?
    ensures IsBody(data, p)
  {
    hide Section, Finish, LengthAt, Parse, SectionEnd;
    var full := data + spare;
    var a := SectionEnd(full, 0).value;
    var b := SectionEnd(full, a).value;
    var c := SectionEnd(full, b).value;
    var l := c - b - 4;
    var ps := [];
    if l > 0 {
      ps := ParseSound(l, full[b + 4..], 0, map[]);
    }
    assert full[b + 4..][0..l] == full[b + 4..c] == EncodePairs(ps);
    p := Parts(full[4..a], full[a + 4..b], ps, data[c..c + 4], data[c + 4..]);
    SectionOf(full, 0, a);
    SectionOf(full, a, b);
    SectionOf(full, b, c);
    FiveSlices(data, a, b, c, c + 4);
    assert full[0..a] == data[0..a] && full[a..b] == data[a..b] && full[b..c] == data[b..c];
  }

  lemma FiveSlices(s: Bytes, a: nat, b: nat, c: nat, d: nat)
    requires a <= b <= c <= d <= |s|
    ensures s == s[0..a] + s[a..b] + s[b..c] + s[c..d] + s[d..]
  {
  }

  lemma LayoutOffsets(h: HeaderBytes, body: Bytes, rest: Bytes)
    requires |body| < U32
    ensures var stream := Layout(h, body) + rest;
            && stream[..12] == h && stream[0] == h[0] && LengthAt(stream, 12) == |body|
            && stream[16..16 + |body|] == body && stream[16 + |body|..] == rest
  {
    var stream := Layout(h, body) + rest;
    assert stream[12..16] == Put32(|body|);
    GetPut32(|body|);
  }

  lemma DecodeComplete(w: Wire, prior: Option<Metadata>, stale: Bytes, stream: Bytes, m: Msg, rest: Bytes,
                       h: HeaderBytes, body: Bytes, p: Parts)
    requires IsFrame(w, prior, stream, m, rest, h, body, p)
    ensures Decode(w, prior, stale, stream) == Ok(m, rest)
  {
    hide Section, Finish, LengthAt, DecodeBody;
    LayoutOffsets(h, body, rest);
    assert |Layout(h, body)| == 16 + |body|;
    BodyComplete(w, h, prior, body, Spare(stale, |body|), p);
  }

  lemma DecodeSound(w: Wire, prior: Option<Metadata>, stale: Bytes, stream: Bytes)
    returns (h: HeaderBytes, body: Bytes, p: Parts)
    requires Decode(w, prior, stale, stream).Ok?
    ensures var Ok(m, rest) := Decode(w, prior, stale, stream); IsFrame(w, prior, stream, m, rest, h, body, p)
  {
    hide Section, Finish, DecodeBody, IsBody;
    var l := LengthAt(stream, 12);
    h := stream[..12];
    body := stream[16..16 + l];
    p := BodySound(w, h, prior, body, Spare(stale, l));
    BodyComplete(w, h, prior, body, Spare(stale, l), p);
    PutGet32(stream[12..16]);
    assert stream == h + stream[12..16] + body + stream[16 + l..];
  }

  /** Exactly the frames of the grammar are decoded, to what they mean, whatever the reused buffer held. */
  lemma Acceptance(w: Wire, prior: Option<Metadata>, stale: Bytes, stream: Bytes, m: Msg, rest: Bytes)
    ensures Decode(w, prior, stale, stream) == Ok(m, rest)
       <==> exists h, body, p :: IsFrame(w, prior, stream, m, rest, h, body, p)
  {
    if Decode(w, prior, stale, stream) == Ok(m, rest) {
      var h, body, p := DecodeSound(w, prior, stale, stream);
    }
    forall h, body, p | IsFrame(w, prior, stream, m, rest, h, body, p)
      ensures Decode(w, prior, stale, stream) == Ok(m, rest)
    {
      DecodeComplete(w, prior, stale, stream, m, rest, h, body, p);
    }
  }
}
