/** Message objects: in-place header, reused buffer, the two encoders, the decoder, and reset. */
module Messages {
  import opened Bytes
  import opened Header
  import opened MetadataCodec
  import opened Frame
  import opened Streams

  datatype Status = Done | Failed(failure: Failure) | Panicked

  class Message {
    var header: array<byte>
    var path: Bytes
    var method_: Bytes
    var metadata: Option<Metadata>
    var payload: Bytes
    var data: array<byte>
    var dataLen: nat

    ghost predicate Valid()
      reads this
    {
      header.Length == 12 && header != data && dataLen <= data.Length
    }

    ghost function Objects(): set<object>
      reads this
    {
      {this, header, data}
    }

    /** Two messages share neither header nor buffer. */
    ghost predicate Apart(m: Message)
      reads this, m
    {
      this != m && {header, data} !! {m.header, m.data}
    }

    /** The message these fields hold. */
    function Value(): Msg
      requires Valid()
      reads this, header
    {
      Msg(header[..], path, method_, metadata, payload)
    }

    ghost predicate IsBlank()
      requires Valid()
      reads this, header
    {
      Value() == BLANK_MSG && dataLen == 0
    }

    constructor ()
      ensures Valid() && IsBlank() && fresh(header) && fresh(data)
    {
      var h := new byte[12](_ => 0);
      h[0] := MAGIC;
      header := h;
      path, method_, metadata, payload := [], [], None, [];
      data := new byte[0];
      dataLen := 0;
    }

    // Setters on the header bytes.

    method SetMessageType(mt: bv8)
      requires Valid()
      modifies header
      ensures Value() == old(Value()).(header := WithMessageType(old(header[..]), mt))
    {
      header[2] := OfBits(Bits(header[2]) | (mt << 7));
    }

    method SetCompressType(ct: bv8)
      requires Valid()
      modifies header
      ensures Value() == old(Value()).(header := WithCompressType(old(header[..]), ct))
    {
      header[2] := OfBits((Bits(header[2]) & !0x1C) | ((ct << 2) & 0x1C));
    }

    method SetStatusType(st: bv8)
      requires Valid()
      modifies header
      ensures Value() == old(Value()).(header := WithStatusType(old(header[..]), st))
    {
      header[2] := OfBits((Bits(header[2]) & !0x03) | (st & 0x03));
    }

    /** The payload to put on the wire; the compress bits of the header are cleared on a fallback. */
    method Compress(w: Wire) returns (raw: Bytes)
      requires Valid()
      modifies header
      ensures (Value().header, raw) == Compressed(w, old(header[..]), payload)
      ensures Value() == old(Value()).(header := Value().header)
    {
      raw := payload;
      var t := CompressType(header[..]);
      if t != 0 {
        if t !in w.compressors {
          SetCompressType(0);
        } else {
          match w.compressors[t].zip(payload)
          case Some(z) => raw := z;
          case None => SetCompressType(0);
        }
      }
    }

    /** The offset-and-copy encoder writes the plain concatenation of the sections. */
    method Encode(w: Wire, order: seq<Bytes>) returns (frame: array<byte>)
      requires Valid() && Enumerates(order, Value().Entries())
      modifies header
      ensures fresh(frame) && frame[..] == Encoded(w, old(Value()), order)
      ensures Value() == old(Value()).(header := Compressed(w, old(header[..]), payload).0)
    {
      var meta := EncodeMetadata(if metadata.Some? then metadata.value else map[], order);
      var raw := Compress(w);
      frame := Fill(header[..], path, method_, meta, raw);
    }

    /**
     * The streaming encoder writes the bytes of `Encode` when it succeeds, a prefix of them when the writer
     * gives up, and the bare header when the payload cannot be compressed.
     */
    method WriteTo(w: Wire, order: seq<Bytes>, out: Writer) returns (ok: bool)
      requires Valid() && Enumerates(order, Value().Entries())
      modifies out
      ensures ok ==> Compressible(w, header[..], payload)
      ensures ok ==> out.written == old(out.written) + Encoded(w, Value(), order)
      ensures !ok && Compressible(w, header[..], payload) ==>
                old(out.written) <= out.written <= old(out.written) + Encoded(w, Value(), order)
      ensures !Compressible(w, header[..], payload) ==>
                old(out.written) <= out.written <= old(out.written) + header[..]
      ensures old(out.room) == None ==> ok == Compressible(w, header[..], payload)
    {
      hide Section, Put32, Body, EncodePairs, Layout;
      ghost var start := out.written;
      ok := out.Write(header[..]);
      assert Compressible(w, header[..], payload) ==> Compressed(w, header[..], payload).0 == header[..];
      HeaderFirst(start, header[..], BodyOf(w, Value(), order));
      var meta := EncodeMetadata(if metadata.Some? then metadata.value else map[], order);
      var raw := payload;
      var t := CompressType(header[..]);
      if !ok {
        return;
      }
      if t != 0 {
        if t !in w.compressors || w.compressors[t].zip(payload) == None {
          return false;
        }
        raw := w.compressors[t].zip(payload).value;
      }
      var totalL := (4 + |path|) + (4 + |method_|) + (4 + |meta|) + (4 + |raw|);
      BodyLength(path, method_, meta, raw);
      ok := Emit(out, totalL, path, method_, meta, raw);
    }

    // Decoding.

    /** The part of `Decode` that follows the reads: the body is in `data[..dataLen]`. */
    method DecodeData(w: Wire) returns (res: Status)
      requires Valid() && dataLen < U32
      modifies this`path, this`method_, this`metadata, this`payload
      ensures Valid()
      ensures match DecodeBody(w, header[..], old(metadata), data[..dataLen], data[dataLen..])
              case BodyOk(m) => res == Done && Value() == m
              case BodyErr(f) => res == Failed(f)
              case BodyFault => res == Panicked
    {
      hide LengthAt, Parse, SectionEnd, Finish;
      var full := data[..];
      assert full == data[..dataLen] + data[dataLen..];
      var end := NextSection(full, 0);
      if end.None? { return Panicked; }
      var n := end.value;
      path := full[4..n];

      end := NextSection(full, n);
      if end.None? { return Panicked; }
      method_ := full[n + 4..end.value];
      n := end.value;

      end := NextSection(full, n);
      if end.None? { return Panicked; }
      var l := end.value - n - 4;
      if l > 0 {
        var md := DecodeMetadata(l, full[n + 4..]);
        if md.Fault? { return Panicked; }
        metadata := Some(md.m);
        if md.KVMissing? { return Failed(MetaMissing); }
      }
      n := end.value;

      if n + 4 > dataLen { return Panicked; }
      payload := data[n + 4..dataLen];
      assert payload == data[..dataLen][n + 4..];
      res := Decompress(w);
    }

    method Decompress(w: Wire) returns (res: Status)
      requires Valid()
      modifies this`payload
      ensures match Finish(w, old(Value()))
              case BodyOk(m) => res == Done && Value() == m
              case BodyErr(f) => res == Failed(f)
              case BodyFault => res == Panicked
    {
      var t := CompressType(header[..]);
      if t != 0 {
        if t !in w.compressors { return Failed(UnsupportedCompressor); }
        match w.compressors[t].unzip(payload)
        case None => return Failed(UnzipFailed);
        case Some(unzipped) => payload := unzipped;
      }
      return Done;
    }

    method ReadHeader(r: Reader) returns (err: Option<Failure>)
      requires Valid() && r.Valid()
      modifies header, r
      ensures r.Valid()
      ensures header[0] == MAGIC || err.Some?
      ensures err == Some(WrongMagic) ==> header[0] != MAGIC
      ensures var stream := old(r.Rest());
              if |stream| < 1 then err == Some(EOF)
              else if stream[0] != MAGIC then err == Some(WrongMagic)
              else if |stream| < 12 then err == Some(ShortRead(stream[1..]))
              else err == None && stream == header[..] + r.Rest()
      ensures err == None ==> r.Value() == After(After(old(r.Value()), 1), 11)
    {
      hide After;
      ghost var stream := r.Rest();
      var got;
      got, err := r.ReadFull(1);
      CopyInto(header, 0, got);
      if err.Some? { return; }
      assert header[0] == header[0..1][0] == got[0] == stream[0];
      if header[0] != MAGIC { return Some(WrongMagic); }
      ghost var first := got;
      assert header[..1] == header[0..1] == first;
      got, err := r.ReadFull(11);
      assert stream == first + (got + r.Rest());
      CopyInto(header, 1, got);
      assert header[0] == header[..1][0];
      if err == None {
        assert header[..] == header[..1] + header[1..12];
      }
    }

    method ReadData(w: Wire, r: Reader) returns (err: Option<Failure>)
      requires Valid() && r.Valid()
      modifies this`data, this`dataLen, data, r
      ensures Valid() && r.Valid() && (data == old(data) || fresh(data))
      ensures var stream := old(r.Rest());
              if |stream| < 4 then err == Some(ShortRead(stream))
              else
                var l := LengthAt(stream, 0);
                if w.maxLength > 0 && l > w.maxLength then err == Some(TooLong)
                else if |stream| < 4 + l then err == Some(ShortRead(stream[4..]))
                else
                  && err == None && dataLen == l && r.Rest() == stream[4 + l..]
                  && data[..l] == stream[4..4 + l] && data[l..] == Spare(old(data[..]), l)
                  && r.Value() == After(After(old(r.Value()), 4), l)
    {
      hide Get32, After;
      ghost var stream, stale := r.Rest(), data[..];
      var got;
      got, err := r.ReadFull(4);
      if err.Some? { return; }
      var l := LengthAt(got, 0);
      assert got[0..4] == stream[0..4];
      if w.maxLength > 0 && l > w.maxLength { return Some(TooLong); }
      assert r.Rest() == stream[4..];
      if data.Length < l {
        data := new byte[l](_ => 0);
      }
      dataLen := l;
      got, err := r.ReadFull(l);
      CopyInto(data, 0, got);
      if err == None {
        assert data[..l] == data[0..l];
      }
    }

    method Decode(w: Wire, r: Reader) returns (res: Status)
      requires Valid() && r.Valid()
      modifies this, header, data, r
      ensures Valid() && r.Valid() && header == old(header) && (data == old(data) || fresh(data))
      ensures match Frame.Decode(w, old(metadata), old(data[..]), old(r.Rest()))
              case Ok(m, rest) => res == Done && Value() == m && r.Rest() == rest
              case Err(f) => res == Failed(f)
              case Panics => res == Panicked
      ensures res == Done ==> header[0] == MAGIC
      ensures res == Failed(WrongMagic) ==> header[0] != MAGIC
      ensures res == Done ==> r.Value() == AfterFrame(old(r.Value()), LengthAt(old(r.Rest()), 12))
    {
      hide DecodeBody, After;
      ghost var stream, stale := r.Rest(), data[..];
      var err := ReadHeader(r);
      if err.Some? { return Failed(err.value); }
      ghost var later := r.Rest();
      assert stream[..12] == header[..] && stream[12..] == later;
      assert |later| >= 4 ==> later[0..4] == stream[12..16];
      err := ReadData(w, r);
      if err.Some? { return Failed(err.value); }
      assert data[..dataLen] == stream[16..16 + dataLen];
      assert r.Rest() == stream[16 + dataLen..];
      assert data[dataLen..] == Spare(stale, dataLen);
      res := DecodeData(w);
    }

    // Reset.

    method Reset()
      requires Valid()
      modifies this, header
      ensures Valid() && header == old(header) && data == old(data) && dataLen == 0
      ensures Value() == BLANK_MSG.(header := BLANK[0 := old(header[0])])
    {
      ghost var magic := header[0];
      var zeros := [0, 0, 0, 0, 0, 0, 0, 0, 0, 0, 0];
      CopyInto(header, 1, zeros);
      assert header[..] == header[..1] + header[1..12];
      assert header[0] == header[..1][0] == magic;
      assert header[..] == [magic] + zeros == BLANK[0 := magic];
      metadata := None;
      payload := [];
      dataLen := 0;
      path := [];
      method_ := [];
    }
  }

  /** What remains of a source after the four reads of `Decode`. */
  function AfterFrame(src: Source, l: nat): Source { After(After(After(After(src, 1), 11), 4), l) }

  predicate Compressible(w: Wire, h: HeaderBytes, payload: Bytes) {
    var t := CompressType(h);
    t == 0 || (t in w.compressors && w.compressors[t].zip(payload).Some?)
  }

  /** The length and then the bytes of one section, to a writer. */
  method WriteSection(out: Writer, s: Bytes) returns (ok: bool)
    modifies out
    ensures ok ==> out.written == old(out.written) + Section(s)
    ensures !ok ==> old(out.written) <= out.written <= old(out.written) + Section(s)
    ensures old(out.room) == None ==> ok && out.room == None
  {
    ghost var start := out.written;
    ok := out.Write(Put32(|s|));
    assert start + Section(s) == start + Put32(|s|) + s;
    if ok { ok := out.Write(s); }
  }

  lemma HeaderFirst(start: Bytes, h: HeaderBytes, body: Bytes)
    ensures start + h <= start + Layout(h, body)
    ensures start + h + (Put32(|body|) + body) == start + Layout(h, body)
  {
  }

  lemma BodyLength(path: Bytes, method_: Bytes, meta: Bytes, raw: Bytes)
    ensures |Body(path, method_, meta, raw)| == (4 + |path|) + (4 + |method_|) + (4 + |meta|) + (4 + |raw|)
  {
  }

  method Emit(out: Writer, totalL: nat, path: Bytes, method_: Bytes, meta: Bytes, raw: Bytes) returns (ok: bool)
    requires totalL == |Body(path, method_, meta, raw)|
    modifies out
    ensures var tail := Put32(totalL) + Body(path, method_, meta, raw);
            && (ok ==> out.written == old(out.written) + tail)
            && (!ok ==> old(out.written) <= out.written <= old(out.written) + tail)
    ensures old(out.room) == None ==> ok
  {
    hide Section, Put32;
    ghost var start := out.written;
    ok := out.Write(Put32(totalL));
    if ok { ok := WriteSection(out, path); }
    if ok { ok := WriteSection(out, method_); }
    if ok { ok := WriteSection(out, meta); }
    if ok { ok := WriteSection(out, raw); }
  }

  method NextSection(full: Bytes, n: nat) returns (end: Option<nat>)
    ensures end == SectionEnd(full, n)
  {
    if n + 4 > |full| { return None; }
    var l := LengthAt(full, n);
    var nEnd := n + 4 + l;
    if nEnd > |full| { return None; }
    return Some(nEnd);
  }

  method Fill(h: HeaderBytes, path: Bytes, method_: Bytes, meta: Bytes, raw: Bytes) returns (frame: array<byte>)
    ensures fresh(frame) && frame[..] == Layout(h, Body(path, method_, meta, raw))
  {
    hide Put32, Section, Body, Layout, Filled;
    var spL := |path|;
    var smL := |method_|;
    var totalL := (4 + spL) + (4 + smL) + (4 + |meta|) + (4 + |raw|);
    var metaStart := 12 + 4 + (4 + spL) + (4 + smL);
    var payloadStart := metaStart + (4 + |meta|);
    var l := 12 + 4 + totalL;
    frame := new byte[l](_ => 0);
    Append(frame, 0, [], h);
    Append(frame, 12, h, Put32(totalL));
    ghost var s1 := h + Put32(totalL);
    AppendSection(frame, 16, s1, path);
    ghost var s2 := s1 + Section(path);
    AppendSection(frame, 20 + spL, s2, method_);
    ghost var s3 := s2 + Section(method_);
    AppendSection(frame, metaStart, s3, meta);
    AppendSection(frame, payloadStart, s3 + Section(meta), raw);
    FilledWhole(frame, s3 + Section(meta) + Section(raw));
    FilledFrame(h, path, method_, meta, raw);
  }

  /** The buffer has been filled from the front with `done`. */
  ghost predicate Filled(dst: array<byte>, done: Bytes)
    reads dst
  {
    |done| <= dst.Length && dst[..|done|] == done
  }

  lemma FilledWhole(dst: array<byte>, done: Bytes)
    requires Filled(dst, done) && |done| == dst.Length
    ensures dst[..] == done
  {
  }

  lemma FilledFrame(h: HeaderBytes, path: Bytes, method_: Bytes, meta: Bytes, raw: Bytes)
    ensures h + Put32((4 + |path|) + (4 + |method_|) + (4 + |meta|) + (4 + |raw|)) + Section(path) + Section(method_)
              + Section(meta) + Section(raw)
         == Layout(h, Body(path, method_, meta, raw))
  {
    hide Section;
    BodyLength(path, method_, meta, raw);
  }

  method Append(dst: array<byte>, at: nat, ghost done: Bytes, src: Bytes)
    requires at + |src| <= dst.Length && |done| == at && (at > 0 ==> Filled(dst, done))
    modifies dst
    ensures Filled(dst, done + src)
  {
    CopyInto(dst, at, src);
    assert dst[..at + |src|] == dst[..at] + dst[at..at + |src|];
  }

  /** The length and then the bytes of one section. */
  method AppendSection(dst: array<byte>, at: nat, ghost done: Bytes, s: Bytes)
    requires at + 4 + |s| <= dst.Length && |done| == at && Filled(dst, done)
    modifies dst
    ensures Filled(dst, done + Section(s))
  {
    hide Filled, Put32;
    Append(dst, at, done, Put32(|s|));
    Append(dst, at + 4, done + Put32(|s|), s);
    assert done + Put32(|s|) + s == done + Section(s);
  }
}
