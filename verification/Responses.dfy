/** How the client reads responses: a new buffered reader over the same connection for each of them. */
module Responses {
  import opened Bytes
  import opened MetadataCodec
  import opened Frame
  import opened FrameLaws
  import opened Streams
  import opened Messages

  // What less than a buffer of bytes leaves behind.

  /** What remains after taking `n` bytes, if no request is as large as the buffer. */
  function Small(src: Source, n: nat): Source
    requires Pieces(src.chunks)
    decreases n, if src.buffered == [] then 1 else 0
  {
    if n <= |src.buffered| then Source(src.buffered[n..], src.chunks)
    else if src.chunks == [] then Source([], [])
    else
      PieceSplits(src.chunks, BUFFER);
      Small(Source(Piece(src.chunks, BUFFER).0, Piece(src.chunks, BUFFER).1), n - |src.buffered|)
  }

  lemma {:induction false} SmallPieces(src: Source, n: nat)
    requires Pieces(src.chunks)
    ensures Pieces(Small(src, n).chunks)
    decreases n, if src.buffered == [] then 1 else 0
  {
    if n > |src.buffered| && src.chunks != [] {
      hide Piece;
      PieceSplits(src.chunks, BUFFER);
      SmallPieces(Source(Piece(src.chunks, BUFFER).0, Piece(src.chunks, BUFFER).1), n - |src.buffered|);
    }
  }

  /** An empty buffer is filled first. */
  lemma SmallFills(src: Source, n: nat)
    requires Pieces(src.chunks) && src.buffered == [] && n > 0 && src.chunks != []
    ensures var (got, rest) := Piece(src.chunks, BUFFER);
            Pieces(rest) && got != [] && Small(src, n) == Small(Source(got, rest), n)
  {
    hide Piece;
    PieceSplits(src.chunks, BUFFER);
    assert Concat(src.chunks) != [];
  }

  lemma {:induction false} AfterIsSmall(src: Source, n: nat)
    requires Pieces(src.chunks) && n < BUFFER
    ensures After(src, n) == Small(src, n)
    decreases n
  {
    if n > 0 {
      if src.buffered == [] {
        if src.chunks != [] {
          FillThenTake(src, n);
        }
      } else {
        TakeHeld(src, n);
      }
    }
  }

  lemma TakeHeld(src: Source, n: nat)
    requires Pieces(src.chunks) && 0 < n < BUFFER && src.buffered != []
    ensures After(src, n) == Small(src, n)
    decreases n, 0
  {
    var m := if |src.buffered| <= n then |src.buffered| else n;
    var rest := Source(src.buffered[m..], src.chunks);
    assert ReadOnce(src, n) == (src.buffered[..m], rest);
    AfterStep(src, n);
    AfterIsSmall(rest, n - m);
  }

  lemma FillThenTake(src: Source, n: nat)
    requires Pieces(src.chunks) && 0 < n < BUFFER && src.buffered == [] && src.chunks != []
    ensures After(src, n) == Small(src, n)
    decreases n, 1
  {
    hide Piece;
    var (got, rest) := Piece(src.chunks, BUFFER);
    SmallFills(src, n);
    var filled := Source(got, rest);
    assert ReadOnce(src, n) == ReadOnce(filled, n);
    TakeHeld(filled, n);
    assert |ReadOnce(filled, n).0| <= n;
    hide ReadOnce;
    AfterStep(src, n);
    AfterStep(filled, n);
  }

  lemma {:induction false} SmallTwice(src: Source, a: nat, b: nat)
    requires Pieces(src.chunks)
    ensures Pieces(Small(src, a).chunks) && Small(Small(src, a), b) == Small(src, a + b)
    decreases a, if src.buffered == [] then 1 else 0
  {
    SmallPieces(src, a);
    if a > |src.buffered| && src.chunks != [] {
      hide Piece;
      PieceSplits(src.chunks, BUFFER);
      SmallTwice(Source(Piece(src.chunks, BUFFER).0, Piece(src.chunks, BUFFER).1), a - |src.buffered|, b);
    }
  }

  /** The four reads of a frame that is shorter than the buffer. */
  lemma ShortFrame(chunks: seq<Bytes>, l: nat)
    requires Pieces(chunks) && 16 + l < BUFFER
    ensures AfterFrame(Source([], chunks), l) == Small(Source([], chunks), 16 + l)
  {
    hide After, Small;
    var src := Source([], chunks);
    AfterIsSmall(src, 1);
    SmallTwice(src, 1, 11);
    AfterIsSmall(Small(src, 1), 11);
    SmallTwice(src, 12, 4);
    AfterIsSmall(Small(src, 12), 4);
    SmallTwice(src, 16, l);
    AfterIsSmall(Small(src, 16), l);
  }

  // The condition on the cuts.

  /** The first `n` bytes are a whole number of pieces. */
  ghost predicate EndsAtCut(chunks: seq<Bytes>, n: nat)
    requires n <= |Concat(chunks)|
  {
    exists i :: 0 <= i <= |chunks| && Concat(chunks[..i]) == Concat(chunks)[..n]
  }

  lemma {:induction false} ConcatSplit(chunks: seq<Bytes>, i: nat)
    requires i <= |chunks|
    ensures Concat(chunks) == Concat(chunks[..i]) + Concat(chunks[i..])
  {
    if i > 0 {
      ConcatSplit(chunks[1..], i - 1);
      assert chunks[..i][1..] == chunks[1..][..i - 1] && chunks[1..][i - 1..] == chunks[i..];
      assert Concat(chunks[..i]) == chunks[0] + Concat(chunks[1..][..i - 1]);
    } else {
      assert chunks[0..] == chunks;
    }
  }

  lemma CutLength(chunks: seq<Bytes>, n: nat)
    requires n <= |Concat(chunks)|
    ensures EndsAtCut(chunks, n) <==> exists i :: 0 <= i <= |chunks| && |Concat(chunks[..i])| == n
  {
    forall i | 0 <= i <= |chunks| && |Concat(chunks[..i])| == n
      ensures Concat(chunks[..i]) == Concat(chunks)[..n]
    {
      ConcatSplit(chunks, i);
    }
  }

  /** One piece less. */
  lemma CutBehind(chunks: seq<Bytes>, n: nat)
    requires chunks != [] && |chunks[0]| <= n <= |Concat(chunks)| && n > 0
    ensures EndsAtCut(chunks, n) <==> EndsAtCut(chunks[1..], n - |chunks[0]|)
  {
    CutLength(chunks, n);
    CutLength(chunks[1..], n - |chunks[0]|);
    forall i | 0 < i <= |chunks|
      ensures |Concat(chunks[..i])| == |chunks[0]| + |Concat(chunks[1..][..i - 1])|
    {
      assert chunks[..i][1..] == chunks[1..][..i - 1];
    }
    if i :| 0 <= i <= |chunks| && |Concat(chunks[..i])| == n {
      assert i > 0;
      assert |Concat(chunks[1..][..i - 1])| == n - |chunks[0]|;
    }
    if i :| 0 <= i <= |chunks[1..]| && |Concat(chunks[1..][..i])| == n - |chunks[0]| {
      assert |Concat(chunks[..i + 1])| == |chunks[0]| + |Concat(chunks[1..][..i + 1 - 1])|;
    }
  }

  lemma NoCutInside(chunks: seq<Bytes>, n: nat)
    requires chunks != [] && 0 < n < |chunks[0]|
    ensures n <= |Concat(chunks)| && !EndsAtCut(chunks, n)
  {
    CutLength(chunks, n);
    forall i | 0 <= i <= |chunks|
      ensures |Concat(chunks[..i])| != n
    {
      if i > 0 {
        assert chunks[..i][0] == chunks[0];
      }
    }
  }

  lemma {:induction false} SmallCut(chunks: seq<Bytes>, n: nat)
    requires Pieces(chunks) && n < BUFFER && n <= |Concat(chunks)|
    ensures Small(Source([], chunks), n).buffered == [] <==> EndsAtCut(chunks, n)
    decreases n
  {
    if n == 0 {
      assert Concat(chunks[..0]) == Concat(chunks)[..0];
    } else {
      var src := Source([], chunks);
      SmallFills(src, n);
      if n < |chunks[0]| {
        NoCutInside(chunks, n);
      } else {
        var rest := Source(chunks[0], chunks[1..]);
        assert Small(src, n) == Small(rest, n);
        CutBehind(chunks, n);
        SmallCut(chunks[1..], n - |chunks[0]|);
        assert Small(rest, n) == Small(Source([], chunks[1..]), n - |chunks[0]|) by { SmallDrains(chunks, n); }
      }
    }
  }

  lemma SmallDrains(chunks: seq<Bytes>, n: nat)
    requires Pieces(chunks) && chunks != [] && |chunks[0]| <= n
    ensures Small(Source(chunks[0], chunks[1..]), n) == Small(Source([], chunks[1..]), n - |chunks[0]|)
  {
    hide Piece;
    if n > |chunks[0]| && chunks[1..] != [] {
      SmallFills(Source([], chunks[1..]), n - |chunks[0]|);
    }
  }

  /** For frames shorter than the buffer: nothing is dropped if and only if the frame is a whole number of pieces. */
  lemma NothingDroppedExactly(chunks: seq<Bytes>, l: nat)
    requires Pieces(chunks) && 16 + l < 1024 && 16 + l <= |Concat(chunks)|
    ensures AfterFrame(Source([], chunks), l).buffered == [] <==> EndsAtCut(chunks, 16 + l)
  {
    hide Small, AfterFrame, EndsAtCut;
    ShortFrame(chunks, l);
    SmallCut(chunks, 16 + l);
  }

  // Frames of any size that end at a cut.

  /** The source holds exactly `n` bytes in front of the pieces `later`. */
  ghost predicate Before(src: Source, later: seq<Bytes>, n: nat) {
    Pieces(src.chunks) && exists pre :: src.chunks == pre + later && |src.buffered| + |Concat(pre)| == n
  }

  lemma PieceBefore(pre: seq<Bytes>, later: seq<Bytes>, limit: nat) returns (pre': seq<Bytes>)
    requires Pieces(pre + later) && pre != [] && limit > 0
    ensures var (got, rest) := Piece(pre + later, limit);
            && 0 < |got| <= limit && Pieces(rest) && rest == pre' + later && |got| + |Concat(pre')| == |Concat(pre)|
  {
    var all := pre + later;
    PieceSplits(all, limit);
    assert all[0] == pre[0] && all[1..] == pre[1..] + later;
    if |pre[0]| <= limit {
      pre' := pre[1..];
    } else {
      pre' := [pre[0][limit..]] + pre[1..];
      assert pre'[1..] == pre[1..];
      assert [pre[0][limit..]] + (pre[1..] + later) == pre' + later;
    }
  }

  lemma ReadBefore(src: Source, later: seq<Bytes>, n: nat, limit: nat)
    requires Before(src, later, n) && 0 < limit <= n
    ensures var (got, rest) := ReadOnce(src, limit); 0 < |got| <= limit && Before(rest, later, n - |got|)
  {
    var pre :| src.chunks == pre + later && |src.buffered| + |Concat(pre)| == n;
    if src.buffered == [] {
      hide Piece;
      assert pre != [];
      var pre' := PieceBefore(pre, later, if limit >= BUFFER then limit else BUFFER);
      assert ReadOnce(src, limit).1.chunks == pre' + later;
    } else {
      assert ReadOnce(src, limit).1.chunks == pre + later;
    }
  }

  lemma {:induction false} AfterBefore(src: Source, later: seq<Bytes>, n: nat, m: nat)
    requires Before(src, later, n) && m <= n
    ensures Before(After(src, m), later, n - m)
    decreases m
  {
    if m > 0 {
      hide Before, ReadOnce;
      ReadBefore(src, later, n, m);
      AfterStep(src, m);
      var (got, rest) := ReadOnce(src, m);
      AfterBefore(rest, later, n - |got|, m - |got|);
    }
  }

  /** A frame of any size that ends at a cut leaves exactly the pieces behind it. */
  lemma NothingDropped(chunks: seq<Bytes>, l: nat, i: nat)
    requires Pieces(chunks) && i <= |chunks| && |Concat(chunks[..i])| == 16 + l
    ensures AfterFrame(Source([], chunks), l) == Source([], chunks[i..])
  {
    var src, later := Source([], chunks), chunks[i..];
    assert chunks == chunks[..i] + later;
    assert Before(src, later, 16 + l);
    hide Before, After;
    AfterBefore(src, later, 16 + l, 1);
    AfterBefore(After(src, 1), later, 15 + l, 11);
    AfterBefore(After(After(src, 1), 11), later, 4 + l, 4);
    AfterBefore(After(After(After(src, 1), 11), 4), later, l, l);
    BeforeNothing(AfterFrame(src, l), later);
  }

  lemma PiecesNone(pieces: seq<Bytes>)
    requires Pieces(pieces)
    ensures Concat(pieces) == [] <==> pieces == []
  {
  }

  lemma BeforeNothing(src: Source, later: seq<Bytes>)
    requires Before(src, later, 0)
    ensures src == Source([], later)
  {
    var pre :| src.chunks == pre + later && |src.buffered| + |Concat(pre)| == 0;
    forall i | 0 <= i < |pre|
      ensures pre[i] != []
    {
      assert src.chunks[i] == pre[i];
    }
    PiecesNone(pre);
  }

  /** The client's end of a connection: the pieces that it has still to receive. */
  class ClientConn {
    var chunks: seq<Bytes>

    ghost predicate Valid()
      reads this
    {
      Pieces(chunks)
    }

    ghost function Rest(): Bytes
      reads this
    {
      Concat(chunks)
    }

    constructor (chunks: seq<Bytes>)
      requires Pieces(chunks)
      ensures Valid() && this.chunks == chunks
    {
      this.chunks := chunks;
    }

    /**
     * `readResponse`: what the reader has buffered behind the frame is dropped with it. That is nothing if the frame
     * ends at a cut, and for a frame shorter than the buffer only then.
     */
    method ReadResponse(w: Wire, resp: Message) returns (res: Messages.Status, ghost dropped: Bytes)
      requires Valid() && resp.Valid()
      modifies this, resp, resp.header, resp.data
      ensures Valid() && resp.Valid()
      ensures resp.header == old(resp.header) && (resp.data == old(resp.data) || fresh(resp.data))
      ensures match Frame.Decode(w, old(resp.metadata), old(resp.data[..]), old(Rest()))
              case Ok(m, rest) =>
                var l := LengthAt(old(Rest()), 12);
                && res == Done && resp.Value() == m && rest == dropped + Rest()
                && Source(dropped, chunks) == AfterFrame(Source([], old(chunks)), l)
                && (EndsAtCut(old(chunks), 16 + l) ==> dropped == [])
                && (16 + l < 1024 && dropped == [] ==> EndsAtCut(old(chunks), 16 + l))
              case Err(f) => res == Failed(f)
              case Panics => res == Panicked
    {
      hide Frame.Decode, AfterFrame, LengthAt, EndsAtCut, Concat;
      var r := new Reader(chunks);
      ghost var before, stream := chunks, Rest();
      res := resp.Decode(w, r);
      chunks := r.chunks;
      dropped := r.buffered;
      if res == Done {
        DroppedExactly(before, LengthAt(stream, 12));
      }
    }
  }

  lemma DroppedExactly(chunks: seq<Bytes>, l: nat)
    requires Pieces(chunks) && 16 + l <= |Concat(chunks)|
    ensures EndsAtCut(chunks, 16 + l) ==> AfterFrame(Source([], chunks), l).buffered == []
    ensures 16 + l < 1024 && AfterFrame(Source([], chunks), l).buffered == [] ==> EndsAtCut(chunks, 16 + l)
  {
    CutLength(chunks, 16 + l);
    hide EndsAtCut, AfterFrame;
    if EndsAtCut(chunks, 16 + l) {
      var i :| 0 <= i <= |chunks| && |Concat(chunks[..i])| == 16 + l;
      NothingDropped(chunks, l, i);
    }
    if 16 + l < BUFFER {
      NothingDroppedExactly(chunks, l);
    }
  }

  // A frame and what follows it in one piece.

  /** The first refill takes what fits the buffer, and sixteen bytes of it go into the header and the length. */
  lemma FirstSixteen(piece: Bytes)
    requires |piece| >= 16
    ensures var (got, rest) := Piece([piece], BUFFER);
            16 <= |got| && After(After(After(Source([], [piece]), 1), 11), 4) == Source(got[16..], rest)
  {
    var src := Source([], [piece]);
    var (got, rest) := Piece([piece], BUFFER);
    assert Concat([piece]) == piece by { OneConcat(piece); }
    ShortFrame([piece], 0);
    SmallFills(src, 16);
    hide After;
    AfterNone(After(After(After(src, 1), 11), 4));
  }

  lemma OneCut(piece: Bytes, n: nat)
    requires 0 < n <= |piece|
    ensures |Concat([piece])| == |piece| && (EndsAtCut([piece], n) <==> n == |piece|)
  {
    OneConcat(piece);
    CutLength([piece], n);
    if n < |piece| {
      NoCutInside([piece], n);
    } else {
      assert Concat([piece][..1]) == piece;
    }
  }

  /** With an empty buffer a request as large as the buffer is read past it, a smaller one fills it. */
  lemma OneRequest(tail: Bytes, m: nat)
    requires m <= |tail| && tail != []
    ensures After(Source([], [tail]), m).buffered == [] <==> m == 0 || m >= BUFFER || m == |tail|
  {
    var src := Source([], [tail]);
    AfterNone(src);
    if m >= BUFFER {
      AfterStep(src, m);
      AfterNone(ReadOnce(src, m).1);
    } else if m > 0 {
      hide After;
      AfterIsSmall(src, m);
      OneCut(tail, m);
      SmallCut([tail], m);
    }
  }

  lemma TakeAll(held: Bytes, chunks: seq<Bytes>, n: nat)
    requires held != [] && |held| <= n
    ensures After(Source(held, chunks), n) == After(Source([], chunks), n - |held|)
  {
    var src := Source(held, chunks);
    assert held[..|held|] == held && held[|held|..] == [];
    assert ReadOnce(src, n) == (held, Source([], chunks));
    AfterStep(src, n);
  }

  /**
   * A frame that arrives in one piece with what follows it: nothing is dropped if and only if nothing follows, or the
   * frame is as large as the buffer, or at least twice as large.
   */
  lemma OnePieceExactly(frame: Bytes, more: Bytes, l: nat)
    requires |frame| == 16 + l
    ensures AfterFrame(Source([], [frame + more]), l).buffered == []
            <==> more == [] || |frame| == 1024 || |frame| >= 2048
  {
    hide After, AfterFrame, EndsAtCut, Concat;
    var piece := frame + more;
    var n := |frame|;
    OneCut(piece, n);
    if n < BUFFER {
      NothingDroppedExactly([piece], l);
    } else {
      LargeFrame(piece, l);
    }
  }

  lemma LargeFrame(piece: Bytes, l: nat)
    requires BUFFER <= 16 + l <= |piece|
    ensures AfterFrame(Source([], [piece]), l).buffered == []
            <==> 16 + l == |piece| || 16 + l == BUFFER || 16 + l >= 2 * BUFFER
  {
    hide After;
    FirstSixteen(piece);
    var (got, rest) := Piece([piece], BUFFER);
    TakeAll(got[16..], rest, l);
    if |piece| == BUFFER {
      AfterNone(Source([], rest));
    } else {
      assert rest == [piece[BUFFER..]];
      OneRequest(piece[BUFFER..], 16 + l - BUFFER);
    }
  }

  /** What lies behind the first frame in the buffer is gone. */
  lemma SecondInBuffer(first: Bytes, second: Bytes, l: nat)
    requires |first| == 16 + l && |first| + |second| < BUFFER && second != []
    ensures AfterFrame(Source([], [first + second]), l) == Source(second, [])
  {
    var piece := first + second;
    ShortFrame([piece], l);
    SmallFills(Source([], [piece]), 16 + l);
    var tail: seq<Bytes> := [piece][1..];
    assert tail == [];
    assert piece[16 + l..] == second;
  }

  /** Two responses that arrive in one piece: the first is read, the second is lost, and the stream seems to end. */
  method SecondIsLost(w: Wire, m: Msg, order: seq<Bytes>, m': Msg, order': seq<Bytes>, resp: Message)
    returns (one: Messages.Status, ghost got: Msg, two: Messages.Status)
    requires resp.Valid() && Lawful(w)
    requires Enumerates(order, m.Entries()) && Sendable(w, m, order)
    requires Enumerates(order', m'.Entries()) && Sendable(w, m', order')
    requires |Encoded(w, m, order)| + |Encoded(w, m', order')| < 1024
    modifies resp, resp.header, resp.data
    ensures one == Done && got == Received(w, m, old(resp.metadata)) && two == Failed(EOF)
  {
    hide Frame.Decode, Encoded, Received, Sendable, AfterFrame, EndsAtCut, LengthAt;
    ghost var first, second := Encoded(w, m, order), Encoded(w, m', order');
    EncodedLength(w, m, order, second);
    EncodedLength(w, m', order', []);
    RoundTrip(w, m, order, resp.metadata, resp.data[..], second);
    ghost var l: nat := |first| - 16;
    var conn := new ClientConn([Encoded(w, m, order) + Encoded(w, m', order')]);
    assert conn.Rest() == first + second by { OneConcat(first + second); }
    ghost var dropped;
    one, dropped := conn.ReadResponse(w, resp);
    SecondInBuffer(first, second, l);
    got := resp.Value();
    assert conn.Rest() == [];
    EmptyStream(w, resp.metadata, resp.data[..]);
    two, dropped := conn.ReadResponse(w, resp);
  }

  lemma OneConcat(s: Bytes)
    ensures Concat([s]) == s
  {
    var tail: seq<Bytes> := [s][1..];
    assert tail == [];
  }

  lemma EmptyStream(w: Wire, prior: Option<Metadata>, stale: Bytes)
    ensures Frame.Decode(w, prior, stale, []) == Err(EOF)
  {
  }

  lemma EncodedLength(w: Wire, m: Msg, order: seq<Bytes>, rest: Bytes)
    requires Enumerates(order, m.Entries()) && Sendable(w, m, order)
    ensures var frame := Encoded(w, m, order);
            |frame| >= 16 && |frame| == 16 + LengthAt(frame + rest, 12)
  {
    hide BodyOf;
    LayoutOffsets(Compressed(w, m.header, m.payload).0, BodyOf(w, m, order), rest);
  }
}
