/** The buffered reader and the writer that frames pass through. */
module Streams {
  import opened Bytes
  import opened Frame

  function Concat(chunks: seq<Bytes>): Bytes {
    if chunks == [] then [] else chunks[0] + Concat(chunks[1..])
  }

  /** The size of the read buffers of both ends. */
  const BUFFER := 1024

  /** A buffered reader as a value: what it holds, and the pieces that the connection has still to hand over. */
  datatype Source = Source(buffered: Bytes, chunks: seq<Bytes>)

  ghost predicate Pieces(chunks: seq<Bytes>) {
    forall i | 0 <= i < |chunks| :: chunks[i] != []
  }

  /** One read of the connection: the next piece, or its first `limit` bytes. */
  function Piece(chunks: seq<Bytes>, limit: nat): (Bytes, seq<Bytes>) {
    if chunks == [] then ([], [])
    else if |chunks[0]| <= limit then (chunks[0], chunks[1..])
    else (chunks[0][..limit], [chunks[0][limit..]] + chunks[1..])
  }

  /** One read of the buffered reader: an empty buffer is filled first, unless the request is as large as it is. */
  function ReadOnce(src: Source, limit: nat): (Bytes, Source) {
    if src.buffered == [] && limit >= BUFFER then
      var (got, rest) := Piece(src.chunks, limit);
      (got, Source([], rest))
    else
      var (held, rest) := if src.buffered == [] then Piece(src.chunks, BUFFER) else (src.buffered, src.chunks);
      var n := if |held| <= limit then |held| else limit;
      (held[..n], Source(held[n..], rest))
  }

  /** What remains after reading until `n` bytes have been taken, or the end. */
  function After(src: Source, n: nat): Source
    decreases n
  {
    if n == 0 then src
    else
      var (got, rest) := ReadOnce(src, n);
      if got == [] || |got| > n then rest else After(rest, n - |got|)
  }

  lemma AfterStep(src: Source, n: nat)
    requires n > 0 && |ReadOnce(src, n).0| <= n
    ensures var (got, rest) := ReadOnce(src, n); After(src, n) == if got == [] then rest else After(rest, n - |got|)
  {
    hide ReadOnce;
  }

  lemma ConcatFront(first: Bytes, rest: seq<Bytes>)
    ensures Concat([first] + rest) == first + Concat(rest)
  {
    assert ([first] + rest)[1..] == rest;
  }

  lemma CutFront(first: Bytes, rest: seq<Bytes>, limit: nat)
    requires limit < |first|
    ensures Concat([first] + rest) == first[..limit] + Concat([first[limit..]] + rest)
  {
    hide Concat;
    ConcatFront(first, rest);
    ConcatFront(first[limit..], rest);
    assert first == first[..limit] + first[limit..];
  }

  lemma PieceSplits(chunks: seq<Bytes>, limit: nat)
    requires Pieces(chunks) && limit > 0
    ensures var (got, rest) := Piece(chunks, limit);
            && Pieces(rest) && |got| <= limit && Concat(chunks) == got + Concat(rest)
            && (got == [] <==> Concat(chunks) == [])
  {
    if chunks == [] {
      return;
    }
    var first, rest := chunks[0], chunks[1..];
    assert chunks == [first] + rest;
    hide Concat;
    ConcatFront(first, rest);
    if |first| > limit {
      CutFront(first, rest, limit);
    }
  }

  /**
   * A buffered reader over a connection. `chunks` are the pieces in which the connection will hand over
   * its bytes, cut in any way; after the last one the connection reports EOF.
   */
  class Reader {
    var buffered: Bytes
    var chunks: seq<Bytes>

    ghost predicate Valid()
      reads this
    {
      Pieces(chunks)
    }

    /** All the bytes still to come. */
    ghost function Rest(): Bytes
      reads this
    {
      buffered + Concat(chunks)
    }

    ghost function Value(): Source
      reads this
    {
      Source(buffered, chunks)
    }

    constructor (chunks: seq<Bytes>)
      requires Pieces(chunks)
      ensures Valid() && Rest() == Concat(chunks) && Value() == Source([], chunks)
    {
      this.buffered := [];
      this.chunks := chunks;
    }

    /** One read of the connection: at most `limit` bytes of the next chunk, nothing at EOF. */
    method Receive(limit: nat) returns (got: Bytes)
      requires Valid() && limit > 0
      modifies this`chunks
      ensures Valid() && (got, chunks) == Piece(old(chunks), limit)
      ensures |got| <= limit && Concat(old(chunks)) == got + Concat(chunks)
      ensures got == [] <==> Concat(old(chunks)) == []
    {
      PieceSplits(chunks, limit);
      if chunks == [] {
        return [];
      }
      var next := chunks[0];
      if |next| <= limit {
        got := next;
        chunks := chunks[1..];
      } else {
        got := next[..limit];
        chunks := [next[limit..]] + chunks[1..];
      }
    }

    /** One read of the buffered reader: at most `limit` bytes, nothing at EOF. */
    method Read(limit: nat) returns (got: Bytes)
      requires Valid() && limit > 0
      modifies this
      ensures Valid() && (got, Value()) == ReadOnce(old(Value()), limit)
      ensures |got| <= limit && old(Rest()) == got + Rest()
      ensures got == [] <==> old(Rest()) == []
    {
      hide Piece;
      if buffered == [] {
        if limit >= BUFFER {
          got := Receive(limit);
          return;
        }
        buffered := Receive(BUFFER);
      }
      var n := if |buffered| <= limit then |buffered| else limit;
      got := buffered[..n];
      assert buffered == got + buffered[n..];
      buffered := buffered[n..];
    }

    /** `io.ReadFull` for `n` bytes: `got` is what lands in the buffer, also when the stream ends early. */
    method ReadFull(n: nat) returns (got: Bytes, err: Option<Failure>)
      requires Valid()
      modifies this
      ensures Valid() && Value() == After(old(Value()), n)
      ensures old(Rest()) == got + Rest() && |got| <= n
      ensures err == None <==> |old(Rest())| >= n
      ensures err == None ==> |got| == n
      ensures err.Some? ==> err.value == ShortRead(old(Rest()))
    {
      hide ReadOnce, After, Concat;
      got := [];
      while |got| < n
        invariant Valid() && |got| <= n
        invariant old(Rest()) == got + Rest()
        invariant After(old(Value()), n) == After(Value(), n - |got|)
        decreases n - |got|
      {
        ghost var before := Value();
        var part := Read(n - |got|);
        AfterStep(before, n - |got|);
        assert got + (part + Rest()) == got + part + Rest();
        if part == [] {
          assert got + [] == got;
          return got, Some(if got == [] then EOF else UnexpectedEOF);
        }
        got := got + part;
      }
      assert After(Value(), 0) == Value() by { AfterNone(Value()); }
      err := None;
    }
  }

  lemma AfterNone(src: Source)
    ensures After(src, 0) == src
  {
  }

  /** `copy(dst[at:], src)` for a source that fits. */
  method CopyInto(dst: array<byte>, at: nat, src: Bytes)
    requires at + |src| <= dst.Length
    modifies dst
    ensures dst[at..at + |src|] == src
    ensures dst[..at] == old(dst[..at]) && dst[at + |src|..] == old(dst[at + |src|..])
  {
    for i := 0 to |src|
      invariant dst[at..at + i] == src[..i]
      invariant dst[..at] == old(dst[..at]) && dst[at + |src|..] == old(dst[at + |src|..])
    {
      dst[at + i] := src[i];
      assert dst[at..at + i + 1] == dst[at..at + i] + [src[i]];
    }
  }

  /** A writer that may fail at any point, after taking some of the bytes it was given. */
  class Writer {
    var written: Bytes
    var room: Option<nat>

    constructor (room: Option<nat>)
      ensures written == [] && this.room == room
    {
      this.written := [];
      this.room := room;
    }

    method Write(p: Bytes) returns (ok: bool)
      modifies this
      ensures ok ==> written == old(written) + p
      ensures !ok ==> old(written) <= written <= old(written) + p
      ensures old(room) == None ==> ok && room == None
    {
      match room
      case None =>
        written := written + p;
        ok := true;
      case Some(n) =>
        ok := |p| <= n;
        var taken := if ok then p else p[..n];
        written := written + taken;
        room := Some(n - |taken|);
    }
  }
}
