/** The message pool, and cloning through it. */
module Pool {
  import opened Bytes
  import opened Header
  import opened Frame
  import opened Streams
  import opened Messages

  class MessagePool {
    var free: set<Message>
    ghost var repr: set<object>

    /** Every pooled message is blank, and no two share an array. */
    ghost predicate Valid()
      reads this, repr
    {
      && (forall m | m in free :: m in repr && m.Objects() <= repr && m.Valid() && m.IsBlank())
      && (forall m, m' | m in free && m' in free && m != m' :: m.Apart(m'))
    }

    /** A message in use: neither pooled nor sharing an array with a pooled one. */
    ghost predicate InUse(m: Message)
      reads this, free, m
    {
      m.Valid() && m !in free && forall f | f in free :: m.Apart(f)
    }

    constructor ()
      ensures Valid() && free == {} && repr == {}
    {
      free, repr := {}, {};
    }

    /** Any pooled message or a new one: the runtime may empty the pool at any time. */
    method Get() returns (m: Message)
      requires Valid()
      modifies this
      ensures Valid() && InUse(m) && m.IsBlank() && free == old(free) - {m}
      ensures repr == old(repr) && (m in old(free) || (fresh(m) && fresh(m.header) && fresh(m.data)))
      ensures m in old(free) ==> m.Objects() <= repr
    {
      if {
        case true => m := new Message();
        case free != {} =>
          m :| m in free;
          free := free - {m};
      }
    }

    /** Returning a message keeps the pool blank exactly when its magic byte is intact. */
    method Free(m: Message)
      requires Valid() && InUse(m)
      modifies this, m, m.header
      ensures free == old(free) + {m} && m.header == old(m.header) && m.data == old(m.data)
      ensures repr == old(repr) + m.Objects()
      ensures old(m.header[0]) == MAGIC <==> Valid()
    {
      m.Reset();
      assert m.Value().header[0] == old(m.header[0]);
      assert m.IsBlank() <==> old(m.header[0]) == MAGIC;
      free := free + {m};
      repr := repr + m.Objects();
    }
  }

  /** What cloning keeps: header without compression, service path and method. */
  function CloneOf(m: Msg): Msg {
    Msg(WithCompressType(m.header, 0), m.path, m.method_, None, [])
  }

  /** The clone's header differs in the compress bits only; path and method are kept, all else is blank. */
  lemma CloneHeader(m: Msg)
    ensures View(CloneOf(m).header) == View(m.header).(compress := 0)
    ensures CloneOf(m) == Msg(CloneOf(m).header, m.path, m.method_, None, [])
  {
    hide View;
    SetCompressTypeLaw(m.header, 0);
  }

  method Clone(pool: MessagePool, m: Message) returns (c: Message)
    requires pool.Valid() && pool.InUse(m)
    modifies pool, pool.free
    ensures pool.Valid() && pool.InUse(m) && pool.InUse(c) && c.Apart(m)
    ensures c.Value() == CloneOf(m.Value()) && m.Value() == old(m.Value())
    ensures m.header == old(m.header) && m.data == old(m.data) && pool.free <= old(pool.free)
    ensures pool.repr == old(pool.repr) && (c.data in pool.repr || fresh(c.data))
    ensures fresh(c.header) && (c in old(pool.free) || fresh(c))
  {
    hide CloneOf, WithCompressType;
    var header := UncompressedHeader(m);
    ghost var before := m.Value();
    c := pool.Get();
    SetParts(c, header, m.path, m.method_);
    assert m.Value() == before;
    CloneParts(before);
  }

  method SetParts(c: Message, header: array<byte>, path: Bytes, method_: Bytes)
    requires c.Valid() && c.IsBlank() && header.Length == 12 && header != c.data
    modifies c`header, c`path, c`method_
    ensures c.Valid() && c.header == header
    ensures c.Value() == Msg(header[..], path, method_, None, [])
  {
    c.header := header;
    c.path := path;
    c.method_ := method_;
  }

  lemma CloneParts(m: Msg)
    ensures CloneOf(m) == Msg(WithCompressType(m.header, 0), m.path, m.method_, None, [])
  {
  }

  method UncompressedHeader(m: Message) returns (header: array<byte>)
    requires m.Valid()
    ensures fresh(header) && header.Length == 12 && header[..] == WithCompressType(m.header[..], 0)
  {
    header := new byte[12](_ => 0);
    CopyInto(header, 0, m.header[..]);
    assert header[..] == header[0..12];
    header[2] := OfBits((Bits(header[2]) & !0x1C) | ((0 << 2) & 0x1C));
  }
}
