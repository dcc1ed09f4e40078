/** The twelve-byte frame header: bit-level accessors, and the record of fields they implement. */
module Header {
  import opened Bytes

  const MAGIC: byte := 0x08

  type HeaderBytes = b: Bytes | |b| == 12 witness [0, 0, 0, 0, 0, 0, 0, 0, 0, 0, 0, 0]

  const BLANK: HeaderBytes := [MAGIC, 0, 0, 0, 0, 0, 0, 0, 0, 0, 0, 0]

  /** What the bytes mean to the getters. The low nibble of byte 3 belongs to no field. */
  datatype Fields = Fields(
    magic: byte,
    version: byte,
    response: bool,
    heartbeat: bool,
    oneway: bool,
    compress: bv8,
    status: bv8,
    serialize: bv8,
    seqNo: nat)

  function Bits(b: byte): bv8 { b as bv8 }

  function OfBits(b: bv8): byte { b as int as byte }

  lemma BitsOfBits(v: bv8)
    ensures Bits(OfBits(v)) == v
  {
  }

  // Getters.

  function MessageType(b: HeaderBytes): bv8 { (Bits(b[2]) & 0x80) >> 7 }

  predicate IsHeartbeat(b: HeaderBytes) { Bits(b[2]) & 0x40 == 0x40 }

  predicate IsOneway(b: HeaderBytes) { Bits(b[2]) & 0x20 == 0x20 }

  function CompressType(b: HeaderBytes): bv8 { (Bits(b[2]) & 0x1C) >> 2 }

  function StatusType(b: HeaderBytes): bv8 { Bits(b[2]) & 0x03 }

  function SerializeType(b: HeaderBytes): bv8 { (Bits(b[3]) & 0xF0) >> 4 }

  function SeqNo(b: HeaderBytes): (n: nat)
    ensures n < U64
  {
    FromBigEndianBound(b[4..12]);
    Pow256Values();
    FromBigEndian(b[4..12])
  }

  function View(b: HeaderBytes): Fields {
    Fields(b[0], b[1], MessageType(b) == 1, IsHeartbeat(b), IsOneway(b), CompressType(b), StatusType(b),
           SerializeType(b), SeqNo(b))
  }

  /** Which bits of bytes 2 and 3 each getter looks at, and where the number lies. */
  lemma FieldBits(b: HeaderBytes)
    ensures MessageType(b) == Bits(b[2]) / 128
    ensures IsHeartbeat(b) <==> Bits(b[2]) / 64 % 2 == 1
    ensures IsOneway(b) <==> Bits(b[2]) / 32 % 2 == 1
    ensures CompressType(b) == Bits(b[2]) / 4 % 8
    ensures StatusType(b) == Bits(b[2]) % 4
    ensures SerializeType(b) == Bits(b[3]) / 16
    ensures SeqNo(b) < U64 && b[4..12] == BigEndian(SeqNo(b), 8)
  {
    FromBigEndianRoundTrip(b[4..12]);
  }

  // Setters, as the new contents of the bytes. The message type is or-ed in without clearing the old one.

  function WithMessageType(b: HeaderBytes, mt: bv8): HeaderBytes {
    b[2 := OfBits(Bits(b[2]) | (mt << 7))]
  }

  function WithHeartbeat(b: HeaderBytes, hb: bool): HeaderBytes {
    b[2 := OfBits(if hb then Bits(b[2]) | 0x40 else Bits(b[2]) & !0x40)]
  }

  function WithOneway(b: HeaderBytes, oneway: bool): HeaderBytes {
    b[2 := OfBits(if oneway then Bits(b[2]) | 0x20 else Bits(b[2]) & !0x20)]
  }

  function WithCompressType(b: HeaderBytes, ct: bv8): HeaderBytes {
    b[2 := OfBits((Bits(b[2]) & !0x1C) | ((ct << 2) & 0x1C))]
  }

  function WithStatusType(b: HeaderBytes, st: bv8): HeaderBytes {
    b[2 := OfBits((Bits(b[2]) & !0x03) | (st & 0x03))]
  }

  function WithSerializeType(b: HeaderBytes, st: bv8): HeaderBytes {
    b[3 := OfBits((Bits(b[3]) & !0xF0) | (st << 4))]
  }

  function WithSeqNo(b: HeaderBytes, seqNo: nat): HeaderBytes {
    b[..4] + BigEndian(seqNo, 8)
  }

  // Every setter changes its own field and no other; the message type can only be turned on, and the
  // wider arguments lose their high bits.

  lemma SetMessageTypeLaw(b: HeaderBytes, mt: bv8)
    ensures View(WithMessageType(b, mt)) == View(b).(response := View(b).response || mt & 1 == 1)
  {
    BitsOfBits(Bits(b[2]) | (mt << 7));
    assert WithMessageType(b, mt)[4..12] == b[4..12];
  }

  lemma SetHeartbeatLaw(b: HeaderBytes, hb: bool)
    ensures View(WithHeartbeat(b, hb)) == View(b).(heartbeat := hb)
  {
    if hb {
      BitsOfBits(Bits(b[2]) | 0x40);
    } else {
      BitsOfBits(Bits(b[2]) & !0x40);
    }
    assert WithHeartbeat(b, hb)[4..12] == b[4..12];
  }

  lemma SetOnewayLaw(b: HeaderBytes, oneway: bool)
    ensures View(WithOneway(b, oneway)) == View(b).(oneway := oneway)
  {
    if oneway {
      BitsOfBits(Bits(b[2]) | 0x20);
    } else {
      BitsOfBits(Bits(b[2]) & !0x20);
    }
    assert WithOneway(b, oneway)[4..12] == b[4..12];
  }

  lemma SetCompressTypeLaw(b: HeaderBytes, ct: bv8)
    ensures View(WithCompressType(b, ct)) == View(b).(compress := ct & 0x07)
  {
    BitsOfBits((Bits(b[2]) & !0x1C) | ((ct << 2) & 0x1C));
    assert WithCompressType(b, ct)[4..12] == b[4..12];
  }

  lemma SetStatusTypeLaw(b: HeaderBytes, st: bv8)
    ensures View(WithStatusType(b, st)) == View(b).(status := st & 0x03)
  {
    BitsOfBits((Bits(b[2]) & !0x03) | (st & 0x03));
    assert WithStatusType(b, st)[4..12] == b[4..12];
  }

  lemma SetSerializeTypeLaw(b: HeaderBytes, st: bv8)
    ensures View(WithSerializeType(b, st)) == View(b).(serialize := st & 0x0F)
  {
    BitsOfBits((Bits(b[3]) & !0xF0) | (st << 4));
    assert WithSerializeType(b, st)[4..12] == b[4..12];
  }

  lemma SetSeqLaw(b: HeaderBytes, seqNo: nat)
    requires seqNo < U64
    ensures View(WithSeqNo(b, seqNo)) == View(b).(seqNo := seqNo)
  {
    assert WithSeqNo(b, seqNo)[4..12] == BigEndian(seqNo, 8);
    Pow256Values();
    BigEndianRoundTrip(seqNo, 8);
  }

  lemma BlankFields()
    ensures View(BLANK) == Fields(0x08, 0, false, false, false, 0, 0, 0, 0)
  {
    assert BLANK[4..12] == BigEndian(0, 8);
    Pow256Values();
    BigEndianRoundTrip(0, 8);
  }
}
