/** Bytes, and the big-endian integers of the frame format. */
module Bytes {

  newtype byte = x: int | 0 <= x < 256

  type Bytes = seq<byte>

  datatype Option<+T> = None | Some(value: T)

  const U32: nat := 0x1_0000_0000
  const U64: nat := 0x1_0000_0000_0000_0000

  /** A conversion to, or an addition in, `uint32`. */
  function Wrap32(v: nat): (w: nat)
    ensures w < U32
    ensures v < U32 ==> w == v
    ensures U32 <= v < 2 * U32 ==> w == v - U32
  {
    v % 0x1_0000_0000
  }

  function Pow256(k: nat): nat {
    if k == 0 then 1 else 256 * Pow256(k - 1)
  }

  /** The `k` low-order bytes of `v`, most significant first. */
  function BigEndian(v: nat, k: nat): (s: Bytes)
    ensures |s| == k
  {
    if k == 0 then [] else BigEndian(v / 256, k - 1) + [(v % 256) as byte]
  }

  function FromBigEndian(s: Bytes): nat {
    if |s| == 0 then 0 else FromBigEndian(s[..|s| - 1]) * 256 + s[|s| - 1] as nat
  }

  lemma {:induction false} FromBigEndianBound(s: Bytes)
    ensures FromBigEndian(s) < Pow256(|s|)
  {
    if |s| > 0 {
      FromBigEndianBound(s[..|s| - 1]);
    }
  }

  lemma {:induction false} BigEndianRoundTrip(v: nat, k: nat)
    requires v < Pow256(k)
    ensures FromBigEndian(BigEndian(v, k)) == v
  {
    if k > 0 {
      assert v / 256 < Pow256(k - 1);
      BigEndianRoundTrip(v / 256, k - 1);
      assert BigEndian(v, k)[..k - 1] == BigEndian(v / 256, k - 1);
    }
  }

  lemma {:induction false} FromBigEndianRoundTrip(s: Bytes)
    ensures BigEndian(FromBigEndian(s), |s|) == s
  {
    if |s| > 0 {
      FromBigEndianRoundTrip(s[..|s| - 1]);
    }
  }

  lemma {:induction false} DivideTwice(v: nat, p: nat)
    requires p > 0
    ensures v / 256 / p == v / (256 * p)
  {
    var q := v / 256 / p;
    var r := v / 256 % p;
    assert v / 256 == q * p + r;
    assert v == q * (256 * p) + (256 * r + v % 256);
    Quotient(q, 256 * r + v % 256, v / (256 * p), v % (256 * p), 256 * p);
  }

  /** Quotient and remainder are unique. */
  lemma Quotient(q: int, r: nat, q': int, r': nat, n: nat)
    requires r < n && r' < n && q * n + r == q' * n + r'
    ensures q == q' && r == r'
  {
    if q < q' {
      Bigger(q' - q, n);
    } else if q' < q {
      Bigger(q - q', n);
    }
  }

  lemma Bigger(d: nat, n: nat)
    requires d >= 1
    ensures d * n >= n
  {
  }

  /** Byte `i` of `k` is the digit of base 256 with `k - 1 - i` digits behind it. */
  lemma {:induction false} BigEndianDigit(v: nat, k: nat, i: nat)
    requires i < k
    ensures Pow256(k - 1 - i) > 0 && BigEndian(v, k)[i] as nat == v / Pow256(k - 1 - i) % 256
  {
    if i < k - 1 {
      BigEndianDigit(v / 256, k - 1, i);
      DivideTwice(v, Pow256(k - 2 - i));
    }
  }

  lemma Pow256Values()
    ensures Pow256(4) == U32 && Pow256(8) == U64
  {
    assert Pow256(2) == 65536;
    assert Pow256(4) == 256 * (256 * Pow256(2));
    assert Pow256(6) == 256 * (256 * Pow256(4));
    assert Pow256(8) == 256 * (256 * Pow256(6));
  }

  /** The four bytes written for the conversion `uint32(v)`. */
  function Put32(v: nat): (s: Bytes)
    ensures |s| == 4
  {
    BigEndian(Wrap32(v), 4)
  }

  function Get32(s: Bytes): (v: nat)
    requires |s| == 4
    ensures v < U32
  {
    FromBigEndianBound(s);
    Pow256Values();
    FromBigEndian(s)
  }

  lemma GetPut32(v: nat)
    ensures Get32(Put32(v)) == Wrap32(v)
  {
    Pow256Values();
    BigEndianRoundTrip(Wrap32(v), 4);
  }

  lemma PutGet32(s: Bytes)
    requires |s| == 4
    ensures Put32(Get32(s)) == s
  {
    FromBigEndianRoundTrip(s);
  }
}
