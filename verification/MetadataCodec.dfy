/** The metadata block of a frame: length-prefixed keys and values, in whatever order the map is iterated. */
module MetadataCodec {
  import opened Bytes

  type Metadata = map<Bytes, Bytes>

  datatype Pair = Pair(key: Bytes, value: Bytes)

  /** A length-prefixed string. */
  function Section(s: Bytes): (b: Bytes)
    ensures |b| == 4 + |s| && b[..4] == Put32(|s|) && b[4..] == s
  {
    Put32(|s|) + s
  }

  function EncodePair(p: Pair): Bytes { Section(p.key) + Section(p.value) }

  function EncodePairs(ps: seq<Pair>): Bytes {
    if ps == [] then [] else EncodePair(ps[0]) + EncodePairs(ps[1..])
  }

  /** The map left by storing the pairs in turn: the last value of a key wins. */
  function Store(m: Metadata, ps: seq<Pair>): Metadata
    decreases ps
  {
    if ps == [] then m else Store(m[ps[0].key := ps[0].value], ps[1..])
  }

  lemma {:induction false} EncodePairsAppend(ps: seq<Pair>, p: Pair)
    ensures EncodePairs(ps + [p]) == EncodePairs(ps) + EncodePair(p)
  {
    hide EncodePair;
    if ps == [] {
      assert [p][1..] == [];
      assert EncodePairs([]) == [];
    } else {
      EncodePairsAppend(ps[1..], p);
      assert (ps + [p])[1..] == ps[1..] + [p];
      assert EncodePairs(ps + [p]) == EncodePair(ps[0]) + EncodePairs(ps[1..] + [p]);
    }
  }

  /** `Store` on an empty map keeps exactly the keys that occur, each with the value of its last pair. */
  lemma {:induction false} StoreKeys(m: Metadata, ps: seq<Pair>)
    ensures Store(m, ps).Keys == m.Keys + set p | p in ps :: p.key
    decreases ps
  {
    if ps != [] {
      StoreKeys(m[ps[0].key := ps[0].value], ps[1..]);
      assert ps == [ps[0]] + ps[1..];
    }
  }

  lemma {:induction false} StoreOther(m: Metadata, ps: seq<Pair>, k: Bytes)
    requires forall p | p in ps :: p.key != k
    ensures k in Store(m, ps) <==> k in m
    ensures k in m ==> Store(m, ps)[k] == m[k]
    decreases ps
  {
    if ps != [] {
      StoreOther(m[ps[0].key := ps[0].value], ps[1..], k);
    }
  }

  lemma {:induction false} StoreLastWins(m: Metadata, ps: seq<Pair>, i: nat)
    requires i < |ps| && forall j | i < j < |ps| :: ps[j].key != ps[i].key
    ensures ps[i].key in Store(m, ps) && Store(m, ps)[ps[i].key] == ps[i].value
    decreases ps
  {
    var m1 := m[ps[0].key := ps[0].value];
    if i == 0 {
      StoreOther(m1, ps[1..], ps[0].key);
    } else {
      StoreLastWins(m1, ps[1..], i - 1);
    }
  }

  lemma EmptyPairs(ps: seq<Pair>)
    ensures EncodePairs(ps) == [] <==> ps == []
  {
    if ps != [] {
      assert |EncodePair(ps[0])| >= 8;
    }
  }

  // Encoding.

  /** One possible iteration order of a map. */
  ghost predicate Enumerates(order: seq<Bytes>, m: Metadata) {
    && (forall i, j | 0 <= i < j < |order| :: order[i] != order[j])
    && (forall k :: k in order <==> k in m)
  }

  function PairsOf(m: Metadata, order: seq<Bytes>): (ps: seq<Pair>)
    requires forall k | k in order :: k in m
    ensures |ps| == |order|
    ensures forall i | 0 <= i < |ps| :: ps[i] == Pair(order[i], m[order[i]])
  {
    seq(|order|, i requires 0 <= i < |order| => Pair(order[i], m[order[i]]))
  }

  function EncodeBlock(m: Metadata, order: seq<Bytes>): Bytes
    requires forall k | k in order :: k in m
  {
    EncodePairs(PairsOf(m, order))
  }

  lemma StoreEnumeration(m: Metadata, order: seq<Bytes>)
    requires Enumerates(order, m)
    ensures Store(map[], PairsOf(m, order)) == m
  {
    var ps := PairsOf(m, order);
    var r := Store(map[], ps);
    StoreKeys(map[], ps);
    forall k | k in m
      ensures k in r && r[k] == m[k]
    {
      var i :| 0 <= i < |order| && order[i] == k;
      StoreLastWins(map[], ps, i);
    }
  }

  lemma EnumerationLength(m: Metadata, order: seq<Bytes>)
    requires Enumerates(order, m)
    ensures order == [] <==> m == map[]
    ensures EncodeBlock(m, order) == [] <==> m == map[]
  {
    EmptyPairs(PairsOf(m, order));
    if order != [] {
      assert order[0] in m;
    } else {
      assert forall k :: k !in m;
    }
  }

  method AppendPair(buf: Bytes, k: Bytes, v: Bytes) returns (r: Bytes)
    ensures r == buf + EncodePair(Pair(k, v))
  {
    hide Put32;
    r := buf + Put32(|k|);
    r := r + k;
    r := r + Put32(|v|);
    r := r + v;
    assert r == buf + (Put32(|k|) + k + (Put32(|v|) + v));
  }

  /** `order` is the order in which the range loop visits the map. */
  method EncodeMetadata(m: Metadata, order: seq<Bytes>) returns (block: Bytes)
    requires Enumerates(order, m)
    ensures block == EncodeBlock(m, order)
  {
    if |m| == 0 {
      EnumerationLength(m, order);
      return [];
    }
    block := EncodeEach(PairsOf(m, order));
  }

  method EncodeEach(ps: seq<Pair>) returns (block: Bytes)
    ensures block == EncodePairs(ps)
  {
    block := [];
    for i := 0 to |ps|
      invariant block == EncodePairs(ps[..i])
    {
      EncodePairsAppend(ps[..i], ps[i]);
      assert ps[..i + 1] == ps[..i] + [ps[i]];
      block := AppendPair(block, ps[i].key, ps[i].value);
    }
    assert ps[..|ps|] == ps;
  }

  // Decoding.

  /** `Fault` is the run-time panic of a slice expression that is out of bounds. */
  datatype Outcome = Decoded(m: Metadata) | KVMissing(m: Metadata) | Fault

  /** A slice expression may reach up to the capacity, which is how far `data` extends here. */
  predicate InBounds(data: Bytes, lo: nat, hi: nat) { lo <= hi <= |data| }

  function LengthAt(data: Bytes, n: nat): (l: nat)
    requires n + 4 <= |data|
    ensures l < U32
  {
    Get32(data[n..n + 4])
  }

  datatype PairStep = Next(e: nat, p: Pair) | Missing | Panic

  /** One iteration of the decoder at offset `n`, its offsets and comparisons in 32-bit unsigned arithmetic. */
  function ParsePair(l: nat, data: Bytes, n: nat): (step: PairStep)
    requires n < l < U32
    ensures step.Next? ==> n + 8 <= step.e < U32 && step.e <= |data|
  {
    if !InBounds(data, n, Wrap32(n + 4)) then Panic
    else
      var k := n + 4;
      var v := k + LengthAt(data, n);
      if Wrap32(v) > Wrap32(l + U32 - 4) then Missing
      else if !InBounds(data, k, Wrap32(v)) || !InBounds(data, v, Wrap32(v + 4)) then Panic
      else
        var w := v + 4;
        var e := w + LengthAt(data, v);
        if Wrap32(e) > l then Missing
        else if !InBounds(data, w, Wrap32(e)) then Panic
        else Next(e, Pair(data[k..v], data[w..e]))
  }

  function Parse(l: nat, data: Bytes, n: nat, m: Metadata): Outcome
    requires l < U32
    decreases if n < l then l - n else 0
  {
    if n >= l then Decoded(m)
    else
      match ParsePair(l, data, n)
      case Panic => Fault
      case Missing => KVMissing(m)
      case Next(e, p) => Parse(l, data, e, m[p.key := p.value])
  }

  /** One turn of the loop of `decodeMetadata`. */
  method DecodePair(l: nat, data: Bytes, start: nat) returns (step: PairStep)
    requires start < l < U32
    ensures step == ParsePair(l, data, start)
  {
    hide LengthAt, Wrap32;
    var n := start;
    var hi := Wrap32(n + 4);
    if !InBounds(data, n, hi) { return Panic; }
    var sl := LengthAt(data, n);
    n := hi;
    if Wrap32(n + sl) > Wrap32(l + U32 - 4) { return Missing; }
    hi := Wrap32(n + sl);
    if !InBounds(data, n, hi) { return Panic; }
    var k := data[n..hi];
    n := hi;

    hi := Wrap32(n + 4);
    if !InBounds(data, n, hi) { return Panic; }
    sl := LengthAt(data, n);
    n := hi;
    if Wrap32(n + sl) > l { return Missing; }
    hi := Wrap32(n + sl);
    if !InBounds(data, n, hi) { return Panic; }
    step := Next(hi, Pair(k, data[n..hi]));
  }

  method DecodeMetadata(l: nat, data: Bytes) returns (r: Outcome)
    requires l < U32
    ensures r == Parse(l, data, 0, map[])
  {
    hide ParsePair;
    var m: Metadata := map[];
    var n: nat := 0;
    while n < l
      invariant n < U32
      invariant Parse(l, data, n, m) == Parse(l, data, 0, map[])
      decreases if n < l then l - n else 0
    {
      var step := DecodePair(l, data, n);
      match step
      case Panic => return Fault;
      case Missing => return KVMissing(m);
      case Next(e, p) =>
        n := e;
        m := m[p.key := p.value];
    }
    return Decoded(m);
  }

  // Acceptance.

  lemma ReadSection(data: Bytes, a: nat, b: nat, s: Bytes)
    requires a <= b <= |data| && data[a..b] == Section(s) && |s| < U32
    ensures b == a + 4 + |s| && LengthAt(data, a) == |s| && data[a + 4..b] == s
  {
    assert data[a..a + 4] == data[a..b][..4];
    assert data[a + 4..b] == data[a..b][4..];
    GetPut32(|s|);
  }

  lemma SectionAt(data: Bytes, a: nat, b: nat)
    requires a + 4 <= b <= |data| && b == a + 4 + LengthAt(data, a)
    ensures data[a..b] == Section(data[a + 4..b])
  {
    hide Put32, Get32;
    PutGet32(data[a..a + 4]);
    assert data[a..b] == data[a..a + 4] + data[a + 4..b];
  }

  lemma PairSound(l: nat, data: Bytes, n: nat)
    requires n < l < U32 && l <= |data| && ParsePair(l, data, n).Next?
    ensures var Next(e, p) := ParsePair(l, data, n); e <= l && data[n..e] == EncodePair(p)
  {
    var v := n + 4 + LengthAt(data, n);
    var e := v + 4 + LengthAt(data, v);
    hide LengthAt, Section;
    assert ParsePair(l, data, n) == Next(e, Pair(data[n + 4..v], data[v + 4..e]));
    SectionAt(data, n, v);
    SectionAt(data, v, e);
    assert data[n..e] == data[n..v] + data[v..e];
  }

  lemma PairComplete(l: nat, data: Bytes, n: nat, e: nat, p: Pair)
    requires n < e <= l < U32 && l <= |data| && data[n..e] == EncodePair(p)
    ensures ParsePair(l, data, n) == Next(e, p)
  {
    hide LengthAt, Wrap32, Section;
    var v := n + 4 + |p.key|;
    assert data[n..v] == data[n..e][..v - n] && data[v..e] == data[n..e][v - n..];
    ReadSection(data, n, v, p.key);
    ReadSection(data, v, e, p.value);
  }

  /** The bytes from `n` to `stop` are a concatenation of complete pairs. */
  ghost predicate IsBlock(data: Bytes, n: nat, stop: nat, ps: seq<Pair>) {
    n <= stop <= |data| && data[n..stop] == EncodePairs(ps)
  }

  lemma FirstPair(data: Bytes, n: nat, stop: nat, ps: seq<Pair>) returns (e: nat)
    requires IsBlock(data, n, stop, ps) && ps != []
    ensures n < e <= stop && data[n..e] == EncodePair(ps[0]) && IsBlock(data, e, stop, ps[1..])
  {
    e := n + |EncodePair(ps[0])|;
    var block := data[n..stop];
    assert data[n..e] == block[..e - n];
    assert data[e..stop] == block[e - n..];
  }

  lemma PrependPair(data: Bytes, n: nat, e: nat, stop: nat, p: Pair, ps: seq<Pair>)
    requires n < e && IsBlock(data, e, stop, ps) && data[n..e] == EncodePair(p)
    ensures IsBlock(data, n, stop, [p] + ps)
  {
    hide EncodePair;
    assert ([p] + ps)[1..] == ps;
    assert data[n..stop] == data[n..e] + data[e..stop];
  }

  lemma {:induction false} ParseComplete(l: nat, data: Bytes, n: nat, m: Metadata, ps: seq<Pair>)
    requires l < U32 && IsBlock(data, n, l, ps)
    ensures Parse(l, data, n, m) == Decoded(Store(m, ps))
    decreases ps
  {
    hide ParsePair, EncodePair;
    if ps != [] {
      var e := FirstPair(data, n, l, ps);
      PairComplete(l, data, n, e, ps[0]);
      ParseComplete(l, data, e, m[ps[0].key := ps[0].value], ps[1..]);
    }
  }

  lemma {:induction false} ParseSound(l: nat, data: Bytes, n: nat, m: Metadata) returns (ps: seq<Pair>)
    requires l < U32 && n <= l <= |data| && Parse(l, data, n, m).Decoded?
    ensures IsBlock(data, n, l, ps)
    decreases l - n
  {
    hide ParsePair, EncodePair;
    if n == l {
      ps := [];
    } else {
      var Next(e, p) := ParsePair(l, data, n);
      PairSound(l, data, n);
      var rest := ParseSound(l, data, e, m[p.key := p.value]);
      PrependPair(data, n, e, l, p, rest);
      ps := [p] + rest;
    }
  }

  /** For every block, whatever its length fields hold: accepted exactly when it is made of complete pairs. */
  lemma BlockAcceptance(l: nat, data: Bytes)
    requires l < U32 && l <= |data|
    ensures Parse(l, data, 0, map[]).Decoded? <==> exists ps :: IsBlock(data, 0, l, ps)
    ensures forall ps | IsBlock(data, 0, l, ps) :: Parse(l, data, 0, map[]) == Decoded(Store(map[], ps))
  {
    if Parse(l, data, 0, map[]).Decoded? {
      var _ := ParseSound(l, data, 0, map[]);
    }
    forall ps | IsBlock(data, 0, l, ps)
      ensures Parse(l, data, 0, map[]) == Decoded(Store(map[], ps))
    {
      ParseComplete(l, data, 0, map[], ps);
    }
  }

  lemma BlockRoundTrip(m: Metadata, order: seq<Bytes>, tail: Bytes)
    requires Enumerates(order, m) && |EncodeBlock(m, order)| < U32
    ensures Parse(|EncodeBlock(m, order)|, EncodeBlock(m, order) + tail, 0, map[]) == Decoded(m)
  {
    var block := EncodeBlock(m, order);
    assert (block + tail)[0..|block|] == block;
    ParseComplete(|block|, block + tail, 0, map[], PairsOf(m, order));
    StoreEnumeration(m, order);
  }

  // Rejection.

  /**
   * Reading the pair at `n` panics, said without wrap-around: a length field ends behind the capacity, or a length
   * carries the 32-bit offset past its range and to a value that passes the comparison. For blocks of less than four
   * bytes the bound `l - 4` of the first comparison has wrapped itself.
   */
  predicate CutShort(l: nat, data: Bytes, n: nat)
    requires n < l < U32
  {
    var bound := if l >= 4 then l - 4 else l + U32 - 4;
    n + 4 > |data| || n + 4 >= U32 ||
    var v := n + 4 + LengthAt(data, n);
    if v >= U32 then v - U32 <= bound
    else
      v <= bound && (v + 4 > |data| || v + 4 >= U32 ||
                     var e := v + 4 + LengthAt(data, v); U32 <= e <= U32 + l)
  }

  lemma PairPanic(l: nat, data: Bytes, n: nat)
    requires n < l < U32 && l <= |data|
    ensures ParsePair(l, data, n).Panic? <==> CutShort(l, data, n)
  {
    hide LengthAt, Wrap32;
  }

  /** Complete pairs from `n` up to `stop`, where the next one panics. */
  ghost predicate FaultsAt(l: nat, data: Bytes, n: nat, stop: nat, ps: seq<Pair>)
    requires l < U32
  {
    stop < l && IsBlock(data, n, stop, ps) && CutShort(l, data, stop)
  }

  lemma {:induction false} ParseFault(l: nat, data: Bytes, n: nat, m: Metadata)
    requires l < U32 && n <= l <= |data| && Parse(l, data, n, m).Fault?
    ensures exists stop, ps :: FaultsAt(l, data, n, stop, ps)
    decreases l - n
  {
    hide ParsePair, EncodePair, CutShort;
    PairPanic(l, data, n);
    if ParsePair(l, data, n).Panic? {
      assert FaultsAt(l, data, n, n, []);
    } else {
      var Next(e, p) := ParsePair(l, data, n);
      PairSound(l, data, n);
      ParseFault(l, data, e, m[p.key := p.value]);
      var stop, rest :| FaultsAt(l, data, e, stop, rest);
      PrependPair(data, n, e, stop, p, rest);
      assert FaultsAt(l, data, n, stop, [p] + rest);
    }
  }

  lemma {:induction false} FaultParses(l: nat, data: Bytes, n: nat, m: Metadata, stop: nat, ps: seq<Pair>)
    requires l < U32 && l <= |data| && FaultsAt(l, data, n, stop, ps)
    ensures Parse(l, data, n, m).Fault?
    decreases ps
  {
    hide ParsePair, EncodePair, CutShort;
    if ps == [] {
      PairPanic(l, data, n);
    } else {
      var e := FirstPair(data, n, stop, ps);
      PairComplete(l, data, n, e, ps[0]);
      FaultParses(l, data, e, m[ps[0].key := ps[0].value], stop, ps[1..]);
    }
  }

  /**
   * Every block, whatever its lengths: accepted exactly if it is made of complete pairs; a panic exactly if, behind
   * complete pairs, a field is cut short; and reported as ErrMetaKVMissing in all other cases.
   */
  lemma BlockTrichotomy(l: nat, data: Bytes)
    requires l < U32 && l <= |data|
    ensures var r := Parse(l, data, 0, map[]);
            && (r.Decoded? <==> exists ps :: IsBlock(data, 0, l, ps))
            && (r.Fault? <==> exists stop, ps :: FaultsAt(l, data, 0, stop, ps))
            && (r.KVMissing? <==> (forall ps :: !IsBlock(data, 0, l, ps))
                                  && (forall stop, ps :: !FaultsAt(l, data, 0, stop, ps)))
  {
    hide CutShort;
    BlockAcceptance(l, data);
    if Parse(l, data, 0, map[]).Fault? {
      ParseFault(l, data, 0, map[]);
    }
    forall stop, ps | FaultsAt(l, data, 0, stop, ps)
      ensures Parse(l, data, 0, map[]).Fault?
    {
      FaultParses(l, data, 0, map[], stop, ps);
    }
  }

  /** No length field that the decoder comes to, behind complete pairs, wraps. */
  ghost predicate ReachedLengthsFit(l: nat, data: Bytes) {
    forall n: nat, ps | n < l && IsBlock(data, 0, n, ps) && n + 4 <= |data| ::
      var v := n + 4 + LengthAt(data, n);
      v + 4 < U32 && (v + 4 <= |data| ==> v + 4 + LengthAt(data, v) < U32)
  }

  /**
   * A block of at least four bytes whose reached lengths fit panics exactly if complete pairs leave it with less than
   * four bytes before the capacity ends; with three bytes of room behind it, every block that is not made of complete
   * pairs is reported as ErrMetaKVMissing.
   */
  lemma BlockRejection(l: nat, data: Bytes)
    requires 4 <= l < U32 && l <= |data| && ReachedLengthsFit(l, data)
    ensures Parse(l, data, 0, map[]).Fault? <==>
              exists stop, ps :: stop < l && stop + 4 > |data| && IsBlock(data, 0, stop, ps)
    ensures l + 3 <= |data| && (forall ps :: !IsBlock(data, 0, l, ps)) ==> Parse(l, data, 0, map[]).KVMissing?
  {
    hide IsBlock, LengthAt;
    BlockTrichotomy(l, data);
    forall stop: nat, ps | stop < l && IsBlock(data, 0, stop, ps)
      ensures CutShort(l, data, stop) <==> stop + 4 > |data|
    {
    }
    forall stop: nat, ps | stop < l && stop + 4 > |data| && IsBlock(data, 0, stop, ps)
      ensures FaultsAt(l, data, 0, stop, ps)
    {
    }
  }
}
