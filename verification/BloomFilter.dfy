/**
 The Bloom filter of src/library/openthread/bloom_filter.cpp, over which steering data is
 made: two CRCs of a joiner id each select one bit.
 */
module BloomFilter {
  import opened Bytes
  import Crc16

  // ---------------------------------------------------------------------------
  // Bits of a byte
  // ---------------------------------------------------------------------------

  predicate TestBit(b: nat, k: nat) {
    if k == 0 then b % 2 == 1 else TestBit(b / 2, k - 1)
  }

  /** `b | 1 << k`. */
  function OrBit(b: nat, k: nat): nat {
    if k == 0 then 2 * (b / 2) + 1 else 2 * OrBit(b / 2, k - 1) + b % 2
  }

  lemma {:induction false} OrBitSets(b: nat, k: nat, j: nat)
    ensures TestBit(OrBit(b, k), j) <==> j == k || TestBit(b, j)
  {
    if j > 0 && k > 0 {
      OrBitSets(b / 2, k - 1, j - 1);
    }
  }

  lemma {:induction false} OrBitFits(b: nat, k: nat, n: nat)
    requires k < n && b < Pow2(n)
    ensures OrBit(b, k) < Pow2(n)
  {
    Halved(b, Pow2(n - 1));
    if k == 0 {
    } else {
      OrBitFits(b / 2, k - 1, n - 1);
    }
  }

  lemma Halved(b: nat, p: nat)
    requires b < 2 * p
    ensures b / 2 < p && b % 2 <= 1
  {
  }

  function WithBit(b: Byte, k: nat): Byte
    requires k < 8
  {
    assert Pow2(8) == 256 by { assert Pow2(3) == 8 && Pow2(6) == 64; }
    OrBitFits(b, k, 8);
    OrBit(b, k)
  }

  // ---------------------------------------------------------------------------
  // The filter
  // ---------------------------------------------------------------------------

  /** Bit 0 is the lowest bit of the last byte. */
  predicate BitSet(filter: ByteArray, bit: nat) {
    bit < 8 * |filter| && TestBit(filter[|filter| - 1 - bit / 8], bit % 8)
  }

  /** `SetBit`. */
  function Marked(filter: ByteArray, bit: nat): ByteArray
    requires bit < 8 * |filter|
  {
    var i := |filter| - 1 - bit / 8;
    filter[i := WithBit(filter[i], bit % 8)]
  }

  /** Setting one bit leaves all others as they are. */
  lemma MarkedSets(filter: ByteArray, bit: nat, other: nat)
    requires bit < 8 * |filter|
    ensures BitSet(Marked(filter, bit), other) <==> other == bit || BitSet(filter, other)
  {
    if other < 8 * |filter| && other / 8 == bit / 8 {
      OrBitSets(filter[|filter| - 1 - bit / 8], bit % 8, other % 8);
    }
  }

  function Raw(id: ByteArray): seq<bv8> {
    seq(|id|, i requires 0 <= i < |id| => id[i] as bv8)
  }

  /** The bit that an id selects in a filter of `size` bytes with one of the two polynomials. */
  function Selected(polynomial: bv16, id: ByteArray, size: nat): (bit: nat)
    requires size > 0
    ensures bit < 8 * size
  {
    (Crc16.Crc(0, polynomial, Raw(id)) as int) % (8 * size)
  }

  function Added(filter: ByteArray, id: ByteArray): ByteArray
    requires filter != []
  {
    var one := Marked(filter, Selected(Crc16.CCITT, id, |filter|));
    Marked(one, Selected(Crc16.ANSI, id, |filter|))
  }

  /** The filter answers yes for the id. */
  predicate Contains(filter: ByteArray, id: ByteArray) {
    && filter != []
    && BitSet(filter, Selected(Crc16.CCITT, id, |filter|)) && BitSet(filter, Selected(Crc16.ANSI, id, |filter|))
  }

  /** What is added is contained, and so is everything that was. */
  lemma AddedContains(filter: ByteArray, id: ByteArray, other: ByteArray)
    requires filter != []
    ensures Contains(Added(filter, id), id)
    ensures Contains(filter, other) ==> Contains(Added(filter, id), other)
  {
    hide BitSet, Marked, Selected;
    var (a, b) := (Selected(Crc16.CCITT, id, |filter|), Selected(Crc16.ANSI, id, |filter|));
    var (p, q) := (Selected(Crc16.CCITT, other, |filter|), Selected(Crc16.ANSI, other, |filter|));
    var one := Marked(filter, a);
    MarkedLength(filter, a);
    MarkedLength(one, b);
    MarkedSets(filter, a, a);
    MarkedSets(filter, a, p);
    MarkedSets(filter, a, q);
    MarkedSets(one, b, a);
    MarkedSets(one, b, b);
    MarkedSets(one, b, p);
    MarkedSets(one, b, q);
  }

  /** Adding an id sets the two bits it selects and no other. */
  lemma AddedBits(filter: ByteArray, id: ByteArray, bit: nat)
    requires filter != []
    ensures |Added(filter, id)| == |filter|
    ensures BitSet(Added(filter, id), bit) <==> BitSet(filter, bit) || Selects(id, |filter|, bit)
  {
    hide BitSet, Marked, Selected;
    var (a, b) := (Selected(Crc16.CCITT, id, |filter|), Selected(Crc16.ANSI, id, |filter|));
    MarkedLength(filter, a);
    MarkedSets(filter, a, bit);
    MarkedLength(Marked(filter, a), b);
    MarkedSets(Marked(filter, a), b, bit);
  }

  predicate Selects(id: ByteArray, size: nat, bit: nat)
    requires size > 0
  {
    bit == Selected(Crc16.CCITT, id, size) || bit == Selected(Crc16.ANSI, id, size)
  }

  /** A filter with every bit set. */
  ghost predicate AllSet(filter: ByteArray) {
    filter != [] && forall bit: nat :: bit < 8 * |filter| ==> BitSet(filter, bit)
  }

  lemma AllSetContains(filter: ByteArray, id: ByteArray)
    requires AllSet(filter)
    ensures Contains(filter, id)
  {
    hide BitSet, Selected;
  }

  lemma {:induction false} BitsOfOnes(n: nat, k: nat)
    requires k < n
    ensures TestBit(Pow2(n) - 1, k)
  {
    assert Pow2(n) == 2 * Pow2(n - 1) && (Pow2(n) - 1) / 2 == Pow2(n - 1) - 1;
    if k == 0 {
    } else {
      BitsOfOnes(n - 1, k - 1);
    }
  }

  lemma ByteOfOnes()
    ensures AllSet([0xFF])
  {
    assert Pow2(8) == 256 by { assert Pow2(3) == 8 && Pow2(6) == 64; }
    forall bit: nat | bit < 8 ensures BitSet([0xFF], bit) {
      BitsOfOnes(8, bit);
    }
  }

  lemma {:induction false} BitsOfZero(k: nat)
    ensures !TestBit(0, k)
  {
    if k == 0 {
    } else {
      BitsOfZero(k - 1);
    }
  }

  lemma BytesOfZero(size: nat, bit: nat)
    ensures !BitSet(seq(size, _ => 0), bit)
  {
    BitsOfZero(bit % 8);
  }

  lemma MarkedLength(filter: ByteArray, bit: nat)
    requires bit < 8 * |filter|
    ensures |Marked(filter, bit)| == |filter|
  {
  }

  /** `ComputeBloomFilter`: its two assertions are the preconditions. */
  method ComputeBloomFilter(filter: ByteArray, id: ByteArray) returns (out: ByteArray)
    requires filter != [] && 8 * |filter| <= 255
    ensures out == Added(filter, id)
  {
    hide Marked, Crc16.Crc, Crc16.Updated;
    var ccitt := new Crc16.Register(Crc16.CCITT);
    var ansi := new Crc16.Register(Crc16.ANSI);
    var raw := Raw(id);
    NothingRead(Crc16.CCITT);
    NothingRead(Crc16.ANSI);
    assert raw[..0] == [];
    for i := 0 to |id|
      invariant ccitt.crc == Crc16.Crc(0, Crc16.CCITT, raw[..i]) && ccitt.polynomial == Crc16.CCITT
      invariant ansi.crc == Crc16.Crc(0, Crc16.ANSI, raw[..i]) && ansi.polynomial == Crc16.ANSI
      invariant fresh(ccitt) && fresh(ansi) && ccitt != ansi
    {
      OneMoreByte(Crc16.CCITT, raw, i);
      OneMoreByte(Crc16.ANSI, raw, i);
      ccitt.Update(raw[i]);
      ansi.Update(raw[i]);
    }
    assert raw[..|id|] == raw;
    var numBits := 8 * |filter|;
    out := Marked(filter, (ccitt.crc as int) % numBits);
    MarkedLength(filter, (ccitt.crc as int) % numBits);
    out := Marked(out, (ansi.crc as int) % numBits);
  }

  lemma NothingRead(polynomial: bv16)
    ensures Crc16.Crc(0, polynomial, []) == 0
  {
  }

  lemma OneMoreByte(polynomial: bv16, raw: seq<bv8>, i: nat)
    requires i < |raw|
    ensures Crc16.Crc(0, polynomial, raw[..i + 1])
            == Crc16.Updated(Crc16.Crc(0, polynomial, raw[..i]), polynomial, raw[i])
  {
    hide Crc16.Updated;
    assert raw[..i + 1] == raw[..i] + [raw[i]] && [raw[i]][1..] == [];
    Crc16.CrcOfConcat(0, polynomial, raw[..i], [raw[i]]);
  }
}
