/**
 The bitwise CRC-16 of src/library/openthread/crc16.cpp, for any polynomial.
 */
module Crc16 {

  const CCITT: bv16 := 0x1021
  const ANSI: bv16 := 0x8005

  function Add(a: bv16, b: bv16): bv16 {
    a ^ b
  }

  function Double(a: bv16): bv16 {
    a << 1
  }

  predicate Top(a: bv16) {
    a & 0x8000 != 0
  }

  /** A byte in the upper half of the register. */
  function Raised(b: bv8): bv16 {
    (b as bv16) << 8
  }

  /** One round of the loop: shift out a bit, and reduce when it was set. */
  function Shift(crc: bv16, polynomial: bv16): bv16 {
    if Top(crc) then Add(Double(crc), polynomial) else Double(crc)
  }

  function Shifts(crc: bv16, polynomial: bv16, n: nat): bv16
    decreases n
  {
    if n == 0 then crc else Shifts(Shift(crc, polynomial), polynomial, n - 1)
  }

  function Updated(crc: bv16, polynomial: bv16, b: bv8): bv16 {
    Shifts(Add(crc, Raised(b)), polynomial, 8)
  }

  /** The CRC of a message, started from `crc`. */
  function Crc(crc: bv16, polynomial: bv16, bytes: seq<bv8>): bv16
    decreases |bytes|
  {
    if bytes == [] then crc else Crc(Updated(crc, polynomial, bytes[0]), polynomial, bytes[1..])
  }

  class Register {
    const polynomial: bv16
    var crc: bv16

    constructor (polynomial: bv16)
      ensures this.polynomial == polynomial && crc == 0
    {
      this.polynomial := polynomial;
      crc := 0;
    }

    method Update(b: bv8)
      modifies this
      ensures crc == Updated(old(crc), polynomial, b)
    {
      crc := crc ^ ((b as bv16) << 8);
      assert crc == Add(old(crc), Raised(b));
      var i := 8;
      while true
        invariant 1 <= i <= 8
        invariant Shifts(crc, polynomial, i) == Updated(old(crc), polynomial, b)
        decreases i
      {
        if crc & 0x8000 != 0 {
          crc := (crc << 1) ^ polynomial;
        } else {
          crc := crc << 1;
        }
        i := i - 1;
        if i == 0 {
          break;
        }
      }
    }
  }

  // ---------------------------------------------------------------------------
  // Linearity
  // ---------------------------------------------------------------------------

  lemma DoubleIsLinear(a: bv16, b: bv16)
    ensures Double(Add(a, b)) == Add(Double(a), Double(b))
  {
  }

  lemma TopIsLinear(a: bv16, b: bv16)
    ensures Top(Add(a, b)) <==> Top(a) != Top(b)
  {
  }

  lemma AddIsAssociative(a: bv16, b: bv16, c: bv16)
    ensures Add(Add(a, b), c) == Add(a, Add(b, c))
  {
  }

  lemma AddIsCommutative(a: bv16, b: bv16)
    ensures Add(a, b) == Add(b, a)
  {
  }

  lemma AddTwice(a: bv16, b: bv16)
    ensures Add(Add(a, b), b) == a
  {
  }

  lemma Cancel(x: bv16, y: bv16, p: bv16)
    ensures Add(Add(x, p), Add(y, p)) == Add(x, y)
    ensures Add(Add(x, p), y) == Add(Add(x, y), p) && Add(x, Add(y, p)) == Add(Add(x, y), p)
  {
    hide Add;
    AddIsAssociative(x, p, y);
    AddIsCommutative(p, y);
    AddIsAssociative(x, y, p);
    AddIsAssociative(Add(x, p), y, p);
    AddTwice(Add(x, y), p);
  }

  lemma ShiftIsLinear(a: bv16, b: bv16, polynomial: bv16)
    ensures Shift(Add(a, b), polynomial) == Add(Shift(a, polynomial), Shift(b, polynomial))
  {
    hide Add, Double, Top;
    DoubleIsLinear(a, b);
    TopIsLinear(a, b);
    Cancel(Double(a), Double(b), polynomial);
  }

  lemma {:induction false} ShiftsAreLinear(a: bv16, b: bv16, polynomial: bv16, n: nat)
    ensures Shifts(Add(a, b), polynomial, n) == Add(Shifts(a, polynomial, n), Shifts(b, polynomial, n))
    decreases n
  {
    hide Shift, Add;
    if n == 0 {
    } else {
      ShiftIsLinear(a, b, polynomial);
      ShiftsAreLinear(Shift(a, polynomial), Shift(b, polynomial), polynomial, n - 1);
    }
  }

  lemma UpdatedIsLinear(a: bv16, b: bv16, polynomial: bv16, x: bv8, y: bv8)
    ensures Updated(Add(a, b), polynomial, x ^ y) == Add(Updated(a, polynomial, x), Updated(b, polynomial, y))
  {
    hide Shifts, Add, Raised;
    MixedIn(a, b, x, y);
    ShiftsAreLinear(Add(a, Raised(x)), Add(b, Raised(y)), polynomial, 8);
  }

  lemma MixedIn(a: bv16, b: bv16, x: bv8, y: bv8)
    ensures Add(Add(a, b), Raised(x ^ y)) == Add(Add(a, Raised(x)), Add(b, Raised(y)))
  {
  }

  function Xor(a: seq<bv8>, b: seq<bv8>): seq<bv8>
    requires |a| == |b|
  {
    if a == [] then [] else [a[0] ^ b[0]] + Xor(a[1..], b[1..])
  }

  lemma {:induction false} LinearFrom(p: bv16, q: bv16, polynomial: bv16, a: seq<bv8>, b: seq<bv8>)
    requires |a| == |b|
    ensures Crc(Add(p, q), polynomial, Xor(a, b)) == Add(Crc(p, polynomial, a), Crc(q, polynomial, b))
    decreases |a|
  {
    hide Updated, Add;
    if a == [] {
    } else {
      UpdatedIsLinear(p, q, polynomial, a[0], b[0]);
      assert Xor(a, b)[0] == a[0] ^ b[0] && Xor(a, b)[1..] == Xor(a[1..], b[1..]);
      LinearFrom(Updated(p, polynomial, a[0]), Updated(q, polynomial, b[0]), polynomial, a[1..], b[1..]);
    }
  }

  /** The CRC of the xor of two messages of one length is the xor of their CRCs. */
  lemma CrcIsLinear(polynomial: bv16, a: seq<bv8>, b: seq<bv8>)
    requires |a| == |b|
    ensures Crc(0, polynomial, Xor(a, b)) == Crc(0, polynomial, a) ^ Crc(0, polynomial, b)
  {
    hide Crc;
    assert Add(0, 0) == 0;
    LinearFrom(0, 0, polynomial, a, b);
  }

  // ---------------------------------------------------------------------------
  // Checking
  // ---------------------------------------------------------------------------

  function High(crc: bv16): bv8 {
    (crc >> 8) as bv8
  }

  function Low(crc: bv16): bv8 {
    (crc & 0xFF) as bv8
  }

  lemma {:induction false} CrcOfConcat(crc: bv16, polynomial: bv16, a: seq<bv8>, b: seq<bv8>)
    ensures Crc(crc, polynomial, a + b) == Crc(Crc(crc, polynomial, a), polynomial, b)
    decreases |a|
  {
    hide Updated;
    if a == [] {
      assert a + b == b;
    } else {
      assert (a + b)[0] == a[0] && (a + b)[1..] == a[1..] + b;
      CrcOfConcat(Updated(crc, polynomial, a[0]), polynomial, a[1..], b);
    }
  }

  function Doubled(a: bv16, k: nat): bv16 {
    if k == 0 then a else Double(Doubled(a, k - 1))
  }

  predicate HasRoom(a: bv16) {
    forall k | 0 <= k < 8 :: !Top(Doubled(a, k))
  }

  /** Eight shifts move the lower byte to the upper one, and its top bit is never in the way. */
  lemma LowByteHasRoom(b: bv8)
    ensures HasRoom(b as bv16)
    ensures Doubled(b as bv16, 8) == Raised(b)
  {
    var a := b as bv16;
    assert Doubled(a, 1) == a << 1;
    assert Doubled(a, 2) == a << 2;
    assert Doubled(a, 3) == a << 3;
    assert Doubled(a, 4) == a << 4;
    assert Doubled(a, 5) == a << 5;
    assert Doubled(a, 6) == a << 6;
    assert Doubled(a, 7) == a << 7;
    assert !Top(a) && !Top(a << 1) && !Top(a << 2) && !Top(a << 3) && !Top(a << 4) && !Top(a << 5) && !Top(a << 6);
  }

  lemma {:induction false} OnlyDoubled(a: bv16, polynomial: bv16, k: nat)
    requires k <= 8 && HasRoom(a)
    ensures Shifts(Doubled(a, k), polynomial, 8 - k) == Doubled(a, 8)
    decreases 8 - k
  {
    hide Top, Double, Add;
    if k < 8 {
      OnlyDoubled(a, polynomial, k + 1);
    }
  }

  lemma HighByteOut(crc: bv16)
    ensures Add(crc, Raised(High(crc))) == Low(crc) as bv16
  {
  }

  lemma HighByteCancels(crc: bv16, polynomial: bv16)
    ensures Updated(crc, polynomial, High(crc)) == Raised(Low(crc))
  {
    hide Shifts, High, Low, Add, Top, Double, Raised;
    HighByteOut(crc);
    LowByteHasRoom(Low(crc));
    OnlyDoubled(Low(crc) as bv16, polynomial, 0);
  }

  lemma {:induction false} ShiftsOfZero(polynomial: bv16, n: nat)
    ensures Shifts(0, polynomial, n) == 0
  {
    if n == 0 {
    } else {
      assert Shift(0, polynomial) == 0;
      ShiftsOfZero(polynomial, n - 1);
    }
  }

  lemma LowByteCancels(low: bv8, polynomial: bv16)
    ensures Updated(Raised(low), polynomial, low) == 0
  {
    hide Shifts;
    assert Add(Raised(low), Raised(low)) == 0;
    ShiftsOfZero(polynomial, 8);
  }

  /** A message followed by its CRC, high byte first, has CRC zero. */
  lemma AppendedCrcChecks(polynomial: bv16, bytes: seq<bv8>)
    ensures var crc := Crc(0, polynomial, bytes);
            Crc(0, polynomial, bytes + [High(crc), Low(crc)]) == 0
  {
    hide Updated, High, Low, Raised;
    var crc := Crc(0, polynomial, bytes);
    var high, low := High(crc), Low(crc);
    CrcOfConcat(0, polynomial, bytes, [high, low]);
    HighByteCancels(crc, polynomial);
    LowByteCancels(low, polynomial);
    assert [high, low][1..] == [low] && [low][1..] == [];
    assert Crc(Raised(low), polynomial, [low]) == Crc(0, polynomial, []);
  }
}
