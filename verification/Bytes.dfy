/**
 Byte arrays and the big-endian integer codec of src/common/utils.hpp.
 */
module Bytes {

  type Byte = b: int | 0 <= b < 0x100
  type Word = w: int | 0 <= w < 0x1_0000
  type ByteArray = seq<Byte>

  function Pow2(n: nat): (p: nat)
    ensures p > 0
  {
    if n == 0 then 1 else 2 * Pow2(n - 1)
  }

  function Pow256(n: nat): (p: nat)
    ensures p > 0
  {
    if n == 0 then 1 else 256 * Pow256(n - 1)
  }

  /** The `n` low-order base-256 digits of `v`, most significant first. */
  function BigEndian(n: nat, v: nat): (b: ByteArray)
    ensures |b| == n
  {
    if n == 0 then [] else BigEndian(n - 1, v / 256) + [v % 256]
  }

  /** The number that the digits `b` stand for. */
  function Value(b: ByteArray): nat
  {
    if b == [] then 0 else 256 * Value(b[..|b| - 1]) + b[|b| - 1]
  }

  /** The 16-bit number with these high and low bytes. */
  function Pair(hi: Byte, lo: Byte): Word {
    256 * (hi as int) + (lo as int)
  }

  /** 16-bit wrap-around of a sum of two 16-bit numbers. */
  function Wrap16(x: nat): Word
    requires x < 0x2_0000
  {
    if x < 0x1_0000 then x else x - 0x1_0000
  }

  lemma TwoDigits(v: nat)
    requires v < 0x1_0000
    ensures BigEndian(2, v) == [v / 256, v % 256]
    ensures Pair(v / 256, v % 256) == v
  {
    assert BigEndian(1, v / 256) == BigEndian(0, v / 65536) + [v / 256];
  }

  lemma PairDigits(hi: Byte, lo: Byte)
    ensures BigEndian(2, Pair(hi, lo)) == [hi, lo]
  {
    var v: nat := Pair(hi, lo);
    assert v / 256 == hi && v % 256 == lo;
    TwoDigits(v);
  }

  lemma SliceOfSuffix<T>(s: seq<T>, from: nat, lo: nat, hi: nat)
    requires from + lo <= from + hi <= |s|
    ensures s[from..][lo..hi] == s[from + lo..from + hi]
  {
  }

  /** Decoding an encoded integer gives the integer back, cut to the encoded width. */
  lemma {:induction false} ValueOfBigEndian(n: nat, v: nat)
    ensures Value(BigEndian(n, v)) == v % Pow256(n)
  {
    if n == 0 {
    } else {
      ValueOfBigEndian(n - 1, v / 256);
      assert BigEndian(n, v)[..n - 1] == BigEndian(n - 1, v / 256);
      SplitModulus(v, Pow256(n - 1));
    }
  }

  lemma SplitModulus(v: nat, p: nat)
    requires p > 0
    ensures v % (256 * p) == 256 * (v / 256 % p) + v % 256
  {
    var q, r := v / 256 / p, 256 * (v / 256 % p) + v % 256;
    assert v / 256 == p * q + v / 256 % p;
    assert v == (256 * p) * q + r;
    assert v / 256 % p <= p - 1;
    ModulusIs(v, 256 * p, q, r);
  }

  lemma ModulusIs(v: nat, m: nat, q: nat, r: nat)
    requires m > 0 && r < m && v == m * q + r
    ensures v % m == r && v / m == q
  {
    var d: int := v / m - q;
    assert v == m * (v / m) + v % m;
    assert m * d == m * (v / m) - m * q;
    MultipleIsLarge(m, d);
  }

  lemma MultipleIsLarge(m: int, d: int)
    requires m > 0
    ensures d >= 1 ==> m * d >= m
    ensures d <= -1 ==> m * d <= -m
  {
  }

  /** Every byte array of length `n` is the encoding of its own value. */
  lemma {:induction false} BigEndianOfValue(b: ByteArray)
    ensures Value(b) < Pow256(|b|)
    ensures BigEndian(|b|, Value(b)) == b
  {
    if b == [] {
    } else {
      BigEndianOfValue(b[..|b| - 1]);
    }
  }

  /** `utils::Encode<T>`: grow the buffer by `size` bytes and fill them from the back. */
  method Encode(buf: ByteArray, size: nat, integer: nat) returns (out: ByteArray)
    ensures out == buf + BigEndian(size, integer)
  {
    var length := |buf|;
    var rest := integer;
    out := buf + seq(size, _ => 0);
    var i := |out|;
    while i > length
      invariant length <= i <= |out| == length + size
      invariant out[..length] == buf
      invariant BigEndian(size, integer) == BigEndian(i - length, rest) + out[i..]
    {
      ghost var before := out;
      out := out[i - 1 := rest % 256];
      assert out[i - 1..] == [rest % 256] + before[i..];
      rest := rest / 256;
      i := i - 1;
    }
    assert out == out[..length] + out[length..];
  }

  /** `utils::Decode<T>`: shift in the first `size` bytes of the buffer. */
  method Decode(buf: ByteArray, size: nat) returns (ret: nat)
    requires size <= |buf|
    ensures ret == Value(buf[..size])
    ensures ret < Pow256(size)
  {
    ret := 0;
    for i := 0 to size
      invariant ret == Value(buf[..i])
    {
      assert buf[..i + 1][..i] == buf[..i];
      ret := 256 * ret + buf[i];
    }
    BigEndianOfValue(buf[..size]);
  }
}
