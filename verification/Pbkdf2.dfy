/**
 The key derivation of src/library/openthread/pbkdf2_cmac.cpp against PBKDF2 of section
 5.2 of RFC 8018, for any pseudo-random function keyed by the password.
 */
module Pbkdf2 {

  const BLOCK_SIZE := 16
  const SALT_MAX_LEN := 30

  type Bytes = seq<bv8>
  type Block = b: Bytes | |b| == BLOCK_SIZE witness seq(BLOCK_SIZE, _ => 0)

  type Prf = Bytes -> Block

  // ---------------------------------------------------------------------------
  // PBKDF2
  // ---------------------------------------------------------------------------

  function Plus(a: bv8, b: bv8): bv8 {
    a ^ b
  }

  function Xor(a: Bytes, b: Bytes): Bytes
    requires |a| == |b|
  {
    seq(|a|, i requires 0 <= i < |a| => Plus(a[i], b[i]))
  }

  /** INT(i): four bytes, most significant first. */
  function Int(i: nat): Bytes
    requires i < 0x1_0000_0000
  {
    [(i / 0x100_0000 % 256) as bv8, (i / 0x1_0000 % 256) as bv8, (i / 256 % 256) as bv8, (i % 256) as bv8]
  }

  /** U_j of block i. */
  function U(prf: Prf, salt: Bytes, i: nat, j: nat): Block
    requires 1 <= j && i < 0x1_0000_0000
  {
    if j == 1 then prf(salt + Int(i)) else prf(U(prf, salt, i, j - 1))
  }

  /** The xor of U_1 to U_c of block i. */
  function T(prf: Prf, salt: Bytes, i: nat, c: nat): Block
    requires 1 <= c && i < 0x1_0000_0000
  {
    if c == 1 then U(prf, salt, i, 1) else Xor(T(prf, salt, i, c - 1), U(prf, salt, i, c))
  }

  /** T_1 || ... || T_n. */
  function Blocks(prf: Prf, salt: Bytes, c: nat, n: nat): (r: Bytes)
    requires 1 <= c && n < 0x1_0000_0000
    ensures |r| == BLOCK_SIZE * n
  {
    if n == 0 then [] else Blocks(prf, salt, c, n - 1) + T(prf, salt, n, c)
  }

  /** The derived key: the first `length` bytes of the blocks. */
  function Key(prf: Prf, salt: Bytes, c: nat, length: nat): Bytes
    requires 1 <= c && length < 0x1_0000
  {
    Blocks(prf, salt, c, (length + 15) / 16)[..length]
  }

  lemma XorAssociates(a: Bytes, b: Bytes, c: Bytes)
    requires |a| == |b| == |c|
    ensures Xor(a, Xor(b, c)) == Xor(Xor(a, c), b)
  {
    hide Plus;
    forall i | 0 <= i < |a| ensures Xor(a, Xor(b, c))[i] == Xor(Xor(a, c), b)[i] {
      Swap(a[i], b[i], c[i]);
    }
  }

  lemma Swap(a: bv8, b: bv8, c: bv8)
    ensures Plus(a, Plus(b, c)) == Plus(Plus(a, c), b)
  {
  }

  // ---------------------------------------------------------------------------
  // The unrolled loop
  // ---------------------------------------------------------------------------

  method XorInto(a: array<bv8>, b: array<bv8>)
    requires a.Length == b.Length && a != b
    modifies a
    ensures a[..] == Xor(old(a[..]), b[..])
  {
    hide Plus;
    for j := 0 to a.Length
      invariant forall k :: 0 <= k < j ==> a[k] == Plus(old(a[k]), b[k])
      invariant forall k :: j <= k < a.Length ==> a[k] == old(a[k])
    {
      a[j] := Plus(a[j], b[j]);
    }
  }

  /** Store the output of the pseudo-random function. */
  method Store(a: array<bv8>, block: Block)
    requires a.Length == BLOCK_SIZE
    modifies a
    ensures a[..] == block
  {
    for j := 0 to BLOCK_SIZE
      invariant a[..j] == block[..j]
    {
      a[j] := block[j];
    }
  }

  /** What an iteration count amounts to: half of it is counted, and at least one pair is computed. */
  function Effective(c: nat): nat {
    if c == 0 then 2 else c
  }

  /** `keyBlock[j] ^= prfOne[j] ^ prfTwo[j]` over a block. */
  method XorBothInto(a: array<bv8>, b: array<bv8>, c: array<bv8>)
    requires a.Length == b.Length == c.Length && a != b && a != c
    modifies a
    ensures a[..] == Xor(old(a[..]), Xor(b[..], c[..]))
  {
    hide Plus;
    for j := 0 to a.Length
      invariant forall k :: 0 <= k < j ==> a[k] == Plus(old(a[k]), Plus(b[k], c[k]))
      invariant forall k :: j <= k < a.Length ==> a[k] == old(a[k])
    {
      a[j] := Plus(a[j], Plus(b[j], c[j]));
    }
  }

  lemma TwoMore(prf: Prf, salt: Bytes, i: nat, j: nat)
    requires 1 <= j && i < 0x1_0000_0000
    ensures U(prf, salt, i, j + 1) == prf(U(prf, salt, i, j)) && U(prf, salt, i, j + 2) == prf(U(prf, salt, i, j + 1))
    ensures T(prf, salt, i, j + 2)
            == Xor(T(prf, salt, i, j), Xor(U(prf, salt, i, j + 2), U(prf, salt, i, j + 1)))
  {
    hide Xor;
    XorAssociates(T(prf, salt, i, j), U(prf, salt, i, j + 2), U(prf, salt, i, j + 1));
  }

  lemma FirstTwo(prf: Prf, salt: Bytes, i: nat)
    requires i < 0x1_0000_0000
    ensures U(prf, salt, i, 1) == prf(salt + Int(i)) && U(prf, salt, i, 2) == prf(U(prf, salt, i, 1))
    ensures T(prf, salt, i, 2) == Xor(U(prf, salt, i, 1), U(prf, salt, i, 2))
  {
    hide Xor;
    assert T(prf, salt, i, 1) == U(prf, salt, i, 1);
  }

  /** The body of the outer loop: one block, two iterations at a time. */
  method DeriveBlock(prf: Prf, salt: Bytes, i: nat, half: nat) returns (keyBlock: array<bv8>)
    requires i < 0x1_0000_0000
    ensures fresh(keyBlock) && keyBlock[..] == T(prf, salt, i, Effective(2 * half))
  {
    hide U, T, Xor, Int;
    keyBlock := new bv8[BLOCK_SIZE];
    var prfOne, prfTwo := new bv8[BLOCK_SIZE], new bv8[BLOCK_SIZE];
    FirstTwo(prf, salt, i);
    Store(keyBlock, prf(salt + Int(i)));
    Store(prfOne, prf(keyBlock[..]));
    XorInto(keyBlock, prfOne);
    var k := 1;
    while k < half
      invariant 1 <= k && (half >= 1 ==> k <= half) && (half == 0 ==> k == 1)
      invariant prfOne[..] == U(prf, salt, i, 2 * k) && keyBlock[..] == T(prf, salt, i, 2 * k)
    {
      TwoMore(prf, salt, i, 2 * k);
      Store(prfTwo, prf(prfOne[..]));
      Store(prfOne, prf(prfTwo[..]));
      XorBothInto(keyBlock, prfOne, prfTwo);
      k := k + 1;
    }
  }

  lemma OneMoreBlock(prf: Prf, salt: Bytes, c: nat, n: nat, useLen: nat)
    requires 1 <= c && n + 1 < 0x1_0000_0000 && useLen <= BLOCK_SIZE
    ensures Blocks(prf, salt, c, n + 1)[..BLOCK_SIZE * n + useLen]
            == Blocks(prf, salt, c, n) + T(prf, salt, n + 1, c)[..useLen]
  {
  }

  /**
   `otPbkdf2Cmac`. The iteration count must be even; zero iterations give what two do.
   */
  method Derive(prf: Prf, salt: Bytes, iterations: nat, key: array<bv8>, aKeyLen: nat)
    requires |salt| <= SALT_MAX_LEN && iterations % 2 == 0
    requires aKeyLen < 0x1_0000 && aKeyLen <= key.Length
    modifies key
    ensures key[..aKeyLen] == Key(prf, salt, Effective(iterations), aKeyLen)
    ensures key[aKeyLen..] == old(key[aKeyLen..])
  {
    hide U, T, Xor, Int, Blocks;
    var c := Effective(iterations);
    var half, blockCounter: nat, offset: nat, keyLen: nat := iterations / 2, 0, 0, aKeyLen;
    assert Blocks(prf, salt, c, 0) == [];
    while keyLen > 0
      invariant offset + keyLen == aKeyLen
      invariant blockCounter == (offset + 15) / 16 && (keyLen > 0 ==> offset == BLOCK_SIZE * blockCounter)
      invariant key[..offset] == Blocks(prf, salt, c, blockCounter)[..offset]
      invariant key[aKeyLen..] == old(key[aKeyLen..])
    {
      blockCounter := blockCounter + 1;
      var keyBlock := DeriveBlock(prf, salt, blockCounter, half);
      var useLen := if keyLen < BLOCK_SIZE then keyLen else BLOCK_SIZE;
      OneMoreBlock(prf, salt, c, blockCounter - 1, useLen);
      assert key[..offset] == Blocks(prf, salt, c, blockCounter - 1);
      CopyTo(key, offset, keyBlock[..useLen], aKeyLen);
      offset, keyLen := offset + useLen, keyLen - useLen;
    }
  }

  /** `memcpy`. */
  method CopyTo(key: array<bv8>, offset: nat, bytes: Bytes, end: nat)
    requires offset + |bytes| <= end <= key.Length
    modifies key
    ensures key[..offset + |bytes|] == old(key[..offset]) + bytes && key[end..] == old(key[end..])
  {
    for j := 0 to |bytes|
      invariant key[..offset + j] == old(key[..offset]) + bytes[..j] && key[end..] == old(key[end..])
    {
      key[offset + j] := bytes[j];
    }
  }
}
