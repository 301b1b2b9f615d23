/**
 AES-128-CMAC (packages/core/src/cmac.ts), written over arrays as the code writes it over
 buffers, and proved to be the MAC of NIST SP 800-38B.  AES itself is a parameter: any
 function from a key and a block to a block.
 */
module Cmac {
  import opened Bytes
  import opened Sequences

  const BLOCK_SIZE := 16
  const RB: byte := 0x87

  type BlockFunction = (bytes, bytes) -> bytes

  ghost predicate IsBlockFunction(aes: BlockFunction) {
    forall key, block :: |aes(key, block)| == BLOCK_SIZE
  }

  /** One key's permutation: what makes a block function a block cipher. */
  ghost predicate Injective(aes: BlockFunction, key: bytes) {
    forall a, b | |a| == |b| == BLOCK_SIZE && aes(key, a) == aes(key, b) :: a == b
  }

  // --- Doubling: section 6.1 --------------------------------------------------

  /** The bit a left shift drops. */
  function TopBit(s: bytes): (c: nat)
    ensures c <= 1
  {
    if s == [] then 0 else s[0] / 128
  }

  /** A big-endian integer shifted left by one bit, within its width. */
  function Shifted(s: bytes): (t: bytes)
    ensures |t| == |s|
  {
    if s == [] then [] else [(2 * s[0] + TopBit(s[1..])) % 256] + Shifted(s[1..])
  }

  lemma ByteCarry(b: byte, carry: nat)
    requires carry <= 1
    ensures 2 * b + carry == 256 * (b / 128) + (2 * b + carry) % 256
  {
    if b < 128 {
      assert b / 128 == 0;
    } else {
      assert b / 128 == 1;
    }
  }

  lemma Scale(x: nat, y: nat, z: nat, d: nat, p: nat)
    requires 2 * x + y == 256 * z + d
    ensures 2 * (x * p) + y * p == z * (256 * p) + d * p
  {
    assert (2 * x + y) * p == (256 * z + d) * p;
  }

  lemma {:induction false} ShiftDoubles(s: bytes)
    ensures 2 * BigEndian(s) == TopBit(s) * Pow256(|s|) + BigEndian(Shifted(s))
  {
    if s != [] {
      var t := s[1..];
      ShiftDoubles(t);
      assert Shifted(s)[1..] == Shifted(t);
      ByteCarry(s[0], TopBit(t));
      Scale(s[0], TopBit(t), TopBit(s), Shifted(s)[0], Pow256(|t|));
    }
  }

  lemma Wraps(v: nat, n: nat, carry: nat, p: nat)
    requires v == carry * p + n && n < p && carry <= 1
    ensures v % p == n
  {
    if carry == 1 {
      assert v == 1 * p + n;
    }
  }

  /** leftShiftOneBit computes twice the big-endian value, modulo 2^(8n). */
  lemma ShiftIsDoublingModulo(s: bytes)
    ensures BigEndian(Shifted(s)) == (2 * BigEndian(s)) % Pow256(|s|)
  {
    ShiftDoubles(s);
    ValueBound(Shifted(s));
    Wraps(2 * BigEndian(s), BigEndian(Shifted(s)), TopBit(s), Pow256(|s|));
  }

  /** The constant R_128 as a block. */
  const R128: bytes := Zeros(15) + [RB]

  /** A subkey from the block before it: shift, and fold the bit that fell off back in. */
  function Subkey(block: bytes): (k: bytes)
    requires |block| == BLOCK_SIZE
    ensures |k| == BLOCK_SIZE
  {
    if block[0] >= 0x80 then Xor(Shifted(block), R128) else Shifted(block)
  }

  function Falses(n: nat): (s: seq<bool>)
    ensures |s| == n
  {
    if n == 0 then [] else [false] + Falses(n - 1)
  }

  /** x^128 + x^7 + x^2 + x + 1, coefficients from x^128 down. */
  const MODULUS: seq<bool> := [true] + Falses(120) + [true, false, false, false, false, true, true, true]

  lemma {:induction false} ZeroBits(n: nat)
    ensures LowBits(0, n) == Falses(n)
  {
    if n > 0 {
      ZeroBits(n - 1);
      FalsesJoin(n - 1, 1);
    }
  }

  lemma {:induction false} FalsesJoin(m: nat, n: nat)
    ensures Falses(m) + Falses(n) == Falses(m + n)
  {
    if m > 0 {
      FalsesJoin(m - 1, n);
      assert Falses(m) + Falses(n) == [false] + (Falses(m - 1) + Falses(n));
    }
  }

  lemma {:induction false} ZerosHaveNoBits(n: nat, b: byte)
    ensures Bits(Zeros(n) + [b]) == Falses(8 * n) + LowBits(b, 8)
  {
    var s := Zeros(n) + [b];
    if n == 0 {
      assert s == [b] && Bits([b][1..]) == [];
    } else {
      assert s[0] == 0 && s[1..] == Zeros(n - 1) + [b];
      ZerosHaveNoBits(n - 1, b);
      ZeroBits(8);
      FalsesJoin(8, 8 * (n - 1));
    }
  }

  lemma RbBits()
    ensures LowBits(RB, 8) == [true, false, false, false, false, true, true, true]
  {
    assert LowBits(0x10, 5) == [true, false, false, false, false];
    assert LowBits(0x21, 6) == LowBits(0x10, 5) + [true];
    assert LowBits(0x43, 7) == LowBits(0x21, 6) + [true];
  }

  /** R_128 is the modulus without its leading term. */
  lemma R128IsTheModulus()
    ensures [true] + Bits(R128) == MODULUS
  {
    ZerosHaveNoBits(15, RB);
    RbBits();
  }

  /** Multiplication by x in GF(2)[x], then reduction by the modulus. */
  function TimesX(p: seq<bool>): (q: seq<bool>)
    ensures |q| == |p| + 1
  {
    p + [false]
  }

  function Reduce(q: seq<bool>): (r: seq<bool>)
    requires |q| == 129
    ensures |r| == 128
  {
    if q[0] then XorBits(q, MODULUS)[1..] else q[1..]
  }

  /** One bit shifted in at the bottom of an n-bit number, one dropped at the top. */
  lemma ShiftedLowBits(b: nat, carry: nat, r: nat, n: nat)
    requires carry <= 1 && 0 < n
    requires r == 2 * b + carry || r + Pow2(n) == 2 * b + carry
    ensures LowBits(r, n) == LowBits(b, n)[1..] + [carry == 1]
  {
    HalfAndParity(b, carry);
    DropTopBit(b, n);
    assert LowBits(2 * b + carry, n) == LowBits(b, n - 1) + [carry == 1];
    if r != 2 * b + carry {
      WrapKeepsLowBits(r, n);
    }
  }

  lemma ShiftedByteBits(b: byte, carry: nat)
    requires carry <= 1
    ensures LowBits((2 * b + carry) % 256, 8) == LowBits(b, 8)[1..] + [carry == 1]
  {
    assert Pow2(8) == 256;
    ByteCarry(b, carry);
    ShiftedLowBits(b, carry, (2 * b + carry) % 256, 8);
  }

  lemma TopBitIsFirst(s: bytes)
    requires s != []
    ensures Bits(s)[0] <==> TopBit(s) == 1
  {
    assert Pow2(7) == 128 && Pow2(8) == 256;
    TopBitIsHalf(s[0], 8);
  }

  lemma TimesXOfJoin(head: seq<bool>, tail: seq<bool>)
    requires head != []
    ensures tail == [] ==> TimesX(head + tail)[1..] == head[1..] + [false]
    ensures tail != [] ==> TimesX(head + tail)[1..] == head[1..] + [tail[0]] + TimesX(tail)[1..]
  {
  }

  lemma {:induction false} ShiftedBits(s: bytes)
    requires s != []
    ensures Bits(Shifted(s)) == TimesX(Bits(s))[1..]
  {
    var t := s[1..];
    ShiftedByteBits(s[0], TopBit(t));
    assert Shifted(s)[1..] == Shifted(t);
    TimesXOfJoin(LowBits(s[0], 8), Bits(t));
    if t == [] {
      assert Bits(Shifted(t)) == [];
    } else {
      ShiftedBits(t);
      TopBitIsFirst(t);
    }
  }

  lemma XorTails(a: bool, p: seq<bool>, b: bool, q: seq<bool>)
    requires |p| == |q|
    ensures XorBits([a] + p, [b] + q)[1..] == XorBits(p, q)
  {
  }

  /** Each subkey is the block before it times x in GF(2^128). */
  lemma SubkeyIsFieldDoubling(block: bytes)
    requires |block| == BLOCK_SIZE
    ensures Bits(Subkey(block)) == Reduce(TimesX(Bits(block)))
  {
    ShiftedBits(block);
    TopBitIsFirst(block);
    var q := TimesX(Bits(block));
    if block[0] >= 0x80 {
      XorIsBitwise(Shifted(block), R128);
      R128IsTheModulus();
      assert q == [true] + q[1..];
      XorTails(true, q[1..], true, Bits(R128));
    }
  }

  // --- The MAC: section 6.2 ----------------------------------------------------

  function Cbc(aes: BlockFunction, key: bytes, x: bytes, p: bytes): (mac: bytes)
    requires |x| == BLOCK_SIZE
    decreases |p|
  {
    if |p| < BLOCK_SIZE then x
    else
      var next := aes(key, Xor(x, p[..16]));
      if |next| == BLOCK_SIZE then Cbc(aes, key, next, p[16..]) else next
  }

  /** Chaining over whole blocks and then over the rest. */
  lemma {:induction false} CbcJoins(aes: BlockFunction, key: bytes, x: bytes, p: bytes, k: nat, q: bytes)
    requires IsBlockFunction(aes) && |x| == BLOCK_SIZE && |p| == 16 * k
    ensures |Cbc(aes, key, x, p)| == BLOCK_SIZE
    ensures Cbc(aes, key, x, p + q) == Cbc(aes, key, Cbc(aes, key, x, p), q)
    decreases k
  {
    if k == 0 {
      assert p + q == q;
    } else {
      assert (p + q)[..16] == p[..16] && (p + q)[16..] == p[16..] + q;
      CbcJoins(aes, key, aes(key, Xor(x, p[..16])), p[16..], k - 1, q);
    }
  }

  lemma CbcOneBlock(aes: BlockFunction, key: bytes, x: bytes, b: bytes)
    requires IsBlockFunction(aes) && |x| == |b| == BLOCK_SIZE
    ensures Cbc(aes, key, x, b) == aes(key, Xor(x, b))
  {
    assert b[..16] == b && b[16..] == [];
  }

  /** The message's last block is whole. */
  predicate Complete(m: bytes) { m != [] && |m| % BLOCK_SIZE == 0 }

  /** The message, completed with a one bit and zeros unless it is whole already. */
  function Padded(m: bytes): (p: bytes)
    ensures |p| > 0 && |p| % BLOCK_SIZE == 0 && m <= p
  {
    if Complete(m) then m else m + [0x80] + Zeros(15 - |m| % 16)
  }

  /** The padded message with its last block masked by K1 or K2. */
  function Formatted(m: bytes, k1: bytes, k2: bytes): (f: bytes)
    requires |k1| == |k2| == BLOCK_SIZE
    ensures |f| == |Padded(m)|
  {
    var p := Padded(m);
    p[..|p| - 16] + Xor(p[|p| - 16..], if Complete(m) then k1 else k2)
  }

  function Cmac(aes: BlockFunction, key: bytes, m: bytes): (mac: bytes)
    requires |aes(key, Zeros(16))| == BLOCK_SIZE
  {
    var k1 := Subkey(aes(key, Zeros(16)));
    Cbc(aes, key, Zeros(16), Formatted(m, k1, Subkey(k1)))
  }

  /** An incomplete message ends where the last one bit is. */
  lemma PaddingMarksTheEnd(m: bytes)
    requires !Complete(m)
    ensures var p := Padded(m);
            |m| < |p| && p[|m|] == 0x80 && forall i | |m| < i < |p| :: p[i] == 0
  {
  }

  /** Padding, with the choice of subkey, is injective on messages of all lengths. */
  lemma PaddingIsInjective(m: bytes, n: bytes)
    requires Padded(m) == Padded(n) && Complete(m) == Complete(n)
    ensures m == n
  {
    if !Complete(m) {
      PaddingMarksTheEnd(m);
      PaddingMarksTheEnd(n);
      assert |m| == |n|;
      assert m == Padded(m)[..|m|] && n == Padded(n)[..|n|];
    }
  }

  /** Two strings that differ inside block k and nowhere else. */
  ghost predicate DifferOnlyInBlock(p: bytes, q: bytes, k: nat) {
    p != q && AgreeOutsideBlock(p, q, k)
  }

  ghost predicate AgreeOutsideBlock(p: bytes, q: bytes, k: nat) {
    |p| == |q| && forall i | 0 <= i < |p| && !(16 * k <= i < 16 * k + 16) :: p[i] == q[i]
  }

  /** One step of the chain: an injective cipher keeps two chaining values apart. */
  lemma StepKeepsDifference(aes: BlockFunction, key: bytes, x: bytes, y: bytes, b: bytes)
    requires IsBlockFunction(aes) && Injective(aes, key)
    requires |x| == |y| == |b| == BLOCK_SIZE && x != y
    ensures aes(key, Xor(x, b)) != aes(key, Xor(y, b))
    ensures aes(key, Xor(b, x)) != aes(key, Xor(b, y))
  {
    if Xor(x, b) == Xor(y, b) {
      XorCancels(x, y, b);
    }
    XorCommutes(x, b);
    XorCommutes(y, b);
  }

  lemma {:induction false} ChainKeepsDifference(aes: BlockFunction, key: bytes, x: bytes, y: bytes,
                                                p: bytes)
    requires IsBlockFunction(aes) && Injective(aes, key)
    requires |x| == |y| == BLOCK_SIZE && x != y
    ensures Cbc(aes, key, x, p) != Cbc(aes, key, y, p)
    decreases |p|
  {
    if |p| >= BLOCK_SIZE {
      StepKeepsDifference(aes, key, x, y, p[..16]);
      ChainKeepsDifference(aes, key, aes(key, Xor(x, p[..16])), aes(key, Xor(y, p[..16])), p[16..]);
    }
  }

  lemma {:induction false} ChainSeesOneBlock(aes: BlockFunction, key: bytes, x: bytes, p: bytes, q: bytes,
                                           k: nat)
    requires IsBlockFunction(aes) && Injective(aes, key)
    requires |x| == BLOCK_SIZE && 16 * k + 16 <= |p| && DifferOnlyInBlock(p, q, k)
    ensures Cbc(aes, key, x, p) != Cbc(aes, key, x, q)
    decreases |p|
  {
    if k == 0 {
      assert p[16..] == q[16..];
      assert p == p[..16] + p[16..] && q == q[..16] + q[16..];
      StepKeepsDifference(aes, key, p[..16], q[..16], x);
      ChainKeepsDifference(aes, key, aes(key, Xor(x, p[..16])), aes(key, Xor(x, q[..16])), p[16..]);
    } else {
      assert p[..16] == q[..16];
      assert p == p[..16] + p[16..] && q == q[..16] + q[16..];
      forall i | 0 <= i < |p| - 16 && !(16 * (k - 1) <= i < 16 * (k - 1) + 16)
        ensures p[16..][i] == q[16..][i]
      {
        assert p[i + 16] == q[i + 16];
      }
      ChainSeesOneBlock(aes, key, aes(key, Xor(x, p[..16])), p[16..], q[16..], k - 1);
    }
  }

  /** The formatted message, with the choice of subkey, still determines the message. */
  lemma FormattingIsInjective(m: bytes, n: bytes, k1: bytes, k2: bytes)
    requires |k1| == |k2| == BLOCK_SIZE && Complete(m) == Complete(n)
    requires Formatted(m, k1, k2) == Formatted(n, k1, k2)
    ensures m == n
  {
    hide Padded, XorByte;
    var p, q := Padded(m), Padded(n);
    var c := |p| - 16;
    var mask := if Complete(m) then k1 else k2;
    SplitFront(p[..c], Xor(p[c..], mask), q[..c], Xor(q[c..], mask));
    XorCancels(p[c..], q[c..], mask);
    assert p == p[..c] + p[c..] == q[..c] + q[c..] == q;
    PaddingIsInjective(m, n);
  }

  lemma PaddedAgree(m: bytes, n: bytes, k: nat)
    requires AgreeOutsideBlock(m, n, k)
    ensures AgreeOutsideBlock(Padded(m), Padded(n), k)
  {
  }

  lemma MaskedAgree(p: bytes, q: bytes, mask: bytes, k: nat)
    requires AgreeOutsideBlock(p, q, k) && |p| >= BLOCK_SIZE == |mask|
    ensures AgreeOutsideBlock(p[..|p| - 16] + Xor(p[|p| - 16..], mask), q[..|q| - 16] + Xor(q[|q| - 16..], mask), k)
  {
  }

  lemma FormattedAgree(m: bytes, n: bytes, k1: bytes, k2: bytes, k: nat)
    requires |k1| == |k2| == BLOCK_SIZE && AgreeOutsideBlock(m, n, k)
    ensures AgreeOutsideBlock(Formatted(m, k1, k2), Formatted(n, k1, k2), k)
  {
    PaddedAgree(m, n, k);
    MaskedAgree(Padded(m), Padded(n), if Complete(m) then k1 else k2, k);
  }

  lemma AgreeBeforeBlock(m: bytes, n: bytes, k: nat)
    requires AgreeOutsideBlock(m, n, k) && |m| <= 16 * k
    ensures m == n
  {
  }

  lemma FormattedDiffers(m: bytes, n: bytes, k1: bytes, k2: bytes, k: nat)
    requires |k1| == |k2| == BLOCK_SIZE && DifferOnlyInBlock(m, n, k)
    ensures DifferOnlyInBlock(Formatted(m, k1, k2), Formatted(n, k1, k2), k)
    ensures 16 * k + 16 <= |Formatted(m, k1, k2)|
  {
    FormattedAgree(m, n, k1, k2, k);
    if Formatted(m, k1, k2) == Formatted(n, k1, k2) {
      FormattingIsInjective(m, n, k1, k2);
    }
    if |m| <= 16 * k {
      AgreeBeforeBlock(m, n, k);
    }
    PaddedCovers(m, k);
  }

  lemma PaddedCovers(m: bytes, k: nat)
    requires 16 * k < |m|
    ensures 16 * k + 16 <= |Padded(m)|
  {
    assert |Padded(m)| % 16 == 0;
  }

  /**
   Two equal-length messages that differ inside exactly one block never have the same MAC,
   whatever the key, if the cipher is injective under it.
   */
  lemma OneBlockChangesTheMac(aes: BlockFunction, key: bytes, m: bytes, n: bytes, k: nat)
    requires IsBlockFunction(aes) && Injective(aes, key) && DifferOnlyInBlock(m, n, k)
    ensures Cmac(aes, key, m) != Cmac(aes, key, n)
  {
    var k1 := Subkey(aes(key, Zeros(16)));
    FormattedDiffers(m, n, k1, Subkey(k1), k);
    ChainSeesOneBlock(aes, key, Zeros(16), Formatted(m, k1, Subkey(k1)), Formatted(n, k1, Subkey(k1)), k);
  }
}
