/** Bytes as numbers, the integers they spell big-endian, and the bits they are made of. */
module Bytes {

  type byte = x: int | 0 <= x < 256

  type bytes = seq<byte>

  function Pow2(n: nat): (p: nat)
    ensures p > 0
  {
    if n == 0 then 1 else 2 * Pow2(n - 1)
  }

  function Pow256(n: nat): (p: nat)
    ensures p > 0
  {
    if n == 0 then 1 else 256 * Pow256(n - 1)
  }

  function BigEndian(s: bytes): nat {
    if s == [] then 0 else s[0] * Pow256(|s| - 1) + BigEndian(s[1..])
  }

  lemma Bound(b: byte, p: nat)
    ensures b * p <= 255 * p
  {
  }

  lemma {:induction false} ValueBound(s: bytes)
    ensures BigEndian(s) < Pow256(|s|)
  {
    if s != [] {
      ValueBound(s[1..]);
      Bound(s[0], Pow256(|s| - 1));
    }
  }

  lemma HeadTells(a: nat, x: nat, b: nat, y: nat, p: nat)
    requires x < p && y < p && a * p + x == b * p + y
    ensures a == b && x == y
  {
    if a != b {
      Multiples(if a < b then a + 1 else b + 1, if a < b then b else a, p);
      assert false;
    }
  }

  lemma Multiples(a: nat, b: nat, p: nat)
    requires a <= b
    ensures a * p <= b * p
  {
  }

  /** Equally many bytes that spell one number are the same bytes. */
  lemma {:induction false} BigEndianTells(t: bytes, u: bytes)
    requires |t| == |u| && BigEndian(t) == BigEndian(u)
    ensures t == u
  {
    if t != [] {
      ValueBound(t[1..]);
      ValueBound(u[1..]);
      HeadTells(t[0], BigEndian(t[1..]), u[0], BigEndian(u[1..]), Pow256(|t| - 1));
      BigEndianTells(t[1..], u[1..]);
    }
  }

  function Zeros(n: nat): (s: bytes)
    ensures |s| == n
    ensures forall i | 0 <= i < n :: s[i] == 0
  {
    seq(n, _ => 0)
  }

  /** The low n bits of a and b, exclusive-or. */
  function XorLow(a: nat, b: nat, n: nat): (x: nat)
    ensures x < Pow2(n)
  {
    if n == 0 then 0 else 2 * XorLow(a / 2, b / 2, n - 1) + (a + b) % 2
  }

  function XorByte(a: byte, b: byte): byte {
    assert Pow2(8) == 256;
    XorLow(a, b, 8)
  }

  function Xor(a: bytes, b: bytes): (s: bytes)
    requires |a| <= |b|
    ensures |s| == |a|
    ensures forall i | 0 <= i < |a| :: s[i] == XorByte(a[i], b[i])
  {
    seq(|a|, i requires 0 <= i < |a| => XorByte(a[i], b[i]))
  }

  /** The low n bits of a, most significant first. */
  function LowBits(a: nat, n: nat): (bits: seq<bool>)
    ensures |bits| == n
  {
    if n == 0 then [] else LowBits(a / 2, n - 1) + [a % 2 == 1]
  }

  function Bits(s: bytes): (bits: seq<bool>)
    ensures |bits| == 8 * |s|
  {
    if s == [] then [] else LowBits(s[0], 8) + Bits(s[1..])
  }

  function XorBits(a: seq<bool>, b: seq<bool>): (s: seq<bool>)
    requires |a| == |b|
    ensures |s| == |a|
    ensures forall i | 0 <= i < |a| :: s[i] == (a[i] != b[i])
  {
    seq(|a|, i requires 0 <= i < |a| => a[i] != b[i])
  }

  lemma HalfAndParity(h: nat, r: nat)
    requires r < 2
    ensures (2 * h + r) / 2 == h && (2 * h + r) % 2 == r
  {
  }

  lemma ParityOfSum(a: nat, b: nat)
    ensures (a + b) % 2 == 1 <==> (a % 2 == 1) != (b % 2 == 1)
  {
  }

  lemma XorBitsJoin(a: seq<bool>, b: seq<bool>, c: seq<bool>, d: seq<bool>)
    requires |a| == |c| && |b| == |d|
    ensures XorBits(a + b, c + d) == XorBits(a, c) + XorBits(b, d)
  {
  }

  lemma {:induction false} XorLowIsBitwise(a: nat, b: nat, n: nat)
    ensures LowBits(XorLow(a, b, n), n) == XorBits(LowBits(a, n), LowBits(b, n))
  {
    if n > 0 {
      XorLowIsBitwise(a / 2, b / 2, n - 1);
      HalfAndParity(XorLow(a / 2, b / 2, n - 1), (a + b) % 2);
      ParityOfSum(a, b);
      XorBitsJoin(LowBits(a / 2, n - 1), [a % 2 == 1], LowBits(b / 2, n - 1), [b % 2 == 1]);
    }
  }

  /** Exclusive-or of byte strings is exclusive-or of their bits. */
  lemma {:induction false} XorIsBitwise(a: bytes, b: bytes)
    requires |a| == |b|
    ensures Bits(Xor(a, b)) == XorBits(Bits(a), Bits(b))
  {
    if a != [] {
      XorIsBitwise(a[1..], b[1..]);
      XorLowIsBitwise(a[0], b[0], 8);
      assert Xor(a, b)[1..] == Xor(a[1..], b[1..]);
      XorBitsJoin(LowBits(a[0], 8), Bits(a[1..]), LowBits(b[0], 8), Bits(b[1..]));
    }
  }

  lemma {:induction false} XorLowCancels(a: nat, b: nat, c: nat, n: nat)
    requires a < Pow2(n) && b < Pow2(n) && XorLow(a, c, n) == XorLow(b, c, n)
    ensures a == b
  {
    if n > 0 {
      HalfAndParity(XorLow(a / 2, c / 2, n - 1), (a + c) % 2);
      HalfAndParity(XorLow(b / 2, c / 2, n - 1), (b + c) % 2);
      ParityOfSum(a, c);
      ParityOfSum(b, c);
      XorLowCancels(a / 2, b / 2, c / 2, n - 1);
    }
  }

  /** Masking with the same string loses nothing. */
  lemma XorCancels(a: bytes, b: bytes, c: bytes)
    requires |a| == |b| <= |c| && Xor(a, c) == Xor(b, c)
    ensures a == b
  {
    assert Pow2(8) == 256;
    forall i | 0 <= i < |a|
      ensures a[i] == b[i]
    {
      assert Xor(a, c)[i] == Xor(b, c)[i];
      XorLowCancels(a[i], b[i], c[i], 8);
    }
  }

  lemma {:induction false} XorLowCommutes(a: nat, b: nat, n: nat)
    ensures XorLow(a, b, n) == XorLow(b, a, n)
  {
    if n > 0 {
      XorLowCommutes(a / 2, b / 2, n - 1);
    }
  }

  lemma XorCommutes(a: bytes, b: bytes)
    requires |a| == |b|
    ensures Xor(a, b) == Xor(b, a)
  {
    forall i | 0 <= i < |a|
      ensures Xor(a, b)[i] == Xor(b, a)[i]
    {
      XorLowCommutes(a[i], b[i], 8);
    }
  }

  /** The top bit of an n-bit number says whether it has reached the upper half. */
  lemma {:induction false} TopBitIsHalf(a: nat, n: nat)
    requires 0 < n && a < Pow2(n)
    ensures LowBits(a, n)[0] <==> a >= Pow2(n - 1)
  {
    if n > 1 {
      TopBitIsHalf(a / 2, n - 1);
    }
  }

  lemma {:induction false} DropTopBit(a: nat, n: nat)
    requires 0 < n
    ensures LowBits(a, n)[1..] == LowBits(a, n - 1)
  {
    if n > 1 {
      DropTopBit(a / 2, n - 1);
      assert LowBits(a, n)[1..] == LowBits(a / 2, n - 1)[1..] + [a % 2 == 1];
    }
  }

  lemma {:induction false} WrapKeepsLowBits(a: nat, n: nat)
    ensures LowBits(a + Pow2(n), n) == LowBits(a, n)
  {
    if n > 0 {
      WrapKeepsLowBits(a / 2, n - 1);
      assert (a + Pow2(n)) / 2 == a / 2 + Pow2(n - 1);
    }
  }
}
