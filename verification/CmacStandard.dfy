/**
 The MAC in the standard's own terms (NIST SP 800-38B, section 6.2): bits, chain values and one
 last cipher call, masked by the doubled or twice doubled L, for messages of every length.
 */
module CmacStandard {
  import opened Bytes
  import opened Cmac

  // --- bits determine bytes ----------------------------------------------------------------

  lemma {:induction false} LowBitsTell(a: nat, b: nat, n: nat)
    requires a < Pow2(n) && b < Pow2(n) && LowBits(a, n) == LowBits(b, n)
    ensures a == b
  {
    if n > 0 {
      var p, q := LowBits(a / 2, n - 1), LowBits(b / 2, n - 1);
      assert LowBits(a, n)[..n - 1] == p && LowBits(b, n)[..n - 1] == q;
      assert LowBits(a, n)[n - 1] == LowBits(b, n)[n - 1];
      LowBitsTell(a / 2, b / 2, n - 1);
    }
  }

  /** So "the block with these bits" is one block. */
  lemma {:induction false} BitsTell(a: bytes, b: bytes)
    requires |a| == |b| && Bits(a) == Bits(b)
    ensures a == b
  {
    if a != [] {
      assert Pow2(8) == 256;
      assert Bits(a)[..8] == LowBits(a[0], 8) && Bits(a)[8..] == Bits(a[1..]);
      assert Bits(b)[..8] == LowBits(b[0], 8) && Bits(b)[8..] == Bits(b[1..]);
      LowBitsTell(a[0], b[0], 8);
      BitsTell(a[1..], b[1..]);
    }
  }

  // --- the chain ------------------------------------------------------------------------------

  /** The chain value after k whole blocks. */
  ghost function ChainAfter(aes: BlockFunction, key: bytes, m: bytes, k: nat): (x: bytes)
    requires IsBlockFunction(aes) && 16 * k <= |m|
    ensures |x| == 16
  {
    if k == 0 then Zeros(16) else aes(key, Xor(ChainAfter(aes, key, m, k - 1), m[16 * (k - 1)..16 * k]))
  }

  lemma {:induction false} ChainIsCbc(aes: BlockFunction, key: bytes, m: bytes, k: nat)
    requires IsBlockFunction(aes) && 16 * k <= |m|
    ensures Cbc(aes, key, Zeros(16), m[..16 * k]) == ChainAfter(aes, key, m, k)
  {
    if k > 0 {
      var front, block := m[..16 * (k - 1)], m[16 * (k - 1)..16 * k];
      ChainIsCbc(aes, key, m, k - 1);
      assert m[..16 * k] == front + block;
      CbcJoins(aes, key, Zeros(16), front, k - 1, block);
      CbcOneBlock(aes, key, ChainAfter(aes, key, m, k - 1), block);
    }
  }

  // --- the last call ---------------------------------------------------------------------------

  /** The bits of L = CIPH(0^128), multiplied by x once. */
  ghost function Once(aes: BlockFunction, key: bytes): seq<bool>
    requires IsBlockFunction(aes)
  {
    Reduce(TimesX(Bits(aes(key, Zeros(16)))))
  }

  /** And twice. */
  ghost function Twice(aes: BlockFunction, key: bytes): seq<bool>
    requires IsBlockFunction(aes)
  {
    Reduce(TimesX(Once(aes, key)))
  }

  lemma MasksAreSubkeys(aes: BlockFunction, key: bytes)
    requires IsBlockFunction(aes)
    ensures var k1 := Subkey(aes(key, Zeros(16)));
            Bits(k1) == Once(aes, key) && Bits(Subkey(k1)) == Twice(aes, key)
  {
    var l := aes(key, Zeros(16));
    SubkeyIsFieldDoubling(l);
    SubkeyIsFieldDoubling(Subkey(l));
  }

  /** x is the exclusive-or of a chain value, a last block and a mask. */
  ghost predicate Masked(x: bytes, chain: bytes, last: bytes, mask: seq<bool>) {
    && |x| == |chain| == |last| == 16 && |mask| == 128
    && forall i | 0 <= i < 128 :: Bits(x)[i] == ((Bits(chain)[i] != Bits(last)[i]) != mask[i])
  }

  lemma MaskedIsABlock(x: bytes, chain: bytes, last: bytes, mask: seq<bool>)
    requires Masked(x, chain, last, mask)
    ensures |x| == 16
  {
  }

  lemma MaskedByXor(chain: bytes, last: bytes, k: bytes)
    requires |chain| == |last| == |k| == 16
    ensures Masked(Xor(chain, Xor(last, k)), chain, last, Bits(k))
  {
    XorIsBitwise(chain, Xor(last, k));
    XorIsBitwise(last, k);
  }

  /** Chaining over whole blocks, and the last one with its mask. */
  lemma CbcWithLast(aes: BlockFunction, key: bytes, m: bytes, k: nat, last: bytes, mask: bytes)
    requires IsBlockFunction(aes) && 16 * k <= |m| && |last| == |mask| == 16
    ensures Cbc(aes, key, Zeros(16), m[..16 * k] + Xor(last, mask))
            == aes(key, Xor(ChainAfter(aes, key, m, k), Xor(last, mask)))
  {
    ChainIsCbc(aes, key, m, k);
    CbcJoins(aes, key, Zeros(16), m[..16 * k], k, Xor(last, mask));
    CbcOneBlock(aes, key, ChainAfter(aes, key, m, k), Xor(last, mask));
  }

  /** The last block of any message that is no positive number of whole blocks: the rest, a one bit, zeros. */
  function Completed(m: bytes): (last: bytes)
    ensures |last| == 16
  {
    m[|m| - |m| % 16..] + [0x80] + Zeros(15 - |m| % 16)
  }

  /**
   A message of whole blocks: the MAC is one cipher call on the chain value of the blocks before
   the last, exclusive-or the last block, exclusive-or L doubled once.
   */
  lemma MacOfWholeBlocks(aes: BlockFunction, key: bytes, m: bytes) returns (x: bytes)
    requires IsBlockFunction(aes) && |m| > 0 && |m| % 16 == 0
    ensures Cmac.Cmac(aes, key, m) == aes(key, x)
    ensures Masked(x, ChainAfter(aes, key, m, |m| / 16 - 1), m[|m| - 16..], Once(aes, key))
  {
    var k1, k := Subkey(aes(key, Zeros(16))), |m| / 16 - 1;
    MasksAreSubkeys(aes, key);
    assert 16 * k == |m| - 16;
    CbcWithLast(aes, key, m, k, m[|m| - 16..], k1);
    MaskedByXor(ChainAfter(aes, key, m, k), m[|m| - 16..], k1);
    x := Xor(ChainAfter(aes, key, m, k), Xor(m[|m| - 16..], k1));
  }

  /** Any other message, the empty one too: its whole blocks, the completed rest, and L doubled twice. */
  lemma MacOfOtherLengths(aes: BlockFunction, key: bytes, m: bytes) returns (x: bytes)
    requires IsBlockFunction(aes) && !(|m| > 0 && |m| % 16 == 0)
    ensures Cmac.Cmac(aes, key, m) == aes(key, x)
    ensures Masked(x, ChainAfter(aes, key, m, |m| / 16), Completed(m), Twice(aes, key))
  {
    var k1, k := Subkey(aes(key, Zeros(16))), |m| / 16;
    MasksAreSubkeys(aes, key);
    CompletedIsPadded(m);
    CbcWithLast(aes, key, m, k, Completed(m), Subkey(k1));
    MaskedByXor(ChainAfter(aes, key, m, k), Completed(m), Subkey(k1));
    x := Xor(ChainAfter(aes, key, m, k), Xor(Completed(m), Subkey(k1)));
  }

  lemma CompletedIsPadded(m: bytes)
    requires !Complete(m)
    ensures var p, k := Padded(m), |m| / 16;
            |p| == 16 * k + 16 && p[..16 * k] == m[..16 * k] && p[16 * k..] == Completed(m)
  {
    assert |m| - |m| % 16 == 16 * (|m| / 16);
    assert m == m[..16 * (|m| / 16)] + m[16 * (|m| / 16)..];
  }

  lemma {:induction false} ZeroBytesHaveNoBits(n: nat)
    ensures Bits(Zeros(n)) == Falses(8 * n)
  {
    if n > 0 {
      assert Zeros(n)[1..] == Zeros(n - 1);
      ZeroBytesHaveNoBits(n - 1);
      ZeroBits(8);
      FalsesJoin(8, 8 * (n - 1));
    }
  }

  lemma {:induction false} FalsesAreFalse(n: nat, i: nat)
    requires i < n
    ensures !Falses(n)[i]
  {
    if i > 0 {
      FalsesAreFalse(n - 1, i - 1);
    }
  }

  lemma MaskedFromZero(x: bytes, last: bytes, mask: seq<bool>)
    requires Masked(x, Zeros(16), last, mask)
    ensures Bits(x) == XorBits(Bits(last), mask)
  {
    ZeroBytesHaveNoBits(16);
    forall i: nat | i < 128
      ensures Bits(x)[i] == XorBits(Bits(last), mask)[i]
    {
      FalsesAreFalse(128, i);
    }
  }

  /** One block, whole or not: there is no chain yet, so the call is on the block and its mask alone. */
  lemma MacOfOneBlock(aes: BlockFunction, key: bytes, m: bytes) returns (x: bytes)
    requires IsBlockFunction(aes) && |m| <= 16
    ensures Cmac.Cmac(aes, key, m) == aes(key, x) && |x| == 16
    ensures if |m| == 16 then Bits(x) == XorBits(Bits(m), Once(aes, key))
            else Bits(x) == XorBits(Bits(m + [0x80] + Zeros(15 - |m|)), Twice(aes, key))
  {
    hide Cmac.Cmac, Masked, Bits, Once, Twice;
    if |m| == 16 {
      x := MacOfWholeBlocks(aes, key, m);
      assert m[|m| - 16..] == m;
      MaskedFromZero(x, m, Once(aes, key));
      MaskedIsABlock(x, Zeros(16), m, Once(aes, key));
    } else {
      x := MacOfOtherLengths(aes, key, m);
      assert Completed(m) == m + [0x80] + Zeros(15 - |m|);
      MaskedFromZero(x, Completed(m), Twice(aes, key));
      MaskedIsABlock(x, Zeros(16), Completed(m), Twice(aes, key));
    }
  }
}
