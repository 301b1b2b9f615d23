/** The buffer code of packages/core/src/cmac.ts, proved against Cmac. */
module CmacBuffers {
  import opened Prelude
  import opened Bytes
  import opened Cmac

  method LeftShiftOneBit(input: array<byte>) returns (out: array<byte>)
    ensures fresh(out) && out[..] == Shifted(input[..])
  {
    var n := input.Length;
    out := new byte[n](_ => 0);
    var carry: nat := 0;
    var i := n - 1;
    while i >= 0
      invariant -1 <= i < n
      invariant carry == TopBit(input[i + 1..])
      invariant out[i + 1..] == Shifted(input[i + 1..])
    {
      var v: nat := 2 * input[i] + carry; // (input[i] << 1) | carry: the low bit is free
      out[i] := v % 256;
      carry := v / 256 % 2;
      CarryOut(input[i], TopBit(input[i + 1..]));
      assert input[i..] == [input[i]] + input[i + 1..];
      assert out[i..] == [out[i]] + out[i + 1..];
      i := i - 1;
    }
    assert out[0..] == out[..] && input[0..] == input[..];
  }

  lemma CarryOut(b: byte, carry: nat)
    requires carry <= 1
    ensures (2 * b + carry) / 256 % 2 == b / 128
  {
    ByteCarry(b, carry);
  }

  /** dst ^= src; the two may be the same buffer. */
  method XorInto(dst: array<byte>, src: array<byte>)
    requires dst.Length <= src.Length
    modifies dst
    ensures dst[..] == Xor(old(dst[..]), old(src[..]))
  {
    for i := 0 to dst.Length
      invariant forall j | 0 <= j < i :: dst[j] == XorByte(old(dst[j]), old(src[j]))
      invariant forall j | i <= j < dst.Length :: dst[j] == old(dst[j])
      invariant forall j | i <= j < src.Length :: src[j] == old(src[j])
    {
      dst[i] := XorByte(dst[i], src[i]);
    }
  }

  /** src.copy(dst, 0, from, to) */
  method Copy(src: array<byte>, dst: array<byte>, from: nat, to: nat)
    requires from <= to <= src.Length && to - from <= dst.Length && src != dst
    modifies dst
    ensures dst[..] == src[from..to] + old(dst[to - from..])
  {
    for i := 0 to to - from
      invariant forall j | 0 <= j < i :: dst[j] == src[from + j]
      invariant forall j | i <= j < dst.Length :: dst[j] == old(dst[j])
    {
      dst[i] := src[from + i];
    }
  }

  /** max(1, ceil(length / 16)) */
  function BlockCount(length: nat): (n: nat)
    ensures n >= 1
  {
    if length == 0 then 1 else (length + 15) / 16
  }

  lemma PaddedLength(m: bytes)
    ensures var n := BlockCount(|m|);
            |Padded(m)| == 16 * n && 16 * (n - 1) <= |m| <= 16 * n
            && (Complete(m) <==> |m| == 16 * n) && m[..16 * (n - 1)] == Padded(m)[..16 * (n - 1)]
  {
  }

  /** A formatted message: the message's own whole blocks but the last, and a masked last block. */
  lemma FormattedParts(m: bytes, k1: bytes, k2: bytes)
    requires |k1| == |k2| == BLOCK_SIZE
    ensures var start := 16 * (BlockCount(|m|) - 1);
            && |Padded(m)| == start + 16 && start <= |m| <= start + 16
            && Formatted(m, k1, k2) == m[..start] + Xor(Padded(m)[start..], if Complete(m) then k1 else k2)
  {
    PaddedLength(m);
  }

  class AesCmac {
    const aes: BlockFunction
    const zeroBlock: array<byte> // ZERO_BLOCK: shared by every call

    ghost predicate Valid()
      reads zeroBlock
    {
      IsBlockFunction(aes) && zeroBlock[..] == Zeros(16)
    }

    constructor (aes: BlockFunction)
      requires IsBlockFunction(aes)
      ensures Valid() && this.aes == aes && fresh(zeroBlock)
    {
      this.aes := aes;
      zeroBlock := new byte[16](_ => 0);
      new;
      assert zeroBlock[..] == Zeros(16);
    }

    method AesEcbEncryptBlock(key: array<byte>, block: array<byte>) returns (out: array<byte>)
      requires Valid() && block.Length == 16
      ensures fresh(out) && out[..] == aes(key[..], block[..])
    {
      var encrypted := aes(key[..], block[..]);
      out := new byte[16](i requires 0 <= i < 16 => encrypted[i]);
      assert out[..] == encrypted;
    }

    /** One subkey step, in place on a fresh buffer. */
    method NextSubkey(block: array<byte>) returns (k: array<byte>)
      requires block.Length == 16
      ensures fresh(k) && k[..] == Subkey(block[..])
    {
      k := LeftShiftOneBit(block);
      assert |Shifted(block[..])| == 16;
      ghost var shifted := k[..];
      if block[0] >= 0x80 { // L[0] & 0x80
        k[15] := XorByte(k[15], RB);
        XorWithZero(shifted);
        assert k[..] == Xor(shifted, R128);
      }
    }

    lemma XorWithZero(s: bytes)
      requires |s| == 16
      ensures Xor(s, R128) == s[15 := XorByte(s[15], RB)]
    {
      forall i | 0 <= i < 15
        ensures XorByte(s[i], R128[i]) == s[i]
      {
        assert Pow2(8) == 256;
        XorLowZero(s[i], 8);
      }
    }

    lemma {:induction false} XorLowZero(a: nat, n: nat)
      requires a < Pow2(n)
      ensures XorLow(a, 0, n) == a
    {
      if n > 0 {
        XorLowZero(a / 2, n - 1);
      }
    }

    method DeriveSubkeys(key: array<byte>) returns (k1: array<byte>, k2: array<byte>)
      requires Valid()
      ensures fresh(k1) && fresh(k2)
      ensures k1[..] == Subkey(aes(key[..], Zeros(16)))
      ensures k2[..] == Subkey(k1[..])
    {
      var l := AesEcbEncryptBlock(key, zeroBlock);
      k1 := NextSubkey(l);
      k2 := NextSubkey(k1);
    }

    /** The last block before its mask: the tail of the padded message. */
    method PaddedTail(data: array<byte>, start: nat) returns (last: array<byte>)
      requires start <= data.Length <= start + 16 && |Padded(data[..])| == start + 16
      ensures fresh(last) && last[..] == Padded(data[..])[start..]
    {
      last := new byte[16](_ => 0);
      if data.Length > 0 && data.Length % 16 == 0 {
        Copy(data, last, start, data.Length);
      } else {
        var remainder := data.Length - start;
        if remainder > 0 {
          Copy(data, last, start, data.Length);
        }
        last[remainder] := 0x80;
      }
    }

    method LastBlock(data: array<byte>, start: nat, k1: array<byte>, k2: array<byte>) returns (last: array<byte>)
      requires k1.Length == k2.Length == 16
      requires start <= data.Length <= start + 16 && |Padded(data[..])| == start + 16
      ensures fresh(last) && last.Length == 16
      ensures last[..] == Xor(Padded(data[..])[start..], if Complete(data[..]) then k1[..] else k2[..])
    {
      last := PaddedTail(data, start);
      if data.Length > 0 && data.Length % 16 == 0 {
        XorInto(last, k1);
      } else {
        XorInto(last, k2);
      }
    }

    /** The loop over the blocks before the last; `xored` is its one scratch buffer. */
    method ChainBlocks(key: array<byte>, data: array<byte>, n: nat, xored: array<byte>) returns (x: array<byte>)
      requires Valid() && 16 * n <= data.Length && xored.Length == 16
      requires xored != zeroBlock && xored != data && xored != key
      modifies xored
      ensures x != xored && x.Length == 16
      ensures x[..] == Cbc(aes, key[..], Zeros(16), data[..16 * n])
    {
      x := zeroBlock;
      for i := 0 to n
        invariant x != xored && x.Length == 16
        invariant x[..] == Cbc(aes, key[..], Zeros(16), data[..16 * i])
      {
        XorBlock(xored, x, data, 16 * i);
        CbcJoins(aes, key[..], Zeros(16), data[..16 * i], i, data[16 * i..16 * i + 16]);
        assert data[..16 * (i + 1)] == data[..16 * i] + data[16 * i..16 * i + 16];
        CbcOneBlock(aes, key[..], x[..], data[16 * i..16 * i + 16]);
        x := AesEcbEncryptBlock(key, xored);
      }
    }

    /**
     aesCmac: throws on a key that is not sixteen bytes, and otherwise returns the MAC.  It
     modifies nothing that existed before the call, the shared zero block included.
     */
    method AesCmac(key: array<byte>, data: array<byte>) returns (r: Result<array<byte>, string>)
      requires Valid()
      ensures r.Err? <==> key.Length != 16
      ensures r.Ok? ==> r.value[..] == Cmac.Cmac(aes, key[..], data[..])
    {
      if key.Length != 16 {
        return Err("AES-128-CMAC requires a 16-byte key");
      }
      var k1, k2 := DeriveSubkeys(key);
      var n := BlockCount(data.Length);
      FormattedParts(data[..], k1[..], k2[..]);
      var last := LastBlock(data, 16 * (n - 1), k1, k2);
      assert data[..][..16 * (n - 1)] == data[..16 * (n - 1)];
      var xored := new byte[16](_ => 0);
      var x := ChainBlocks(key, data, n - 1, xored);
      CbcJoins(aes, key[..], Zeros(16), data[..16 * (n - 1)], n - 1, last[..]);
      var mac := LastStep(key, x, last, xored);
      return Ok(mac);
    }

    /** The chain's step over the last block. */
    method LastStep(key: array<byte>, x: array<byte>, last: array<byte>, xored: array<byte>) returns (mac: array<byte>)
      requires Valid() && x.Length == last.Length == xored.Length == 16
      requires xored != x && xored != last && xored != key && xored != zeroBlock
      modifies xored
      ensures fresh(mac) && mac[..] == Cbc(aes, key[..], x[..], last[..])
    {
      XorBlock(xored, x, last, 0);
      assert last[0..16] == last[..];
      CbcOneBlock(aes, key[..], x[..], last[..]);
      mac := AesEcbEncryptBlock(key, xored);
    }

    /** for j < 16: xored[j] = x[j] ^ data[from + j] */
    method XorBlock(xored: array<byte>, x: array<byte>, data: array<byte>, from: nat)
      requires xored.Length == x.Length == 16 && from + 16 <= data.Length && xored != x && xored != data
      modifies xored
      ensures xored[..] == Xor(x[..], data[from..from + 16])
    {
      for j := 0 to 16
        invariant forall i | 0 <= i < j :: xored[i] == XorByte(x[i], data[from + i])
      {
        xored[j] := XorByte(x[j], data[from + j]);
      }
    }
  }
}
