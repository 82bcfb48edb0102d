/** SHA-1 of include/Crow/include/crow/TinySHA1.hpp against FIPS 180-4: the round
    functions in their other form, the block kept in place, and messages fed in pieces. */
module Sha1 {

  type Octet = x: int | 0 <= x < 256

  type Octets = seq<Octet>

  // ----- the standard (sections 4.1.1, 5.1.1 and 6.1.2 of FIPS 180-4) ------------------

  datatype Words = Words(a: bv32, b: bv32, c: bv32, d: bv32, e: bv32)

  const H0 := Words(0x67452301, 0xEFCDAB89, 0x98BADCFE, 0x10325476, 0xC3D2E1F0)

  function Rotl1(x: bv32): bv32 { (x << 1) | (x >> 31) }

  function Rotl5(x: bv32): bv32 { (x << 5) | (x >> 27) }

  function Rotl30(x: bv32): bv32 { (x << 30) | (x >> 2) }

  function Ch(x: bv32, y: bv32, z: bv32): bv32 { (x & y) ^ (!x & z) }

  function Parity(x: bv32, y: bv32, z: bv32): bv32 { x ^ y ^ z }

  function Maj(x: bv32, y: bv32, z: bv32): bv32 { (x & y) ^ (x & z) ^ (y & z) }

  function F(t: nat, x: bv32, y: bv32, z: bv32): bv32 {
    if t < 20 then Ch(x, y, z) else if t < 40 then Parity(x, y, z) else if t < 60 then Maj(x, y, z) else Parity(x, y, z)
  }

  function K(t: nat): bv32 {
    if t < 20 then 0x5A827999 else if t < 40 then 0x6ED9EBA1 else if t < 60 then 0x8F1BBCDC else 0xCA62C1D6
  }

  /** Four octets, the first one highest. */
  function Word(b0: Octet, b1: Octet, b2: Octet, b3: Octet): bv32 {
    ((b0 as bv32) << 24) | ((b1 as bv32) << 16) | ((b2 as bv32) << 8) | (b3 as bv32)
  }

  /** The message schedule. */
  function W(block: Octets, t: nat): bv32
    requires |block| == 64
  {
    if t < 16 then Word(block[4 * t], block[4 * t + 1], block[4 * t + 2], block[4 * t + 3])
    else Mix(W(block, t - 3), W(block, t - 8), W(block, t - 14), W(block, t - 16))
  }

  function Mix(w: bv32, x: bv32, y: bv32, z: bv32): bv32 { Rotl1(w ^ x ^ y ^ z) }

  /** Addition modulo 2^32. */
  function Sum(v: bv32, w: bv32, x: bv32, y: bv32, z: bv32): bv32 { v + w + x + y + z }

  function AddWords(h: Words, s: Words): Words { Words(h.a + s.a, h.b + s.b, h.c + s.c, h.d + s.d, h.e + s.e) }

  /** One round. */
  function Round(s: Words, t: nat, w: bv32): Words {
    Words(Sum(Rotl5(s.a), F(t, s.b, s.c, s.d), s.e, K(t), w), s.a, Rotl30(s.b), s.c, s.d)
  }

  function Rounds(h: Words, block: Octets, t: nat): Words
    requires |block| == 64
  {
    if t == 0 then h else Round(Rounds(h, block, t - 1), t - 1, W(block, t - 1))
  }

  function Compress(h: Words, block: Octets): Words
    requires |block| == 64
  {
    AddWords(h, Rounds(h, block, 80))
  }

  /** The hash of the first `n` blocks. */
  function HashBlocks(m: Octets, n: nat): Words
    requires 64 * n <= |m|
  {
    if n == 0 then H0 else Compress(HashBlocks(m, n - 1), m[64 * (n - 1)..64 * n])
  }

  function Zeros(n: nat): Octets { seq(n, i => 0) }

  function Low(n: nat): Octet { n % 256 }

  /** A number in four octets, the highest first. */
  function Four(n: nat): Octets { [Low(n / 0x1000000), Low(n / 0x10000), Low(n / 0x100), Low(n)] }

  /** The fewest zeros after the bit 1 that leave room for the length in the last block. */
  function ZeroCount(n: nat): nat { if n % 64 < 56 then 55 - n % 64 else 119 - n % 64 }

  /** The padded message, but for its length. */
  function Filled(m: Octets): Octets { m + [0x80] + Zeros(ZeroCount(|m|)) }

  /** The padded message. */
  function Padded(m: Octets): Octets { Filled(m) + Four(8 * |m| / 0x1_0000_0000) + Four(8 * |m|) }

  function BlockCount(n: nat): nat { if n % 64 < 56 then n / 64 + 1 else n / 64 + 2 }

  lemma FilledLength(m: Octets)
    ensures |Filled(m)| == 64 * BlockCount(|m|) - 8
  {
    var q, r := |m| / 64, |m| % 64;
    assert |m| == 64 * q + r;
  }

  /** The digest of the standard. */
  function Digest(m: Octets): Words {
    FilledLength(m);
    HashBlocks(Padded(m), BlockCount(|m|))
  }

  // ----- the other forms ----------------------------------------------------------------

  lemma ChIsOr(x: bv32, y: bv32, z: bv32)
    ensures Ch(x, y, z) == (x & y) | (!x & z)
  {
  }

  lemma MajIsOr(x: bv32, y: bv32, z: bv32)
    ensures Maj(x, y, z) == (x & y) | (x & z) | (y & z)
  {
  }

  /** `LeftRotate` puts its halves together with an exclusive or. */
  lemma RotateIsXor(x: bv32)
    ensures Rotl1(x) == (x << 1) ^ (x >> 31) && Rotl5(x) == (x << 5) ^ (x >> 27) && Rotl30(x) == (x << 30) ^ (x >> 2)
  {
  }

  lemma {:induction false} HashBlocksFront(m: Octets, rest: Octets, n: nat)
    requires 64 * n <= |m|
    ensures HashBlocks(m + rest, n) == HashBlocks(m, n)
    decreases n
  {
    hide Compress;
    if n > 0 {
      HashBlocksFront(m, rest, n - 1);
      assert (m + rest)[64 * (n - 1)..64 * n] == m[64 * (n - 1)..64 * n];
    }
  }

  // ----- the object -------------------------------------------------------------------------

  /** `sha1::SHA1`; `fed` are the octets processed since the last reset. */
  class SHA1 {
    var digest: Words
    const block: array<Octet>
    var blockByteIndex: nat
    var byteCount: nat
    ghost var fed: Octets
    ghost var blocks: nat

    ghost predicate Valid()
      reads this, block
    {
      && block.Length == 64 && blockByteIndex < 64 && byteCount == |fed| == 64 * blocks + blockByteIndex
      && digest == HashBlocks(fed, blocks) && block[..blockByteIndex] == fed[64 * blocks..]
    }

    constructor ()
      ensures Valid() && fresh(block) && fed == []
    {
      digest, blockByteIndex, byteCount, fed, blocks := H0, 0, 0, [], 0;
      block := new Octet[64](_ => 0);
    }

    /** `processBlock`: the schedule, and the rounds with the round functions in their
        form with an inclusive or. */
    method ProcessBlock()
      requires block.Length == 64
      modifies this`digest
      ensures digest == Compress(old(digest), block[..])
    {
      hide Rounds, Round, W, AddWords;
      ghost var m := block[..];
      var w := Schedule();
      var s := digest;
      NoRounds(digest, m);
      for i := 0 to 80
        invariant digest == old(digest) && s == Rounds(digest, m, i)
      {
        RoundsStep(digest, m, i);
        s := CodeRound(s, i, w[i]);
      }
      digest := AddWords(digest, s);
    }

    method Schedule() returns (w: seq<bv32>)
      requires block.Length == 64
      ensures |w| == 80 && forall j :: 0 <= j < 80 ==> w[j] == W(block[..], j)
    {
      hide Word, Mix, W;
      ghost var m := block[..];
      w := [];
      for i := 0 to 16
        invariant |w| == i && forall j :: 0 <= j < i ==> w[j] == W(m, j)
      {
        WordStep(m, i);
        w := w + [Word(block[4 * i], block[4 * i + 1], block[4 * i + 2], block[4 * i + 3])];
      }
      for i := 16 to 80
        invariant |w| == i && forall j :: 0 <= j < i ==> w[j] == W(m, j)
      {
        ScheduleStep(m, i);
        w := w + [Mix(w[i - 3], w[i - 8], w[i - 14], w[i - 16])];
      }
    }

    /** The body of the loop over the rounds. */
    method CodeRound(s: Words, i: nat, w: bv32) returns (r: Words)
      requires i < 80
      ensures r == Round(s, i, w)
    {
      hide Rotl5, Rotl30, Sum, F;
      var b, c, d := s.b, s.c, s.d;
      var f: bv32, k: bv32 := 0, 0;
      OrForm(i, b, c, d);
      if i < 20 {
        f, k := (b & c) | (!b & d), 0x5A827999;
      } else if i < 40 {
        f, k := b ^ c ^ d, 0x6ED9EBA1;
      } else if i < 60 {
        f, k := (b & c) | (b & d) | (c & d), 0x8F1BBCDC;
      } else {
        f, k := b ^ c ^ d, 0xCA62C1D6;
      }
      var temp := Sum(Rotl5(s.a), f, s.e, k, w);
      r := Words(temp, s.a, Rotl30(b), c, d);
    }

    /** `processByte`. */
    method ProcessByte(octet: Octet)
      requires Valid()
      modifies this, block
      ensures Valid() && fed == old(fed) + [octet]
      ensures blockByteIndex == if old(blockByteIndex) == 63 then 0 else old(blockByteIndex) + 1
      ensures blocks == if old(blockByteIndex) == 63 then old(blocks) + 1 else old(blocks)
    {
      hide HashBlocks, Compress;
      HashBlocksFront(fed, [octet], blocks);
      block[blockByteIndex] := octet;
      blockByteIndex := blockByteIndex + 1;
      byteCount := byteCount + 1;
      fed := fed + [octet];
      assert block[..blockByteIndex] == fed[64 * blocks..];
      if blockByteIndex == 64 {
        blockByteIndex := 0;
        ProcessBlock();
        BlockHashed(fed, blocks, block[..]);
        blocks := blocks + 1;
      }
    }

    /** `processBytes`. */
    method ProcessBytes(data: Octets)
      requires Valid()
      modifies this, block
      ensures Valid() && fed == old(fed) + data
    {
      for i := 0 to |data|
        invariant Valid() && fed == old(fed) + data[..i]
      {
        ProcessByte(data[i]);
        assert data[..i + 1] == data[..i] + [data[i]];
      }
      assert data[..|data|] == data;
    }

    /** Zeros until the block is filled to `n` octets. */
    method FillTo(n: nat) returns (ghost count: nat)
      requires Valid() && blockByteIndex <= n < 64
      modifies this, block
      ensures Valid() && blockByteIndex == n && fed == old(fed) + Zeros(count) && blocks == old(blocks)
      ensures count == n - old(blockByteIndex)
    {
      count := 0;
      assert fed + Zeros(0) == fed;
      while blockByteIndex < n
        invariant Valid() && blockByteIndex <= n && blocks == old(blocks)
        invariant fed == old(fed) + Zeros(count) && count == blockByteIndex - old(blockByteIndex)
        decreases n - blockByteIndex
      {
        ProcessByte(0);
        assert Zeros(count + 1) == Zeros(count) + [0];
        count := count + 1;
      }
    }

    /** `getDigest`. */
    method GetDigest() returns (r: Words)
      requires Valid()
      modifies this, block
      ensures r == CodeDigest(old(fed))
    {
      hide HashBlocks, Filled;
      ghost var m := fed;
      var bitCount := byteCount * 8;
      Fill();
      FilledLength(m);
      ProcessBytes([0, 0, 0, 0]);
      ProcessBytes(Four(bitCount));
      SameBlock(BlockCount(|m|), 0, blocks, blockByteIndex);
      assert fed == CodePadded(m);
      r := digest;
    }

    /** The bit 1 and the zeros. */
    method Fill()
      requires Valid()
      modifies this, block
      ensures Valid() && fed == Filled(old(fed))
    {
      hide HashBlocks, Zeros;
      ghost var m := fed;
      Quotient(|m|, blocks, blockByteIndex);
      ProcessByte(0x80);
      ghost var zeros := 0;
      if blockByteIndex > 56 {
        zeros := FinishBlock();
        ghost var more := FillTo(56);
        ZerosJoin(m + [0x80], zeros, more);
        zeros := zeros + more;
      } else {
        zeros := FillTo(56);
      }
    }

    /** Zeros up to the end of the block. */
    method FinishBlock() returns (ghost count: nat)
      requires Valid()
      modifies this, block
      ensures Valid() && blockByteIndex == 0 && fed == old(fed) + Zeros(count)
      ensures count == if old(blockByteIndex) == 0 then 0 else 64 - old(blockByteIndex)
      ensures blocks == if old(blockByteIndex) == 0 then old(blocks) else old(blocks) + 1
    {
      count := 0;
      assert fed + Zeros(0) == fed;
      if blockByteIndex != 0 {
        count := FillTo(63);
        ProcessByte(0);
        assert Zeros(count + 1) == Zeros(count) + [0];
        count := count + 1;
      }
    }
  }

  lemma ZerosJoin(m: Octets, x: nat, y: nat)
    ensures m + Zeros(x) + Zeros(y) == m + Zeros(x + y)
  {
  }

  lemma Quotient(n: nat, k: nat, j: nat)
    requires n == 64 * k + j && j < 64
    ensures n / 64 == k && n % 64 == j
  {
  }

  // ----- the theorem ---------------------------------------------------------------------------

  /** What `getDigest` appends: the length has only its low four octets. */
  function CodePadded(m: Octets): Octets { Filled(m) + [0, 0, 0, 0] + Four(8 * |m|) }

  function CodeDigest(m: Octets): Words {
    FilledLength(m);
    HashBlocks(CodePadded(m), BlockCount(|m|))
  }

  lemma FourIsZero(n: nat)
    requires n < 0x1_0000_0000
    ensures Four(n) == [0, 0, 0, 0] <==> n == 0
  {
    var x3, x2, x1, x0 := n / 0x1000000, n / 0x10000 % 256, n / 0x100 % 256, n % 256;
    assert n == x3 * 0x1000000 + x2 * 0x10000 + x1 * 0x100 + x0;
  }

  /** Fed in any pieces, a message has the digest of the standard; its padding is the
      standard's exactly when it is shorter than 2^29 octets, longer lengths being cut to
      32 bits. */
  lemma PaddingIsStandard(m: Octets)
    requires |m| < 0x2000_0000_0000_0000
    ensures CodePadded(m) == Padded(m) <==> |m| < 0x2000_0000
    ensures |m| < 0x2000_0000 ==> CodeDigest(m) == Digest(m)
  {
    hide Four, HashBlocks;
    var high := 8 * |m| / 0x1_0000_0000;
    assert high == 0 <==> |m| < 0x2000_0000;
    FourIsZero(high);
    var f, n := Filled(m), |Filled(m)|;
    FourLength(high);
    assert CodePadded(m)[n..n + 4] == [0, 0, 0, 0] && Padded(m)[n..n + 4] == Four(high);
  }

  lemma FourLength(n: nat)
    ensures |Four(n)| == 4
  {
  }

  lemma SameBlock(k: nat, i: nat, k': nat, i': nat)
    requires 64 * k + i == 64 * k' + i' && i < 64 && i' < 64
    ensures k == k' && i == i'
  {
  }

  lemma BlockHashed(m: Octets, n: nat, block: Octets)
    requires |m| == 64 * n + 64 && block == m[64 * n..] && |block| == 64
    ensures HashBlocks(m, n + 1) == Compress(HashBlocks(m, n), block)
  {
    hide Compress;
    assert m[64 * n..64 * (n + 1)] == block;
  }

  /** The round functions as the code writes them. */
  lemma OrForm(i: nat, b: bv32, c: bv32, d: bv32)
    ensures F(i, b, c, d)
      == if i < 20 then (b & c) | (!b & d)
         else if i < 40 then b ^ c ^ d
         else if i < 60 then (b & c) | (b & d) | (c & d)
         else b ^ c ^ d
  {
    ChIsOr(b, c, d);
    MajIsOr(b, c, d);
    hide Ch, Maj;
  }

  lemma WordStep(m: Octets, i: nat)
    requires |m| == 64 && i < 16
    ensures W(m, i) == Word(m[4 * i], m[4 * i + 1], m[4 * i + 2], m[4 * i + 3])
  {
    hide Word;
  }

  lemma ScheduleStep(m: Octets, i: nat)
    requires |m| == 64 && i >= 16
    ensures W(m, i) == Mix(W(m, i - 3), W(m, i - 8), W(m, i - 14), W(m, i - 16))
  {
    hide Mix, Word;
  }

  lemma NoRounds(h: Words, m: Octets)
    requires |m| == 64
    ensures Rounds(h, m, 0) == h
  {
  }

  lemma RoundsStep(h: Words, m: Octets, i: nat)
    requires |m| == 64
    ensures Rounds(h, m, i + 1) == Round(Rounds(h, m, i), i, W(m, i))
  {
    hide Round, W;
  }
}
