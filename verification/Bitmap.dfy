/**
 The free-block bitmap of the file system (kernel/fs.c): one bit per block of the
 disk, BPB bits to a block, in the blocks from bmapstart on.
 */
module Bitmap {
  import opened Basics
  import opened Blocks

  const BPB: nat := BSIZE * 8

  /** The superblock's numbers; blocks below datastart hold the log, the inodes and the bitmap. */
  datatype Geometry = Geometry(size: nat, inodestart: nat, bmapstart: nat, datastart: nat, ninodes: nat) {
    ghost predicate Valid() {
      && 0 < bmapstart && bmapstart + size / BPB < datastart <= size < U32_LIMIT
      && inodestart + ninodes / IPB < bmapstart
    }

    /** The bitmap block with the bit of block b. */
    function BBlock(b: nat): nat {
      b / BPB + bmapstart
    }

    predicate IsBitmap(n: nat) {
      bmapstart <= n <= bmapstart + size / BPB
    }

    /** The block with the inode inum. */
    function IBlock(inum: nat): nat {
      inum / IPB + inodestart
    }
  }

  const IPB: nat := BSIZE / 64

  // ---------------------------------------------------------------- bits of a number

  function Pow2(n: nat): (p: nat)
    ensures p >= 1
  {
    if n == 0 then 1 else 2 * Pow2(n - 1)
  }

  /** (x & (1 << k)) != 0 */
  predicate TestBit(x: nat, k: nat) {
    if k == 0 then x % 2 == 1 else TestBit(x / 2, k - 1)
  }

  /** x | (1 << k) if on, else x & ~(1 << k) */
  function PutBit(x: nat, k: nat, on: bool): (r: nat) {
    if k == 0 then x / 2 * 2 + (if on then 1 else 0) else x % 2 + 2 * PutBit(x / 2, k - 1, on)
  }

  lemma {:induction false} TestOfPut(x: nat, k: nat, on: bool, j: nat)
    ensures TestBit(PutBit(x, k, on), j) == if j == k then on else TestBit(x, j)
    decreases k
  {
    var r := PutBit(x, k, on);
    if k == 0 {
      assert r / 2 == x / 2;
    } else {
      assert r / 2 == PutBit(x / 2, k - 1, on) && r % 2 == x % 2;
      if j > 0 { TestOfPut(x / 2, k - 1, on, j - 1); }
    }
  }

  lemma {:induction false} PutBitFits(x: nat, k: nat, on: bool, n: nat)
    requires k < n && x < Pow2(n)
    ensures PutBit(x, k, on) < Pow2(n)
    decreases k
  {
    if k > 0 {
      assert x / 2 < Pow2(n - 1);
      PutBitFits(x / 2, k - 1, on, n - 1);
      assert PutBit(x, k, on) <= 1 + 2 * (Pow2(n - 1) - 1);
    }
  }

  lemma {:induction false} ByteHasEightBits()
    ensures Pow2(8) == 256
  {
    assert Pow2(4) == 2 * Pow2(3) == 4 * Pow2(2) == 8 * Pow2(1) == 16;
    assert Pow2(8) == 2 * Pow2(7) == 4 * Pow2(6) == 8 * Pow2(5) == 16 * Pow2(4);
  }

  function PutByteBit(x: byte, k: nat, on: bool): (r: byte)
    requires k < 8
  {
    ByteHasEightBits();
    PutBitFits(x, k, on, 8);
    PutBit(x, k, on)
  }

  // ---------------------------------------------------------------- the bitmap on the disk

  /** The byte, within its bitmap block, with the bit of block b. */
  function ByteOf(b: nat): (k: nat)
    ensures k < BSIZE
  {
    b % BPB / 8
  }

  /** Is block b marked in use? */
  predicate InUse(g: Geometry, blocks: Disk, b: nat)
    requires g.BBlock(b) < |blocks|
  {
    TestBit(blocks[g.BBlock(b)].bytes[ByteOf(b)], b % 8)
  }

  function PutBlockBit(blk: Block, b: nat, on: bool): (r: Block) {
    Bytes(blk.bytes[ByteOf(b) := PutByteBit(blk.bytes[ByteOf(b)], b % 8, on)])
  }

  /** The disk with block b marked in use, or free. */
  function Marked(g: Geometry, blocks: Disk, b: nat, on: bool): (r: Disk)
    requires g.BBlock(b) < |blocks|
    ensures |r| == |blocks|
    ensures forall n :: 0 <= n < |blocks| && n != g.BBlock(b) ==> r[n] == blocks[n]
  {
    blocks[g.BBlock(b) := PutBlockBit(blocks[g.BBlock(b)], b, on)]
  }

  /** Marking a block changes its own bit and no other. */
  lemma {:induction false} InUseOfMarked(g: Geometry, blocks: Disk, b: nat, on: bool, c: nat)
    requires g.BBlock(b) < |blocks| && g.BBlock(c) < |blocks|
    ensures InUse(g, Marked(g, blocks, b, on), c) == if c == b then on else InUse(g, blocks, c)
  {
    if g.BBlock(b) == g.BBlock(c) && ByteOf(b) == ByteOf(c) {
      TestOfPut(blocks[g.BBlock(b)].bytes[ByteOf(b)], b % 8, on, c % 8);
      if b % 8 == c % 8 { SameBit(b, c); }
    }
  }

  lemma {:induction false} SameBit(b: nat, c: nat)
    requires b / BPB == c / BPB && ByteOf(b) == ByteOf(c) && b % 8 == c % 8
    ensures b == c
  {
    assert b % BPB % 8 == b % 8 && c % BPB % 8 == c % 8;
  }

  lemma {:induction false} SmallPowers(k: nat)
    requires k < 8
    ensures Pow2(k) == [1, 2, 4, 8, 16, 32, 64, 128][k]
  {
    if k > 0 { SmallPowers(k - 1); }
  }

  lemma {:induction false} HalvesThen(x: nat, p: nat)
    requires p in {1, 2, 4, 8, 16, 32, 64}
    ensures x / (2 * p) == x / 2 / p
  {
    if p == 1 { assert x / 2 / 1 == x / 2; }
    else if p == 2 { assert x / 4 == x / 2 / 2; }
    else if p == 4 { assert x / 8 == x / 2 / 4; }
    else if p == 8 { assert x / 16 == x / 2 / 8; }
    else if p == 16 { assert x / 32 == x / 2 / 16; }
    else if p == 32 { assert x / 64 == x / 2 / 32; }
    else { assert x / 128 == x / 2 / 64; }
  }

  lemma {:induction false} BitOfNumber(x: nat, k: nat)
    requires k < 8
    ensures TestBit(x, k) <==> x / Pow2(k) % 2 == 1
  {
    if k > 0 {
      BitOfNumber(x / 2, k - 1);
      SmallPowers(k - 1);
      HalvesThen(x, Pow2(k - 1));
    } else {
      assert x / 1 == x;
    }
  }

  /** The mark of a block is bit b % 8, from the least significant, of byte b / 8 of the bitmap. */
  lemma {:induction false} WhereTheBitIs(g: Geometry, blocks: Disk, b: nat)
    requires g.BBlock(b) < |blocks|
    ensures InUse(g, blocks, b) <==> blocks[g.bmapstart + b / 8192].bytes[b % 8192 / 8] / Pow2(b % 8) % 2 == 1
  {
    BitOfNumber(blocks[g.BBlock(b)].bytes[ByteOf(b)], b % 8);
  }
}
