/**
 Disk blocks, and the 32-bit little-endian words the kernel overlays on them
 (the log header and the indirect block are both arrays of `uint`).
 */
module Blocks {

  import opened Basics

  const BSIZE: nat := 1024
  const WORDS: nat := BSIZE / 4
  const U32_LIMIT: nat := 0x1_0000_0000

  datatype Bytes = Bytes(bytes: seq<byte>)
  type Block = b: Bytes | |b.bytes| == BSIZE witness Bytes(seq(BSIZE, _ => 0))
  type Disk = seq<Block>

  function ZeroBlock(): (b: Block)
    ensures forall k :: 0 <= k < BSIZE ==> b.bytes[k] == 0
  {
    Bytes(seq(BSIZE, _ => 0))
  }

  /** The j-th 32-bit word of a block. */
  function Word(b: Block, j: nat): (v: nat)
    requires j < WORDS
    ensures v < U32_LIMIT
  {
    var b0: int, b1: int, b2: int, b3: int := b.bytes[4 * j], b.bytes[4 * j + 1], b.bytes[4 * j + 2],
      b.bytes[4 * j + 3];
    b0 + 0x100 * b1 + 0x1_0000 * b2 + 0x100_0000 * b3
  }

  /** Stores v as the j-th 32-bit word of a block. */
  function PutWord(b: Block, j: nat, v: nat): (r: Block)
    requires j < WORDS && v < U32_LIMIT
  {
    Bytes(b.bytes[4 * j := v % 0x100]
                 [4 * j + 1 := v / 0x100 % 0x100]
                 [4 * j + 2 := v / 0x1_0000 % 0x100]
                 [4 * j + 3 := v / 0x100_0000])
  }

  lemma WordSplit(v: nat)
    requires v < U32_LIMIT
    ensures v % 0x100 + 0x100 * (v / 0x100 % 0x100) + 0x1_0000 * (v / 0x1_0000 % 0x100)
            + 0x100_0000 * (v / 0x100_0000) == v
  {
  }

  /** A stored word reads back, and no other word of the block changes. */
  lemma WordOfPut(b: Block, j: nat, v: nat, k: nat)
    requires j < WORDS && v < U32_LIMIT && k < WORDS
    ensures Word(PutWord(b, j, v), k) == if k == j then v else Word(b, k)
  {
    if k == j {
      WordSplit(v);
      var r := PutWord(b, j, v).bytes;
      assert r[4 * j] == v % 0x100;
      assert r[4 * j + 1] == v / 0x100 % 0x100;
      assert r[4 * j + 2] == v / 0x1_0000 % 0x100;
      assert r[4 * j + 3] == v / 0x100_0000;
    }
  }

  /** The bytes of a word are in the block from the least significant on. */
  lemma {:induction false} LittleEndian(b: Block, j: nat)
    requires j < WORDS
    ensures var w := Word(b, j);
      && w % 0x100 == b.bytes[4 * j] && w / 0x100 % 0x100 == b.bytes[4 * j + 1]
      && w / 0x1_0000 % 0x100 == b.bytes[4 * j + 2] && w / 0x100_0000 == b.bytes[4 * j + 3]
  {
    var b0: int, b1: int, b2: int, b3: int := b.bytes[4 * j], b.bytes[4 * j + 1], b.bytes[4 * j + 2],
      b.bytes[4 * j + 3];
    var w := Word(b, j);
    assert w / 0x100 == b1 + 0x100 * b2 + 0x1_0000 * b3;
    assert w / 0x1_0000 == b2 + 0x100 * b3;
  }
}
