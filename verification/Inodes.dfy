/**
 Inodes and their blocks (kernel/fs.c, kernel/fs.h): which disk block each slot of
 an inode names, who owns a block, and what a file's contents are.

 Slots 0..NDIRECT-1 of an inode are its direct blocks, slot NDIRECT is the indirect
 block itself, and slot NDIRECT+1+k is entry k of the indirect block.
 */
module Inodes {
  import opened Blocks
  import opened Bitmap

  const NDIRECT: nat := 12
  const NINDIRECT: nat := WORDS
  const MAXFILE: nat := NDIRECT + NINDIRECT
  const MAXSIZE: nat := (12 + 256) * 1024    // MAXFILE blocks, in bytes
  const SLOTS: nat := NDIRECT + 1 + NINDIRECT

  datatype Inode = Inode(typ: nat, nlink: nat, size: nat, addrs: seq<nat>)

  datatype FS = FS(blocks: Disk, inodes: seq<Inode>)

  datatype Slot = Slot(inum: nat, idx: nat)

  ghost predicate Shaped(g: Geometry, fs: FS) {
    && g.Valid() && |fs.blocks| == g.size && |fs.inodes| == g.ninodes
    && forall i {:trigger fs.inodes[i]} :: 0 <= i < |fs.inodes| ==> |fs.inodes[i].addrs| == NDIRECT + 1
  }

  /** The block a slot names; 0 is none. */
  ghost function Addr(fs: FS, i: nat, j: nat): (a: nat) {
    if i >= |fs.inodes| || j >= SLOTS || |fs.inodes[i].addrs| != NDIRECT + 1 then 0
    else if j <= NDIRECT then fs.inodes[i].addrs[j]
    else
      var ind := fs.inodes[i].addrs[NDIRECT];
      if ind == 0 || ind >= |fs.blocks| then 0 else Word(fs.blocks[ind], j - NDIRECT - 1)
  }

  /** The slot of the bn-th block of a file's contents. */
  function DataSlot(bn: nat): nat {
    if bn < NDIRECT then bn else bn + 1
  }

  /**
   A used slot names a data block marked in use, which nothing else names: owner is
   the inverse of Addr, and used the set of blocks the bitmap marks.
   */
  ghost predicate SlotOk(g: Geometry, fs: FS, owner: map<nat, Slot>, used: set<nat>, i: nat, j: nat) {
    var a := Addr(fs, i, j);
    a != 0 ==> g.datastart <= a < g.size && a in used && a in owner && owner[a] == Slot(i, j)
  }

  ghost predicate Owned(g: Geometry, fs: FS, owner: map<nat, Slot>, used: set<nat>) {
    && Shaped(g, fs)
    && forall i, j {:trigger SlotOk(g, fs, owner, used, i, j)} :: 0 <= i && 0 <= j ==> SlotOk(g, fs, owner, used, i, j)
  }

  /** Every block below the size is allocated. */
  ghost predicate SizeOk(fs: FS, i: nat)
    requires i < |fs.inodes|
  {
    && fs.inodes[i].size <= MAXSIZE
    && forall q {:trigger DataSlot(q)} :: 0 <= q && q * BSIZE < fs.inodes[i].size ==> Addr(fs, i, DataSlot(q)) != 0
  }

  /** used is the set of blocks the bitmap marks, the blocks before the data among them. */
  ghost predicate BitmapIs(g: Geometry, blocks: Disk, used: set<nat>) {
    && g.Valid() && |blocks| == g.size
    && (forall b :: 0 <= b < g.datastart ==> b in used)
    && forall b {:trigger BitOk(g, blocks, used, b)} :: 0 <= b < g.size ==> BitOk(g, blocks, used, b)
  }

  /** The file system's invariant. */
  ghost predicate Sound(g: Geometry, fs: FS, owner: map<nat, Slot>, used: set<nat>) {
    && Owned(g, fs, owner, used) && BitmapIs(g, fs.blocks, used)
    && forall i :: 0 <= i < |fs.inodes| ==> SizeOk(fs, i)
  }

  lemma {:induction false} BBlockBelowData(g: Geometry, b: nat)
    requires g.Valid() && b < g.size
    ensures 0 < g.BBlock(b) < g.datastart && g.IsBitmap(g.BBlock(b))
  {
    assert b / BPB <= g.size / BPB;
  }

  /** No block is in two slots. */
  lemma {:induction false} NoSharing(g: Geometry, fs: FS, owner: map<nat, Slot>, used: set<nat>, i: nat, j: nat,
                                     i': nat, j': nat)
    requires Owned(g, fs, owner, used) && Addr(fs, i, j) == Addr(fs, i', j') != 0
    ensures i == i' && j == j'
  {
    assert SlotOk(g, fs, owner, used, i, j) && SlotOk(g, fs, owner, used, i', j');
  }

  /** Slots depend on the inodes and on the indirect blocks only. */
  lemma {:induction false} AddrFrame(fs: FS, blocks: Disk, i: nat, j: nat)
    requires |blocks| == |fs.blocks|
    requires var ind := Addr(fs, i, NDIRECT); 0 < ind < |blocks| ==> blocks[ind] == fs.blocks[ind]
    ensures Addr(fs.(blocks := blocks), i, j) == Addr(fs, i, j)
  {
  }

  ghost predicate SameSlots(fs: FS, fs': FS) {
    forall i, j {:trigger Addr(fs', i, j)} :: 0 <= i && 0 <= j ==> Addr(fs', i, j) == Addr(fs, i, j)
  }

  /** Changing blocks that are not indirect blocks changes no slot. */
  lemma {:induction false} KeepSlots(g: Geometry, fs: FS, owner: map<nat, Slot>, used: set<nat>, blocks: Disk,
                                     used': set<nat>)
    requires Owned(g, fs, owner, used) && |blocks| == |fs.blocks| && used <= used'
    requires forall i :: 0 <= i < |fs.inodes| && Addr(fs, i, NDIRECT) != 0 && Addr(fs, i, NDIRECT) < |blocks|
               ==> blocks[Addr(fs, i, NDIRECT)] == fs.blocks[Addr(fs, i, NDIRECT)]
    ensures Owned(g, fs.(blocks := blocks), owner, used') && SameSlots(fs, fs.(blocks := blocks))
  {
    var fs' := fs.(blocks := blocks);
    forall i, j {:trigger Addr(fs', i, j)} | 0 <= i && 0 <= j ensures Addr(fs', i, j) == Addr(fs, i, j) {
      AddrFrame(fs, blocks, i, j);
    }
    forall i, j {:trigger SlotOk(g, fs', owner, used', i, j)} | 0 <= i && 0 <= j
      ensures SlotOk(g, fs', owner, used', i, j)
    {
      assert SlotOk(g, fs, owner, used, i, j);
      AddrFrame(fs, blocks, i, j);
    }
  }

  // ---------------------------------------------------------------- elementary updates

  /** The disk once balloc() has taken block b: marked and zeroed. */
  function Allocated(g: Geometry, blocks: Disk, b: nat): (r: Disk)
    requires g.BBlock(b) < |blocks| && b < |blocks|
    ensures |r| == |blocks|
  {
    Marked(g, blocks, b, true)[b := ZeroBlock()]
  }

  /** The bit of block b is as used says. */
  ghost predicate BitOk(g: Geometry, blocks: Disk, used: set<nat>, b: nat) {
    g.BBlock(b) < |blocks| && (InUse(g, blocks, b) <==> b in used)
  }

  lemma {:induction false} BitmapOfMarked(g: Geometry, blocks: Disk, used: set<nat>, b: nat, on: bool)
    requires BitmapIs(g, blocks, used) && g.datastart <= b < g.size
    ensures g.BBlock(b) < |blocks| && BitmapIs(g, Marked(g, blocks, b, on), if on then used + {b} else used - {b})
  {
    BBlockBelowData(g, b);
    var blocks', used' := Marked(g, blocks, b, on), if on then used + {b} else used - {b};
    forall c {:trigger BitOk(g, blocks', used', c)} | 0 <= c < g.size ensures BitOk(g, blocks', used', c) {
      assert BitOk(g, blocks, used, c);
      InUseOfMarked(g, blocks, b, on, c);
    }
  }

  /** The bitmap does not depend on data blocks. */
  lemma {:induction false} BitmapOfDataWrite(g: Geometry, blocks: Disk, used: set<nat>, b: nat, x: Block)
    requires BitmapIs(g, blocks, used) && g.datastart <= b < g.size
    ensures BitmapIs(g, blocks[b := x], used)
  {
    var blocks' := blocks[b := x];
    forall c {:trigger BitOk(g, blocks', used, c)} | 0 <= c < g.size ensures BitOk(g, blocks', used, c) {
      BBlockBelowData(g, c);
      assert BitOk(g, blocks, used, c);
    }
  }

  /** Allocating a free block changes no slot, and none names it. */
  lemma {:induction false} AllocKeeps(g: Geometry, fs: FS, owner: map<nat, Slot>, used: set<nat>, b: nat)
    requires Owned(g, fs, owner, used) && BitmapIs(g, fs.blocks, used) && b < g.size && b !in used
    ensures g.datastart <= b && g.BBlock(b) < |fs.blocks|
    ensures var fs' := fs.(blocks := Allocated(g, fs.blocks, b));
            Owned(g, fs', owner, used + {b}) && BitmapIs(g, fs'.blocks, used + {b}) && SameSlots(fs, fs')
    ensures Unnamed(fs, b)
  {
    BBlockBelowData(g, b);
    BitmapOfMarked(g, fs.blocks, used, b, true);
    BitmapOfDataWrite(g, Marked(g, fs.blocks, b, true), used + {b}, b, ZeroBlock());
    forall i | 0 <= i < |fs.inodes| && Addr(fs, i, NDIRECT) != 0
      ensures Addr(fs, i, NDIRECT) != b && Addr(fs, i, NDIRECT) != g.BBlock(b)
    {
      assert SlotOk(g, fs, owner, used, i, NDIRECT);
    }
    KeepSlots(g, fs, owner, used, Allocated(g, fs.blocks, b), used + {b});
    forall i, j {:trigger Addr(fs, i, j)} | 0 <= i && 0 <= j ensures Addr(fs, i, j) != b {
      assert SlotOk(g, fs, owner, used, i, j);
    }
  }

  ghost predicate Unnamed(fs: FS, b: nat) {
    forall i, j {:trigger Addr(fs, i, j)} :: 0 <= i && 0 <= j ==> Addr(fs, i, j) != b
  }

  /** fs' differs from fs in that slot j of inode i names b. */
  ghost predicate Linked(fs: FS, fs': FS, i: nat, j: nat, b: nat) {
    forall i', j' {:trigger Addr(fs', i', j')} :: 0 <= i' && 0 <= j' ==>
      Addr(fs', i', j') == if i' == i && j' == j then b else Addr(fs, i', j')
  }

  lemma {:induction false} LinkedIsOwned(g: Geometry, fs: FS, fs': FS, owner: map<nat, Slot>, used: set<nat>, i: nat,
                                         j: nat, b: nat)
    requires Owned(g, fs, owner, used) && Shaped(g, fs') && Linked(fs, fs', i, j, b)
    requires g.datastart <= b < g.size && b in used && Unnamed(fs, b)
    ensures Owned(g, fs', owner[b := Slot(i, j)], used)
  {
    var owner' := owner[b := Slot(i, j)];
    forall i', j' {:trigger SlotOk(g, fs', owner', used, i', j')} | 0 <= i' && 0 <= j'
      ensures SlotOk(g, fs', owner', used, i', j')
    {
      assert SlotOk(g, fs, owner, used, i', j');
      assert Addr(fs', i', j') == if i' == i && j' == j then b else Addr(fs, i', j');
    }
  }

  /** The file system with direct slot (or indirect block slot) j of inode i naming b. */
  function WithAddr(fs: FS, i: nat, j: nat, b: nat): (r: FS)
    requires i < |fs.inodes| && j < |fs.inodes[i].addrs|
  {
    fs.(inodes := fs.inodes[i := fs.inodes[i].(addrs := fs.inodes[i].addrs[j := b])])
  }

  lemma {:induction false} ZeroWords(k: nat)
    requires k < WORDS
    ensures Word(ZeroBlock(), k) == 0
  {
  }

  /** A zeroed block is put in an empty slot of the inode. */
  lemma {:induction false} LinkDirect(g: Geometry, fs: FS, i: nat, j: nat, b: nat)
    requires Shaped(g, fs) && i < |fs.inodes| && j <= NDIRECT && Addr(fs, i, j) == 0
    requires b < |fs.blocks| && fs.blocks[b] == ZeroBlock()
    ensures Shaped(g, WithAddr(fs, i, j, b)) && Linked(fs, WithAddr(fs, i, j, b), i, j, b)
  {
    var fs' := WithAddr(fs, i, j, b);
    forall i', j' {:trigger Addr(fs', i', j')} | 0 <= i' && 0 <= j'
      ensures Addr(fs', i', j') == if i' == i && j' == j then b else Addr(fs, i', j')
    {
      if i' == i && NDIRECT < j' < SLOTS { ZeroWords(j' - NDIRECT - 1); }
    }
  }

  /** The file system with entry k of the indirect block ind naming b. */
  function WithEntry(fs: FS, ind: nat, k: nat, b: nat): (r: FS)
    requires ind < |fs.blocks| && k < NINDIRECT && b < U32_LIMIT
  {
    fs.(blocks := fs.blocks[ind := PutWord(fs.blocks[ind], k, b)])
  }

  /** A block is put in an entry of the indirect block. */
  lemma {:induction false} LinkIndirect(g: Geometry, fs: FS, owner: map<nat, Slot>, used: set<nat>, i: nat, k: nat,
                                        b: nat)
    requires Owned(g, fs, owner, used) && i < |fs.inodes| && k < NINDIRECT && b < U32_LIMIT
    requires Addr(fs, i, NDIRECT) != 0
    ensures g.datastart <= Addr(fs, i, NDIRECT) < |fs.blocks|
    ensures var fs' := WithEntry(fs, Addr(fs, i, NDIRECT), k, b);
            Shaped(g, fs') && Linked(fs, fs', i, NDIRECT + 1 + k, b)
  {
    var ind := Addr(fs, i, NDIRECT);
    assert SlotOk(g, fs, owner, used, i, NDIRECT);
    var fs' := WithEntry(fs, ind, k, b);
    forall i', j' {:trigger Addr(fs', i', j')} | 0 <= i' && 0 <= j'
      ensures Addr(fs', i', j') == if i' == i && j' == NDIRECT + 1 + k then b else Addr(fs, i', j')
    {
      if i' == i {
        if NDIRECT < j' < SLOTS { WordOfPut(fs.blocks[ind], k, b, j' - NDIRECT - 1); }
      } else {
        if Addr(fs, i', NDIRECT) == ind { NoSharing(g, fs, owner, used, i, NDIRECT, i', NDIRECT); }
        AddrFrame(fs, fs'.blocks, i', j');
      }
    }
  }

  /** The contents of a block of a file change: no slot does. */
  lemma {:induction false} DataWriteKeeps(g: Geometry, fs: FS, owner: map<nat, Slot>, used: set<nat>, i: nat, j: nat,
                                          x: Block)
    requires Owned(g, fs, owner, used) && BitmapIs(g, fs.blocks, used) && Addr(fs, i, j) != 0 && j != NDIRECT
    ensures g.datastart <= Addr(fs, i, j) < |fs.blocks|
    ensures var fs' := fs.(blocks := fs.blocks[Addr(fs, i, j) := x]);
            Owned(g, fs', owner, used) && BitmapIs(g, fs'.blocks, used) && SameSlots(fs, fs')
  {
    var a := Addr(fs, i, j);
    assert SlotOk(g, fs, owner, used, i, j);
    BitmapOfDataWrite(g, fs.blocks, used, a, x);
    forall i' | 0 <= i' < |fs.inodes| && Addr(fs, i', NDIRECT) != 0 ensures Addr(fs, i', NDIRECT) != a {
      if Addr(fs, i', NDIRECT) == a { NoSharing(g, fs, owner, used, i, j, i', NDIRECT); }
    }
    KeepSlots(g, fs, owner, used, fs.blocks[a := x], used);
  }
}
