/**
 The block allocator and the inode contents layer (kernel/fs.c): balloc, bfree,
 bmap, itrunc, readi and writei, over the blocks as the logging layer shows them.

 inodes are the in-memory copies of the inodes, dinodes the ones on disk, and
 logged collects the numbers of the blocks passed to log_write().
 */
module FileSystem {
  import opened Basics
  import opened Blocks
  import opened Bitmap
  import opened Inodes

  // ---------------------------------------------------------------- file contents

  /** Byte k of inode i's contents. */
  ghost function ByteAt(fs: FS, i: nat, k: nat): byte {
    var a := Addr(fs, i, DataSlot(k / BSIZE));
    if 0 < a < |fs.blocks| then fs.blocks[a].bytes[k % BSIZE] else 0
  }

  /** The contents of inode i. */
  ghost function Contents(fs: FS, i: nat): (s: seq<byte>)
    requires i < |fs.inodes|
    ensures |s| == fs.inodes[i].size
    ensures forall k :: 0 <= k < |s| ==> s[k] == ByteAt(fs, i, k)
  {
    seq(fs.inodes[i].size, k requires 0 <= k => ByteAt(fs, i, k))
  }

  /**
   Where a byte of a file is: in the block that the inode names for it or, past the first 12, in the one that the
   indirect block does.
   */
  lemma {:induction false} WhereTheByteIs(g: Geometry, fs: FS, owner: map<nat, Slot>, used: set<nat>, i: nat, n: nat)
    requires Sound(g, fs, owner, used) && i < |fs.inodes| && n < fs.inodes[i].size
    ensures var addrs, q := fs.inodes[i].addrs, n / 1024;
      && |addrs| == 13
      && (q < 12 ==> addrs[q] < |fs.blocks| && Contents(fs, i)[n] == fs.blocks[addrs[q]].bytes[n % 1024])
      && (q >= 12 ==>
            && q < 12 + 256 && addrs[12] < |fs.blocks| && Word(fs.blocks[addrs[12]], q - 12) < |fs.blocks|
            && Contents(fs, i)[n] == fs.blocks[Word(fs.blocks[addrs[12]], q - 12)].bytes[n % 1024])
  {
    var q := n / BSIZE;
    assert SizeOk(fs, i) && q * BSIZE <= n;
    assert Addr(fs, i, DataSlot(q)) != 0;
    assert SlotOk(g, fs, owner, used, i, DataSlot(q)) && SlotOk(g, fs, owner, used, i, NDIRECT);
  }

  /** old with src put in at off: what writing src to a file at off must give. */
  function Spliced(old_: seq<byte>, off: nat, src: seq<byte>): (r: seq<byte>)
    requires off <= |old_|
    ensures |r| == if off + |src| > |old_| then off + |src| else |old_|
    ensures forall k :: 0 <= k < |r| ==> r[k] == if off <= k < off + |src| then src[k - off] else old_[k]
  {
    old_[..off] + src + (if off + |src| > |old_| then [] else old_[off + |src|..])
  }

  /**
   Slot j of inode k is as it was if it was used or k is not i, and so is the block it named unless an indirect one.
   */
  ghost predicate KeptAt(fs: FS, fs': FS, i: nat, k: nat, j: nat) {
    && (k != i || Addr(fs, k, j) != 0 ==> Addr(fs', k, j) == Addr(fs, k, j))
    && (j != NDIRECT && 0 < Addr(fs, k, j) < |fs.blocks| && |fs'.blocks| == |fs.blocks| ==>
          fs'.blocks[Addr(fs, k, j)] == fs.blocks[Addr(fs, k, j)])
  }

  /** Only inode i's addresses grew. */
  ghost predicate Grown(fs: FS, fs': FS, i: nat) {
    && |fs'.blocks| == |fs.blocks| && |fs'.inodes| == |fs.inodes|
    && (i < |fs.inodes| ==> fs'.inodes == fs.inodes[i := fs.inodes[i].(addrs := fs'.inodes[i].addrs)])
    && forall k, j {:trigger KeptAt(fs, fs', i, k, j)} :: 0 <= k && 0 <= j ==> KeptAt(fs, fs', i, k, j)
  }

  lemma {:induction false} GrownReflexive(fs: FS, i: nat)
    ensures Grown(fs, fs, i)
  {
  }

  lemma {:induction false} GrownTransitive(fs: FS, fs1: FS, fs2: FS, i: nat)
    requires Grown(fs, fs1, i) && Grown(fs1, fs2, i)
    ensures Grown(fs, fs2, i)
  {
    forall k, j {:trigger KeptAt(fs, fs2, i, k, j)} | 0 <= k && 0 <= j ensures KeptAt(fs, fs2, i, k, j) {
      assert KeptAt(fs, fs1, i, k, j) && KeptAt(fs1, fs2, i, k, j);
    }
  }

  /** Growing an inode shows in no file: bytes of used blocks stay. */
  lemma {:induction false} GrownKeepsBytes(fs: FS, fs': FS, i: nat, k: nat, n: nat)
    requires Grown(fs, fs', i) && (k != i || Addr(fs, k, DataSlot(n / BSIZE)) != 0)
    ensures ByteAt(fs', k, n) == ByteAt(fs, k, n) &&
      Addr(fs', k, DataSlot(n / BSIZE)) == Addr(fs, k, DataSlot(n / BSIZE))
  {
    assert KeptAt(fs, fs', i, k, DataSlot(n / BSIZE));
  }

  /** balloc() shows in no slot and in no named block. */
  lemma {:induction false} AllocGrown(g: Geometry, fs: FS, owner: map<nat, Slot>, used: set<nat>, b: nat, i: nat)
    requires Owned(g, fs, owner, used) && b < g.size && g.datastart <= b && g.BBlock(b) < |fs.blocks| && Unnamed(fs, b)
    requires SameSlots(fs, fs.(blocks := Allocated(g, fs.blocks, b)))
    ensures Grown(fs, fs.(blocks := Allocated(g, fs.blocks, b)), i)
    ensures Unnamed(fs.(blocks := Allocated(g, fs.blocks, b)), b)
  {
    var fs' := fs.(blocks := Allocated(g, fs.blocks, b));
    BBlockBelowData(g, b);
    forall k, j {:trigger KeptAt(fs, fs', i, k, j)} | 0 <= k && 0 <= j ensures KeptAt(fs, fs', i, k, j) {
      assert SlotOk(g, fs, owner, used, k, j) && Addr(fs', k, j) == Addr(fs, k, j) != b;
    }
    forall k, j {:trigger Addr(fs', k, j)} | 0 <= k && 0 <= j ensures Addr(fs', k, j) != b {
      assert Addr(fs, k, j) != b;
    }
  }

  /** Filling an empty slot of the in-memory inode. */
  lemma {:induction false} LinkGrown(fs: FS, fs1: FS, fs2: FS, i: nat, j: nat, b: nat)
    requires i < |fs.inodes| && Grown(fs, fs1, i) && SameSlots(fs, fs1) && Addr(fs, i, j) == 0 &&
      Linked(fs1, fs2, i, j, b)
    requires fs2.blocks == fs1.blocks && |fs1.inodes| == |fs2.inodes|
    requires fs2.inodes == fs1.inodes[i := fs1.inodes[i].(addrs := fs2.inodes[i].addrs)]
    ensures Grown(fs, fs2, i) && Linked(fs, fs2, i, j, b)
  {
    forall k, j' {:trigger KeptAt(fs1, fs2, i, k, j')} | 0 <= k && 0 <= j' ensures KeptAt(fs1, fs2, i, k, j') {
      assert Addr(fs2, k, j') == if k == i && j' == j then b else Addr(fs1, k, j');
      assert Addr(fs1, i, j) == Addr(fs, i, j);
    }
    GrownTransitive(fs, fs1, fs2, i);
    forall k, j' {:trigger Addr(fs2, k, j')} | 0 <= k && 0 <= j'
      ensures Addr(fs2, k, j') == if k == i && j' == j then b else Addr(fs, k, j')
    {
      assert Addr(fs1, k, j') == Addr(fs, k, j');
    }
  }

  /** Filling an empty entry of the indirect block. */
  lemma {:induction false} EntryKeeps(g: Geometry, fs: FS, owner: map<nat, Slot>, used: set<nat>, i: nat, k: nat,
                                      b: nat)
    requires Owned(g, fs, owner, used) && BitmapIs(g, fs.blocks, used) && i < |fs.inodes| && k < NINDIRECT &&
      b < U32_LIMIT
    requires Addr(fs, i, NDIRECT) != 0 && Addr(fs, i, NDIRECT + 1 + k) == 0
    requires Addr(fs, i, NDIRECT) < |fs.blocks| &&
      Linked(fs, WithEntry(fs, Addr(fs, i, NDIRECT), k, b), i, NDIRECT + 1 + k, b)
    ensures var fs' := WithEntry(fs, Addr(fs, i, NDIRECT), k, b);
            Grown(fs, fs', i) && BitmapIs(g, fs'.blocks, used)
  {
    var ind := Addr(fs, i, NDIRECT);
    var fs' := WithEntry(fs, ind, k, b);
    assert SlotOk(g, fs, owner, used, i, NDIRECT);
    BitmapOfDataWrite(g, fs.blocks, used, ind, PutWord(fs.blocks[ind], k, b));
    forall k', j {:trigger KeptAt(fs, fs', i, k', j)} | 0 <= k' && 0 <= j ensures KeptAt(fs, fs', i, k', j) {
      assert Addr(fs', k', j) == if k' == i && j == NDIRECT + 1 + k then b else Addr(fs, k', j);
      if Addr(fs, k', j) == ind { NoSharing(g, fs, owner, used, i, NDIRECT, k', j); }
    }
  }

  // ---------------------------------------------------------------- writing

  /** memmove() of data into a block at o. */
  function PutBytes(blk: Block, o: nat, data: seq<byte>): (r: Block)
    requires o + |data| <= BSIZE
    ensures forall k :: 0 <= k < BSIZE ==> r.bytes[k] == if o <= k < o + |data| then data[k - o] else blk.bytes[k]
  {
    Bytes(blk.bytes[..o] + data + blk.bytes[o + |data|..])
  }

  /** Byte k of inode i after w bytes of src were written at off; fs0 is the state before. */
  ghost predicate WrittenAt(fs0: FS, fs: FS, i: nat, off: nat, src: seq<byte>, w: nat, k: nat)
    requires w <= |src|
  {
    && Addr(fs, i, DataSlot(k / BSIZE)) != 0
    && ByteAt(fs, i, k) == if off <= k < off + w then src[k - off] else ByteAt(fs0, i, k)
  }

  ghost predicate Written(fs0: FS, fs: FS, i: nat, off: nat, src: seq<byte>, w: nat) {
    && i < |fs0.inodes| && w <= |src| && off <= fs0.inodes[i].size
    && forall k {:trigger WrittenAt(fs0, fs, i, off, src, w, k)} ::
         0 <= k < Max(fs0.inodes[i].size, off + w) ==> WrittenAt(fs0, fs, i, off, src, w, k)
  }

  /** Slot j of inode k, and the block it names unless an indirect one, are as they were. */
  ghost predicate SameAt(fs0: FS, fs: FS, k: nat, j: nat) {
    && Addr(fs, k, j) == Addr(fs0, k, j)
    && (j != NDIRECT && 0 < Addr(fs0, k, j) < |fs0.blocks| && |fs.blocks| == |fs0.blocks| ==>
          fs.blocks[Addr(fs0, k, j)] == fs0.blocks[Addr(fs0, k, j)])
  }

  /** Inode i's addresses may have changed, but nothing of any other inode. */
  ghost predicate OthersKept(fs0: FS, fs: FS, i: nat) {
    && |fs.blocks| == |fs0.blocks| && |fs.inodes| == |fs0.inodes| && i < |fs.inodes|
    && fs.inodes == fs0.inodes[i := fs0.inodes[i].(addrs := fs.inodes[i].addrs)]
    && forall k, j {:trigger SameAt(fs0, fs, k, j)} :: 0 <= k && 0 <= j && k != i ==> SameAt(fs0, fs, k, j)
  }

  lemma {:induction false} NothingWritten(g: Geometry, fs: FS, owner: map<nat, Slot>, used: set<nat>, i: nat, off: nat,
                                          src: seq<byte>)
    requires Sound(g, fs, owner, used) && i < |fs.inodes| && off <= fs.inodes[i].size
    ensures Written(fs, fs, i, off, src, 0) && OthersKept(fs, fs, i)
  {
    forall k {:trigger WrittenAt(fs, fs, i, off, src, 0, k)} | 0 <= k < Max(fs.inodes[i].size, off + 0)
      ensures WrittenAt(fs, fs, i, off, src, 0, k)
    {
      assert SizeOk(fs, i) && k / BSIZE * BSIZE <= k;
      assert Addr(fs, i, DataSlot(k / BSIZE)) != 0;
    }
  }

  /** Positions within the block of off. */
  lemma {:induction false} SameBlock(off: nat, m: nat, k: nat)
    requires m <= BSIZE - off % BSIZE
    ensures off <= k < off + m ==> k / BSIZE == off / BSIZE
    ensures k / BSIZE == off / BSIZE ==> (k as int) - off == (k % BSIZE) as int - off % BSIZE
  {
  }

  /** bmap() for the block being written keeps what was written so far. */
  lemma {:induction false} GrownWritten(fs0: FS, fs: FS, fs1: FS, i: nat, off: nat, src: seq<byte>, w: nat)
    requires Written(fs0, fs, i, off, src, w) && OthersKept(fs0, fs, i) && Grown(fs, fs1, i)
    ensures Written(fs0, fs1, i, off, src, w) && OthersKept(fs0, fs1, i)
  {
    forall k {:trigger WrittenAt(fs0, fs1, i, off, src, w, k)} | 0 <= k < Max(fs0.inodes[i].size, off + w)
      ensures WrittenAt(fs0, fs1, i, off, src, w, k)
    {
      assert WrittenAt(fs0, fs, i, off, src, w, k);
      GrownKeepsBytes(fs, fs1, i, i, k);
    }
    forall k, j {:trigger SameAt(fs0, fs1, k, j)} | 0 <= k && 0 <= j && k != i ensures SameAt(fs0, fs1, k, j) {
      assert SameAt(fs0, fs, k, j) && KeptAt(fs, fs1, i, k, j);
    }
  }

  /** Writing m more bytes into the block of inode i they belong to. */
  lemma {:induction false} ChunkWritten(g: Geometry, fs0: FS, fs: FS, owner: map<nat, Slot>, used: set<nat>,
                                        i: nat, off: nat, src: seq<byte>, w: nat, m: nat)
    requires Owned(g, fs, owner, used) && BitmapIs(g, fs.blocks, used)
    requires Written(fs0, fs, i, off, src, w) && OthersKept(fs0, fs, i)
    requires w + m <= |src| && m <= BSIZE - (off + w) % BSIZE
    requires Addr(fs, i, DataSlot((off + w) / BSIZE)) != 0
    ensures Addr(fs, i, DataSlot((off + w) / BSIZE)) < |fs.blocks|
    ensures var a := Addr(fs, i, DataSlot((off + w) / BSIZE));
            var fs' := fs.(blocks := fs.blocks[a := PutBytes(fs.blocks[a], (off + w) % BSIZE, src[w..w + m])]);
            && Owned(g, fs', owner, used) && BitmapIs(g, fs'.blocks, used) && SameSlots(fs, fs')
            && Written(fs0, fs', i, off, src, w + m) && OthersKept(fs0, fs', i)
  {
    var at := off + w;
    var j := DataSlot(at / BSIZE);
    var a := Addr(fs, i, j);
    assert SlotOk(g, fs, owner, used, i, j);
    var x := PutBytes(fs.blocks[a], at % BSIZE, src[w..w + m]);
    DataWriteKeeps(g, fs, owner, used, i, j, x);
    var fs' := fs.(blocks := fs.blocks[a := x]);
    forall k {:trigger WrittenAt(fs0, fs', i, off, src, w + m, k)} | 0 <= k < Max(fs0.inodes[i].size, off + (w + m))
      ensures WrittenAt(fs0, fs', i, off, src, w + m, k)
    {
      SameBlock(at, m, k);
      var jk := DataSlot(k / BSIZE);
      assert Addr(fs', i, jk) == Addr(fs, i, jk);
      if !(at <= k < at + m) { assert WrittenAt(fs0, fs, i, off, src, w, k); }
      if k / BSIZE != at / BSIZE && Addr(fs, i, jk) == a { NoSharing(g, fs, owner, used, i, j, i, jk); }
    }
    forall k, j' {:trigger SameAt(fs0, fs', k, j')} | 0 <= k && 0 <= j' && k != i ensures SameAt(fs0, fs', k, j') {
      assert SameAt(fs0, fs, k, j') && Addr(fs', k, j') == Addr(fs, k, j');
      if Addr(fs, k, j') == a { NoSharing(g, fs, owner, used, i, j, k, j'); }
    }
  }

  /** The inode once writei() has raised its size to cover what was written. */
  function Resized(fs: FS, i: nat, size: nat): (r: FS)
    requires i < |fs.inodes|
  {
    fs.(inodes := fs.inodes[i := fs.inodes[i].(size := size)])
  }

  /** What a finished write means: the bytes are spliced in, and no other file changed. */
  lemma {:induction false} WriteSummary(g: Geometry, fs0: FS, fs: FS, owner0: map<nat, Slot>, owner: map<nat, Slot>,
                                        used0: set<nat>, used: set<nat>, i: nat, off: nat, src: seq<byte>, tot: nat,
                                          w: nat)
    requires Sound(g, fs0, owner0, used0) && Owned(g, fs, owner, used) && BitmapIs(g, fs.blocks, used)
    requires Written(fs0, fs, i, off, src, w) && OthersKept(fs0, fs, i) && tot <= w && off + tot <= MAXSIZE
    ensures var size := Max(fs0.inodes[i].size, off + tot);
            var fs' := Resized(fs, i, size);
            && Sound(g, fs', owner, used)
            && Contents(fs', i) == Spliced(Contents(fs0, i), off, src[..w])[..size]
            && forall k :: 0 <= k < |fs.inodes| && k != i ==> Contents(fs', k) == Contents(fs0, k)
  {
    var size := Max(fs0.inodes[i].size, off + tot);
    var fs' := Resized(fs, i, size);
    forall k, j {:trigger SlotOk(g, fs', owner, used, k, j)} | 0 <= k && 0 <= j
      ensures SlotOk(g, fs', owner, used, k, j)
    {
      assert SlotOk(g, fs, owner, used, k, j) && Addr(fs', k, j) == Addr(fs, k, j);
    }
    forall k | 0 <= k < |fs.inodes| && k != i ensures SizeOk(fs', k) && Contents(fs', k) == Contents(fs0, k) {
      OtherFile(fs0, fs, fs', i, k);
    }
    assert SizeOk(fs0, i);
    ResizedOk(fs0, fs, i, off, src, w, size);
    var want := Spliced(Contents(fs0, i), off, src[..w]);
    forall k | 0 <= k < size ensures Contents(fs', i)[k] == want[k] {
      assert WrittenAt(fs0, fs, i, off, src, w, k);
      assert Addr(fs', i, DataSlot(k / BSIZE)) == Addr(fs, i, DataSlot(k / BSIZE));
    }
  }

  lemma {:induction false} OtherFile(fs0: FS, fs: FS, fs': FS, i: nat, k: nat)
    requires OthersKept(fs0, fs, i) && fs'.blocks == fs.blocks && |fs'.inodes| == |fs.inodes|
    requires k < |fs.inodes| && k != i && fs'.inodes[k] == fs.inodes[k] && SizeOk(fs0, k)
    ensures SizeOk(fs', k) && Contents(fs', k) == Contents(fs0, k)
  {
    forall q {:trigger DataSlot(q)} | 0 <= q && q * BSIZE < fs'.inodes[k].size ensures Addr(fs', k, DataSlot(q)) != 0 {
      assert SameAt(fs0, fs, k, DataSlot(q)) && Addr(fs', k, DataSlot(q)) == Addr(fs, k, DataSlot(q));
    }
    forall n | 0 <= n < fs'.inodes[k].size ensures ByteAt(fs', k, n) == ByteAt(fs0, k, n) {
      assert SameAt(fs0, fs, k, DataSlot(n / BSIZE)) &&
        Addr(fs', k, DataSlot(n / BSIZE)) == Addr(fs, k, DataSlot(n / BSIZE));
    }
  }

  lemma {:induction false} ResizedOk(fs0: FS, fs: FS, i: nat, off: nat, src: seq<byte>, w: nat, size: nat)
    requires Written(fs0, fs, i, off, src, w) && i < |fs.inodes| && size <= Max(fs0.inodes[i].size, off + w) &&
      size <= MAXSIZE
    ensures SizeOk(Resized(fs, i, size), i)
  {
    var fs' := Resized(fs, i, size);
    forall q {:trigger DataSlot(q)} | 0 <= q && q * BSIZE < fs'.inodes[i].size ensures Addr(fs', i, DataSlot(q)) != 0 {
      assert WrittenAt(fs0, fs, i, off, src, w, q * BSIZE);
      assert q * BSIZE / BSIZE == q && Addr(fs', i, DataSlot(q)) == Addr(fs, i, DataSlot(q));
    }
  }

  /** A chunk read from the block it is in is that part of the contents. */
  lemma {:induction false} ChunkIsSlice(fs: FS, i: nat, at: nat, m: nat)
    requires i < |fs.inodes| && at + m <= fs.inodes[i].size && m <= BSIZE - at % BSIZE
    requires 0 < Addr(fs, i, DataSlot(at / BSIZE)) < |fs.blocks|
    ensures fs.blocks[Addr(fs, i, DataSlot(at / BSIZE))].bytes[at % BSIZE..at % BSIZE + m] ==
      Contents(fs, i)[at..at + m]
  {
    var o := at % BSIZE;
    var got, want := fs.blocks[Addr(fs, i, DataSlot(at / BSIZE))].bytes[o..o + m], Contents(fs, i)[at..at + m];
    forall k | 0 <= k < m ensures got[k] == want[k] {
      SameBlock(at, m, at + k);
      assert want[k] == ByteAt(fs, i, at + k);
    }
  }

  /** A chunk ends its block, unless it is the last. */
  lemma {:induction false} NextChunk(at: nat, m: nat, left: nat)
    requires m == Min(left, BSIZE - at % BSIZE) && 0 < left
    ensures m < left ==> (at + m) / BSIZE == at / BSIZE + 1 && (at + m) % BSIZE == 0
    ensures m == left ==> (at + m - 1) / BSIZE == at / BSIZE
  {
  }

  /** The loop of writei() at byte at, having copied tot of n bytes in so many chunks, none of them the failing one. */
  predicate AtChunk(off: nat, n: nat, tot: nat, chunk: nat, fault: nat) {
    && tot <= n && off / BSIZE + chunk == BlocksEnd(off, tot)
    && (tot < n ==> tot == ChunkStart(off, chunk) && off / BSIZE + chunk == (off + tot) / BSIZE && chunk <= fault)
    && (tot == n ==> !FaultsIn(off, n, fault))
  }

  /** How many bytes come before chunk c of a copy that begins at off. */
  function ChunkStart(off: nat, c: nat): nat {
    if c == 0 then 0 else (off / BSIZE + c) * BSIZE - off
  }

  /** The first block that n bytes at off do not reach. */
  function BlocksEnd(off: nat, n: nat): nat {
    if n == 0 then off / BSIZE else (off + n - 1) / BSIZE + 1
  }

  /** A copy that fails in chunk fault stops at its start. */
  predicate StopsAt(off: nat, n: nat, fault: nat, r: nat) {
    FaultsIn(off, n, fault) && r == ChunkStart(off, fault)
  }

  /** A write ends early for such a fault, or with no block left where there were too few. */
  predicate Halted(off: nat, n: nat, fault: nat, r: nat, free: nat, free0: nat, need: nat) {
    r < n && (StopsAt(off, n, fault, r) || (free == 0 && free0 < need))
  }

  lemma {:induction false} OneMoreChunk(off: nat, n: nat, tot: nat, chunk: nat, fault: nat)
    requires AtChunk(off, n, tot, chunk, fault) && tot < n
    ensures var m := Min(n - tot, BSIZE - (off + tot) % BSIZE);
      && 0 < m && tot + m <= n
      && off / BSIZE + chunk == (off + tot) / BSIZE < BlocksEnd(off, n) &&
          (off + n <= MAXSIZE ==> BlocksEnd(off, n) <= MAXFILE)
      && (chunk == fault ==> StopsAt(off, n, fault, tot))
      && (chunk != fault ==> AtChunk(off, n, tot + m, chunk + 1, fault))
  {
    var m := Min(n - tot, BSIZE - (off + tot) % BSIZE);
    NextChunk(off + tot, m, n - tot);
    assert (off + tot) / BSIZE <= (off + n - 1) / BSIZE;
  }

  /** A block number bmap() may log when it returns addr: the block, the indirect block, a bitmap block. */
  ghost predicate MetaOf(g: Geometry, fs: FS, i: nat, addr: nat, x: nat) {
    x != 0 && (x == addr || x == Addr(fs, i, NDIRECT) || g.IsBitmap(x))
  }

  /** A block writei() of n bytes at off may log: a bitmap block, the indirect block, a block it writes to. */
  ghost predicate LoggedFor(g: Geometry, fs: FS, i: nat, off: nat, n: nat, x: nat) {
    x != 0 && (g.IsBitmap(x) || x == Addr(fs, i, NDIRECT)
               || exists q :: off / BSIZE <= q && q * BSIZE < off + n && x == Addr(fs, i, DataSlot(q)))
  }

  ghost predicate AllLogged(g: Geometry, fs: FS, i: nat, off: nat, n: nat, lg0: set<nat>, lg: set<nat>) {
    forall x :: x in lg ==> x in lg0 || LoggedFor(g, fs, i, off, n, x)
  }

  lemma {:induction false} LoggedByBmap(g: Geometry, fs: FS, fs1: FS, i: nat, off: nat, n: nat, at: nat, addr: nat,
                                        lg0: set<nat>, lg: set<nat>, lg1: set<nat>)
    requires AllLogged(g, fs, i, off, n, lg0, lg) && Grown(fs, fs1, i) && off <= at < off + n
    requires addr == Addr(fs1, i, DataSlot(at / BSIZE)) && forall x :: x in lg1 ==>
      x in lg || MetaOf(g, fs1, i, addr, x)
    ensures AllLogged(g, fs1, i, off, n, lg0, lg1)
  {
    forall x | x in lg1 && x !in lg0 ensures LoggedFor(g, fs1, i, off, n, x) {
      if x in lg {
        if q :| off / BSIZE <= q && q * BSIZE < off + n && x == Addr(fs, i, DataSlot(q)) {
          assert KeptAt(fs, fs1, i, i, DataSlot(q));
        } else {
          assert KeptAt(fs, fs1, i, i, NDIRECT);
        }
      } else if x == addr {
        var q := at / BSIZE;
        assert off / BSIZE <= q && q * BSIZE < off + n;
      }
    }
  }

  lemma {:induction false} LoggedByCopy(g: Geometry, fs: FS, fs1: FS, i: nat, off: nat, n: nat, at: nat, addr: nat,
                                        lg0: set<nat>, lg: set<nat>)
    requires AllLogged(g, fs, i, off, n, lg0, lg) && SameSlots(fs, fs1) && off <= at < off + n
    requires addr == Addr(fs, i, DataSlot(at / BSIZE)) != 0
    ensures AllLogged(g, fs1, i, off, n, lg0, lg + {addr})
  {
    assert Addr(fs1, i, NDIRECT) == Addr(fs, i, NDIRECT);
    forall x | x in lg + {addr} && x !in lg0 ensures LoggedFor(g, fs1, i, off, n, x) {
      if x == addr {
        var q := at / BSIZE;
        assert off / BSIZE <= q && q * BSIZE < off + n && Addr(fs1, i, DataSlot(q)) == addr;
      } else if q :| off / BSIZE <= q && q * BSIZE < off + n && x == Addr(fs, i, DataSlot(q)) {
        assert Addr(fs1, i, DataSlot(q)) == x;
      }
    }
  }

  lemma {:induction false} ResizedLogged(g: Geometry, fs: FS, i: nat, size: nat, off: nat, n: nat, lg0: set<nat>,
                                         lg: set<nat>)
    requires i < |fs.inodes| && AllLogged(g, fs, i, off, n, lg0, lg)
    ensures AllLogged(g, Resized(fs, i, size), i, off, n, lg0 + {g.IBlock(i)}, lg + {g.IBlock(i)})
  {
    var fs' := Resized(fs, i, size);
    forall x | x in lg && x !in lg0 ensures LoggedFor(g, fs', i, off, n, x) {
      assert Addr(fs', i, NDIRECT) == Addr(fs, i, NDIRECT);
      if q :| off / BSIZE <= q && q * BSIZE < off + n && x == Addr(fs, i, DataSlot(q)) {
        assert Addr(fs', i, DataSlot(q)) == x;
      }
    }
  }

  lemma {:induction false} SliceMore(c: seq<byte>, lo: nat, at: nat, m: nat)
    requires lo <= at && at + m <= |c|
    ensures c[lo..at] + c[at..at + m] == c[lo..at + m]
  {
  }

  lemma {:induction false} ChunkBefore(at: nat, end: nat)
    requires at < end
    ensures at / BSIZE <= (end - 1) / BSIZE
  {
  }

  lemma {:induction false} DivBPB(n: nat, q: nat, r: nat)
    requires n == BPB * q + r && r < BPB
    ensures n / BPB == q && n % BPB == r
  {
  }

  lemma {:induction false} Mod8(n: nat, q: nat, r: nat)
    requires n == 8 * q + r
    ensures n % 8 == r % 8
  {
  }

  /** Where the bit of the bi-th block of the q-th bitmap block is. */
  lemma {:induction false} BitIndex(q: nat, bi: nat)
    requires bi < BPB
    ensures (BPB * q + bi) / BPB == q && ByteOf(BPB * q + bi) == bi / 8 && (BPB * q + bi) % 8 == bi % 8
  {
    DivBPB(BPB * q + bi, q, bi);
    Mod8(BPB * q + bi, BSIZE * q, bi);
  }

  // ---------------------------------------------------------------- transactions of a write

  /** The blocks of cnt slots from slot bn on. */
  ghost function BlocksOf(fs: FS, i: nat, bn: nat, cnt: nat): (r: set<nat>)
    ensures |r| <= cnt
    ensures forall q :: bn <= q < bn + cnt ==> Addr(fs, i, DataSlot(q)) in r
  {
    if cnt == 0 then {} else BlocksOf(fs, i, bn, cnt - 1) + {Addr(fs, i, DataSlot(bn + cnt - 1))}
  }

  /** A writei() of n bytes touches at most n / BSIZE + 1 blocks, rounded up. */
  lemma {:induction false} BlocksTouched(off: nat, n: nat, c: nat, q: nat)
    requires n <= c * BSIZE && off / BSIZE <= q && q * BSIZE < off + n
    ensures q < off / BSIZE + (c + 1)
  {
  }

  /** One chunk of filewrite() stays within the reservation of one operation, with a slot to spare. */
  lemma {:induction false} OneTransaction(g: Geometry, fs: FS, i: nat, off: nat, n: nat, maxop: nat, lg: set<nat>)
    requires AllLogged(g, fs, i, off, n, {g.IBlock(i)}, lg) && g.size < BPB && maxop >= 6
    requires n <= (maxop - 1 - 1 - 2) / 2 * BSIZE
    ensures |lg| <= (maxop - 4) / 2 + 4 <= maxop - 1
  {
    var c := (maxop - 4) / 2;
    var data := BlocksOf(fs, i, off / BSIZE, c + 1);
    var all := data + {g.IBlock(i)} + {g.bmapstart} + {Addr(fs, i, NDIRECT)};
    forall x | x in lg ensures x in all {
      if x != g.IBlock(i) && !g.IsBitmap(x) && x != Addr(fs, i, NDIRECT) {
        var q :| off / BSIZE <= q && q * BSIZE < off + n && x == Addr(fs, i, DataSlot(q));
        BlocksTouched(off, n, c, q);
      }
    }
    SubsetSize(lg, all);
    assert |all| <= |data| + 3;
  }

  /** Splicing in two pieces one after the other. */
  lemma {:induction false} SplicedTwice(o: seq<byte>, off: nat, src: seq<byte>, a: nat, b: nat)
    requires off <= |o| && a + b <= |src|
    ensures Spliced(Spliced(o, off, src[..a]), off + a, src[a..a + b]) == Spliced(o, off, src[..a + b])
    ensures src[..0] == [] && Spliced(o, off, []) == o
  {
    var once, twice := Spliced(o, off, src[..a]), Spliced(o, off, src[..a + b]);
    var r := Spliced(once, off + a, src[a..a + b]);
    forall k | 0 <= k < |r| ensures r[k] == twice[k] {
    }
    assert r == twice;
    assert Spliced(o, off, []) == o;
  }

  /** A copy from user memory that fails after fault chunks does so within these n bytes. */
  predicate FaultsIn(off: nat, n: nat, fault: nat) {
    n > 0 && off / BSIZE + fault <= (off + n - 1) / BSIZE
  }

  /** How far writei() has come: w bytes are in the blocks of file i, and nothing else has changed. */
  ghost predicate Writing(g: Geometry, fs0: FS, lg0: set<nat>, fs: FS, lg: set<nat>, i: nat, off: nat, src: seq<byte>,
                          w: nat) {
    && w <= |src| && Written(fs0, fs, i, off, src, w) && OthersKept(fs0, fs, i) &&
        AllLogged(g, fs, i, off, |src|, lg0, lg)
  }

  // ---------------------------------------------------------------- how many blocks a write takes

  /** How many of the first n blocks are free. */
  ghost function FreeCount(used: set<nat>, n: nat): nat {
    if n == 0 then 0 else FreeCount(used, n - 1) + if n - 1 in used then 0 else 1
  }

  /** Slot j must name a block for a file to have its blocks a up to b. */
  predicate Touches(a: nat, b: nat, j: nat) {
    if j == NDIRECT then a < b && NDIRECT < b else a <= (if j < NDIRECT then j else j - 1) < b
  }

  /** How many of blocks a up to b have no slot that names them. */
  ghost function Entries(fs: FS, i: nat, a: nat, b: nat): nat
    decreases b - a
  {
    if b <= a then 0 else (if Addr(fs, i, DataSlot(a)) == 0 then 1 else 0) + Entries(fs, i, a + 1, b)
  }

  /** How many blocks must be allocated for inode i to have blocks a up to b, the indirect block included. */
  ghost function NeedFor(fs: FS, i: nat, a: nat, b: nat): nat {
    Entries(fs, i, a, b) + if a < b && NDIRECT < b && Addr(fs, i, NDIRECT) == 0 then 1 else 0
  }

  /** And for a write of n bytes at off. */
  ghost function Need(fs: FS, i: nat, off: nat, n: nat): nat {
    NeedFor(fs, i, off / BSIZE, BlocksEnd(off, n))
  }

  /** The slots for blocks a up to b have been filled, and no others. */
  ghost predicate Filled(fs: FS, fs': FS, i: nat, a: nat, b: nat) {
    forall j {:trigger Addr(fs', i, j)} :: 0 <= j < SLOTS ==>
      (Addr(fs', i, j) != 0 <==> Addr(fs, i, j) != 0 || Touches(a, b, j))
  }

  /** A write has taken the blocks it needed, and no others have come or gone. */
  ghost predicate Spent(g: Geometry, fs: FS, used: set<nat>, fs': FS, used': set<nat>, i: nat, a: nat, b: nat) {
    && Filled(fs, fs', i, a, b) && FreeCount(used, g.size) == FreeCount(used', g.size) + NeedFor(fs, i, a, b)
    && forall k, j {:trigger Addr(fs', k, j)} :: 0 <= k && 0 <= j && k != i ==> Addr(fs', k, j) == Addr(fs, k, j)
  }

  lemma {:induction false} FreeTaken(used: set<nat>, b: nat, n: nat)
    requires b !in used
    ensures FreeCount(used, n) == FreeCount(used + {b}, n) + if b < n then 1 else 0
  {
    if n > 0 { FreeTaken(used, b, n - 1); }
  }

  lemma {:induction false} NoneFree(used: set<nat>, n: nat)
    requires forall c :: 0 <= c < n ==> c in used
    ensures FreeCount(used, n) == 0
  {
    if n > 0 { NoneFree(used, n - 1); }
  }

  /** Blocks past the ones that were filled are as they were. */
  lemma {:induction false} EntriesSame(fs: FS, fs': FS, i: nat, a: nat, c: nat, b: nat)
    requires Filled(fs, fs', i, a, c) && c <= b <= MAXFILE
    ensures Entries(fs', i, c, b) == Entries(fs, i, c, b)
    decreases b - c
  {
    EntriesSameFrom(fs, fs', i, a, c, c, b);
  }

  lemma {:induction false} EntriesSameFrom(fs: FS, fs': FS, i: nat, a: nat, c: nat, q: nat, b: nat)
    requires Filled(fs, fs', i, a, c) && c <= q <= b <= MAXFILE
    ensures Entries(fs', i, q, b) == Entries(fs, i, q, b)
    decreases b - q
  {
    if q < b {
      EntriesSameFrom(fs, fs', i, a, c, q + 1, b);
      assert Addr(fs', i, DataSlot(q)) != 0 <==> Addr(fs, i, DataSlot(q)) != 0;
    }
  }

  /** Filling one block leaves the rest to do. */
  lemma {:induction false} NeedStep(fs: FS, fs': FS, i: nat, bn: nat, b: nat)
    requires Filled(fs, fs', i, bn, bn + 1) && bn < b <= MAXFILE
    ensures NeedFor(fs, i, bn, b) == NeedFor(fs, i, bn, bn + 1) + NeedFor(fs', i, bn + 1, b)
  {
    EntriesSame(fs, fs', i, bn, bn + 1, b);
    assert Addr(fs', i, NDIRECT) != 0 <==> Addr(fs, i, NDIRECT) != 0 || bn >= NDIRECT;
    assert Entries(fs, i, bn + 1, bn + 1) == 0;
  }

  lemma {:induction false} FilledTwice(fs: FS, fs1: FS, fs2: FS, i: nat, a: nat, bn: nat)
    requires Filled(fs, fs1, i, a, bn) && Filled(fs1, fs2, i, bn, bn + 1) && a <= bn
    ensures Filled(fs, fs2, i, a, bn + 1)
  {
    forall j {:trigger Addr(fs2, i, j)} | 0 <= j < SLOTS
      ensures Addr(fs2, i, j) != 0 <==> Addr(fs, i, j) != 0 || Touches(a, bn + 1, j)
    {
      assert Addr(fs1, i, j) != 0 <==> Addr(fs, i, j) != 0 || Touches(a, bn, j);
    }
  }

  /**
   How far a write of blocks a up to b has come: blocks up to c are there, and what it took for them is no longer free.
   */
  ghost predicate Ledger(g: Geometry, fs0: FS, used0: set<nat>, fs: FS, used: set<nat>, i: nat, a: nat, c: nat,
                         b: nat) {
    && Filled(fs0, fs, i, a, c)
    && NeedFor(fs0, i, a, b) + FreeCount(used, g.size) == FreeCount(used0, g.size) + NeedFor(fs, i, c, b)
  }

  /** What bmap() for block bn did: all of it, or, with no block left, less. */
  ghost predicate Mapped(g: Geometry, fs: FS, used: set<nat>, fs': FS, used': set<nat>, i: nat, bn: nat, ok: bool) {
    if ok then
      Filled(fs, fs', i, bn, bn + 1) && FreeCount(used, g.size) == FreeCount(used', g.size) + NeedFor(fs, i, bn, bn + 1)
    else FreeCount(used', g.size) == 0 && FreeCount(used, g.size) < NeedFor(fs, i, bn, bn + 1)
  }

  lemma {:induction false} LedgerMore(g: Geometry, fs0: FS, used0: set<nat>, fs: FS, used: set<nat>, fs1: FS,
                                      used1: set<nat>,
                                      fs': FS, i: nat, a: nat, bn: nat, b: nat)
    requires Ledger(g, fs0, used0, fs, used, i, a, bn, b) && Mapped(g, fs, used, fs1, used1, i, bn, true)
    requires a <= bn < b <= MAXFILE && SameSlots(fs1, fs')
    ensures Ledger(g, fs0, used0, fs', used1, i, a, bn + 1, b)
  {
    forall j {:trigger Addr(fs', i, j)} | 0 <= j < SLOTS
      ensures Addr(fs', i, j) != 0 <==> Addr(fs, i, j) != 0 || Touches(bn, bn + 1, j)
    {
      assert Addr(fs', i, j) == Addr(fs1, i, j);
    }
    FilledTwice(fs0, fs, fs', i, a, bn);
    NeedStep(fs, fs', i, bn, b);
  }

  /** When bmap() fails, the write needed more than there was. */
  lemma {:induction false} Exhausted(g: Geometry, fs0: FS, used0: set<nat>, fs: FS, used: set<nat>, fs': FS,
                                     used': set<nat>,
                                     i: nat, a: nat, bn: nat, b: nat)
    requires Ledger(g, fs0, used0, fs, used, i, a, bn, b) && Mapped(g, fs, used, fs', used', i, bn, false) && bn < b
    ensures FreeCount(used', g.size) == 0 && FreeCount(used0, g.size) < NeedFor(fs0, i, a, b)
  {
    assert Entries(fs, i, bn + 1, bn + 1) == 0;
  }

  /** What bmap() for block bn of inode i does: addr is the block, or 0 with no block left. */
  ghost predicate BlockMapped(g: Geometry, fs: FS, used: set<nat>, lg: set<nat>, fs': FS, used': set<nat>,
                              lg': set<nat>,
                              i: nat, bn: nat, addr: nat)
  {
    && Grown(fs, fs', i) && Mapped(g, fs, used, fs', used', i, bn, addr != 0)
    && addr == Addr(fs', i, DataSlot(bn)) && (addr != 0 ==> g.datastart <= addr < g.size)
    && (Addr(fs, i, DataSlot(bn)) != 0 ==> fs' == fs && lg' == lg && used' == used)
    && (Addr(fs, i, DataSlot(bn)) == 0 && 0 < addr < |fs'.blocks| ==> fs'.blocks[addr] == ZeroBlock())
    && (forall x :: x in lg' ==> x in lg || MetaOf(g, fs', i, addr, x))
  }

  lemma {:induction false} AlreadyMapped(g: Geometry, fs: FS, used: set<nat>, i: nat, bn: nat)
    requires bn < MAXFILE && Addr(fs, i, DataSlot(bn)) != 0
    ensures Mapped(g, fs, used, fs, used, i, bn, true)
  {
    assert Entries(fs, i, bn + 1, bn + 1) == 0;
  }

  /** A free block put in an empty slot of the inode. */
  lemma {:induction false} DirectMapped(g: Geometry, fs: FS, used: set<nat>, fs': FS, used': set<nat>, i: nat, bn: nat,
                                        addr: nat)
    requires bn < NDIRECT && Addr(fs, i, bn) == 0
    requires if addr == 0 then used' == used && FreeCount(used', g.size) == 0
             else addr < g.size && addr !in used && used' == used + {addr} && Linked(fs, fs', i, bn, addr)
    ensures Mapped(g, fs, used, fs', used', i, bn, addr != 0)
  {
    assert Entries(fs, i, bn + 1, bn + 1) == 0;
    if addr != 0 { FreeTaken(used, addr, g.size); }
  }

  /** The indirect block of i is there, or there was no block for it. */
  ghost predicate IndirectThere(g: Geometry, fs: FS, used: set<nat>, lg: set<nat>, fs': FS, used': set<nat>,
                                lg': set<nat>,
                                i: nat, ind: nat)
  {
    && Grown(fs, fs', i) && ind == Addr(fs', i, NDIRECT) < g.size
    && FreeCount(used, g.size) == FreeCount(used', g.size) + (if Addr(fs, i, NDIRECT) == 0 && ind != 0 then 1 else 0)
    && (Addr(fs, i, NDIRECT) != 0 || ind == 0 ==> fs' == fs && used' == used && lg' == lg)
    && (ind == 0 ==> FreeCount(used', g.size) == 0)
    && (forall j {:trigger Addr(fs', i, j)} :: 0 <= j && j != NDIRECT ==> Addr(fs', i, j) == Addr(fs, i, j))
    && (forall x :: x in lg' ==> x in lg || MetaOf(g, fs', i, ind, x))
  }

  lemma {:induction false} NoIndirect(g: Geometry, fs: FS, used: set<nat>, lg: set<nat>, i: nat, bn: nat)
    requires IndirectThere(g, fs, used, lg, fs, used, lg, i, 0) && NDIRECT <= bn < MAXFILE
    ensures BlockMapped(g, fs, used, lg, fs, used, lg, i, bn, 0)
  {
    assert Addr(fs, i, bn + 1) == 0;
  }

  /** What allocating the entry did. */
  ghost predicate EntryMade(g: Geometry, fs: FS, used: set<nat>, lg: set<nat>, fs': FS, used': set<nat>, lg': set<nat>,
                            i: nat, j: nat, ind: nat, addr: nat)
  {
    && Grown(fs, fs', i) && Addr(fs', i, j) == addr
    && if addr == 0 then fs' == fs && used' == used && lg' == lg && FreeCount(used', g.size) == 0
       else
         && g.datastart <= addr < g.size && g.IsBitmap(g.BBlock(addr)) && addr !in used && used' == used + {addr}
         && Linked(fs, fs', i, j, addr) && lg' == lg + {g.BBlock(addr), addr, ind}
         && addr < |fs'.blocks| && fs'.blocks[addr] == ZeroBlock()
  }

  lemma {:induction false} IndirectMapped(g: Geometry, fs: FS, used: set<nat>, lg: set<nat>, fs1: FS, used1: set<nat>,
                                          lg1: set<nat>, fs2: FS, used2: set<nat>, lg2: set<nat>, i: nat, bn: nat,
                                            ind: nat,
                                          addr: nat)
    requires IndirectThere(g, fs, used, lg, fs1, used1, lg1, i, ind) && 0 < ind < |fs1.blocks| &&
      NDIRECT <= bn < MAXFILE
    requires g.Valid()
    requires if Addr(fs1, i, bn + 1) == 0 then EntryMade(g, fs1, used1, lg1, fs2, used2, lg2, i, bn + 1, ind, addr)
             else
               && fs2 == fs1 && used2 == used1 && lg2 == lg1
               && addr == Addr(fs1, i, bn + 1) && g.datastart <= addr < g.size
    ensures BlockMapped(g, fs, used, lg, fs2, used2, lg2, i, bn, addr)
  {
    if Addr(fs1, i, bn + 1) == 0 {
      GrownTransitive(fs, fs1, fs2, i);
      EntryMapped(g, fs, used, fs1, used1, fs2, used2, i, bn, addr);
      EntryLogged(g, lg, fs1, lg1, fs2, lg2, i, bn + 1, ind, addr);
    } else {
      assert Addr(fs, i, bn + 1) != 0 && Addr(fs, i, NDIRECT) != 0;
      AlreadyMapped(g, fs, used, i, bn);
    }
  }

  lemma {:induction false} EntryMapped(g: Geometry, fs: FS, used: set<nat>, fs1: FS, used1: set<nat>, fs2: FS,
                                       used2: set<nat>,
                                       i: nat, bn: nat, addr: nat)
    requires Addr(fs1, i, NDIRECT) != 0 && NDIRECT <= bn < MAXFILE && Addr(fs1, i, bn + 1) == 0
    requires FreeCount(used, g.size) == FreeCount(used1, g.size) + (if Addr(fs, i, NDIRECT) == 0 then 1 else 0)
    requires forall j {:trigger Addr(fs1, i, j)} :: 0 <= j && j != NDIRECT ==> Addr(fs1, i, j) == Addr(fs, i, j)
    requires if addr == 0 then fs2 == fs1 && used2 == used1 && FreeCount(used2, g.size) == 0
             else addr < g.size && addr !in used1 && used2 == used1 + {addr} && Linked(fs1, fs2, i, bn + 1, addr)
    ensures Mapped(g, fs, used, fs2, used2, i, bn, addr != 0)
  {
    assert Entries(fs, i, bn + 1, bn + 1) == 0;
    if addr != 0 {
      FreeTaken(used1, addr, g.size);
      forall j {:trigger Addr(fs2, i, j)} | 0 <= j < SLOTS
        ensures Addr(fs2, i, j) != 0 <==> Addr(fs, i, j) != 0 || Touches(bn, bn + 1, j)
      {
        assert j != NDIRECT ==> Addr(fs1, i, j) == Addr(fs, i, j);
      }
    }
  }

  lemma {:induction false} EntryLogged(g: Geometry, lg: set<nat>, fs1: FS, lg1: set<nat>, fs2: FS, lg2: set<nat>,
                                       i: nat, j: nat, ind: nat, addr: nat)
    requires forall x :: x in lg1 ==> x in lg || MetaOf(g, fs1, i, ind, x)
    requires ind == Addr(fs1, i, NDIRECT) != 0 && j != NDIRECT && g.Valid()
    requires if addr == 0 then fs2 == fs1 && lg2 == lg1
             else Linked(fs1, fs2, i, j, addr) && lg2 == lg1 + {g.BBlock(addr), addr, ind} && g.IsBitmap(g.BBlock(addr))
    ensures forall x :: x in lg2 ==> x in lg || MetaOf(g, fs2, i, addr, x)
  {
    assert Addr(fs2, i, NDIRECT) == ind;
  }

  /** bmap() for the block being written keeps what was written. */
  lemma {:induction false} MappedWriting(g: Geometry, fs0: FS, lg0: set<nat>, fs: FS, used: set<nat>, lg: set<nat>,
                                         fs1: FS,
                                         used1: set<nat>, lg1: set<nat>, i: nat, off: nat, src: seq<byte>, tot: nat,
                                           addr: nat)
    requires Writing(g, fs0, lg0, fs, lg, i, off, src, tot) && tot < |src|
    requires BlockMapped(g, fs, used, lg, fs1, used1, lg1, i, (off + tot) / BSIZE, addr)
    ensures Writing(g, fs0, lg0, fs1, lg1, i, off, src, tot)
  {
    GrownWritten(fs0, fs, fs1, i, off, src, tot);
    LoggedByBmap(g, fs, fs1, i, off, |src|, off + tot, addr, lg0, lg, lg1);
  }

  /** A write all of whose blocks are there took what it needed; the size of a file is none of its slots. */
  lemma {:induction false} WriteSpent(g: Geometry, fs0: FS, used0: set<nat>, fs: FS, used: set<nat>, i: nat, a: nat,
                                      b: nat,
                                      size: nat)
    requires Ledger(g, fs0, used0, fs, used, i, a, b, b) && OthersKept(fs0, fs, i) && i < |fs.inodes|
    ensures Spent(g, fs0, used0, Resized(fs, i, size), used, i, a, b)
    ensures NeedFor(fs0, i, a, b) <= FreeCount(used0, g.size)
  {
    var fs' := Resized(fs, i, size);
    forall k, j {:trigger Addr(fs', k, j)} | 0 <= k && 0 <= j
      ensures Addr(fs', k, j) == Addr(fs, k, j) && (k != i ==> Addr(fs', k, j) == Addr(fs0, k, j))
    {
      assert k != i ==> SameAt(fs0, fs, k, j);
    }
  }

  // ---------------------------------------------------------------- truncating

  /** An inode without contents. */
  function Empty(ip: Inode): (r: Inode) {
    ip.(size := 0, addrs := seq(NDIRECT + 1, _ => 0))
  }

  lemma {:induction false} AllZero(ip: Inode, z: Inode)
    requires z == ip.(size := 0, addrs := z.addrs) && |z.addrs| == NDIRECT + 1
    requires forall k :: 0 <= k <= NDIRECT ==> z.addrs[k] == 0
    ensures z == Empty(ip)
  {
    assert z.addrs == Empty(ip).addrs;
  }

  /** Inode i has block b, as data or as its indirect block. */
  ghost predicate Names(fs: FS, i: nat, b: nat) {
    b != 0 && exists j :: 0 <= j < SLOTS && Addr(fs, i, j) == b
  }

  /** How many of the first n slots of inode i name a block. */
  ghost function Held(fs: FS, i: nat, n: nat): nat {
    if n == 0 then 0 else Held(fs, i, n - 1) + if Addr(fs, i, n - 1) == 0 then 0 else 1
  }

  /** Inode i has given up its blocks, and no others have come or gone. */
  ghost predicate Emptied(g: Geometry, fs: FS, used: set<nat>, fs': FS, used': set<nat>, i: nat) {
    && FreeCount(used', g.size) == FreeCount(used, g.size) + Held(fs, i, SLOTS)
    && forall k, j {:trigger Addr(fs', k, j)} :: 0 <= k && 0 <= j ==>
         Addr(fs', k, j) == if k == i then 0 else Addr(fs, k, j)
  }

  /** What is still marked once the blocks of the first n slots of inode i are free. */
  ghost function Without(used: set<nat>, fs: FS, i: nat, n: nat): set<nat> {
    if n == 0 then used else Without(used, fs, i, n - 1) - if Addr(fs, i, n - 1) == 0 then {} else {Addr(fs, i, n - 1)}
  }

  lemma {:induction false} WithoutNamed(used: set<nat>, fs: FS, i: nat, n: nat, b: nat)
    ensures b in Without(used, fs, i, n) <==> b in used && (b == 0 || forall j :: 0 <= j < n ==> Addr(fs, i, j) != b)
  {
    if n > 0 { WithoutNamed(used, fs, i, n - 1, b); }
  }

  lemma {:induction false} FreedCount(g: Geometry, fs: FS, owner: map<nat, Slot>, used: set<nat>, i: nat, n: nat)
    requires Owned(g, fs, owner, used)
    ensures FreeCount(Without(used, fs, i, n), g.size) == FreeCount(used, g.size) + Held(fs, i, n)
  {
    if n > 0 {
      FreedCount(g, fs, owner, used, i, n - 1);
      var a := Addr(fs, i, n - 1);
      if a != 0 {
        assert SlotOk(g, fs, owner, used, i, n - 1);
        forall j | 0 <= j < n - 1 ensures Addr(fs, i, j) != a {
          if Addr(fs, i, j) == a { NoSharing(g, fs, owner, used, i, j, i, n - 1); }
        }
        WithoutNamed(used, fs, i, n - 1, a);
        var rest := Without(used, fs, i, n);
        assert rest + {a} == Without(used, fs, i, n - 1);
        FreeTaken(rest, a, g.size);
      } else {
        assert Without(used, fs, i, n) == Without(used, fs, i, n - 1);
      }
    }
  }

  /** How far itrunc() has got: direct slots, entries of the indirect block, the indirect block itself. */
  datatype Progress = Progress(direct: nat, entries: nat, indirect: bool) {
    predicate Has(j: nat) {
      j < direct || NDIRECT < j <= NDIRECT + entries || (indirect && j == NDIRECT)
    }
  }

  /** next has got to slot j besides the slots done has. */
  ghost predicate Adds(done: Progress, j: nat, next: Progress) {
    !done.Has(j) && forall k: nat {:trigger next.Has(k)} {:trigger done.Has(k)} :: next.Has(k) <==>
      done.Has(k) || k == j
  }

  /** Block b is named by one of the slots of inode i that done has. */
  ghost predicate NamedIn(fs: FS, i: nat, done: Progress, b: nat) {
    b != 0 && exists j: nat :: done.Has(j) && Addr(fs, i, j) == b
  }

  /** itrunc() has freed the blocks of the slots in done, and changed nothing else on the disk. */
  ghost predicate Truncating(g: Geometry, fs0: FS, owner0: map<nat, Slot>, used0: set<nat>, i: nat,
                             blocks: Disk, used: set<nat>, done: Progress)
  {
    && Sound(g, fs0, owner0, used0) && BitmapIs(g, blocks, used) && i < |fs0.inodes|
    && (forall b :: g.datastart <= b < g.size ==> blocks[b] == fs0.blocks[b])
    && forall b :: b in used <==> b in used0 && !NamedIn(fs0, i, done, b)
  }

  /** The next slot's block is still marked, and freeing it completes the next step. */
  lemma {:induction false} FreeOne(g: Geometry, fs0: FS, owner0: map<nat, Slot>, used0: set<nat>, i: nat,
                                   blocks: Disk, used: set<nat>, done: Progress, j: nat, next: Progress)
    requires Truncating(g, fs0, owner0, used0, i, blocks, used, done) && Adds(done, j, next)
    ensures Addr(fs0, i, j) != 0 ==> g.datastart <= Addr(fs0, i, j) < g.size && Addr(fs0, i, j) in used
    ensures forall b :: b in (if Addr(fs0, i, j) == 0 then used else used - {Addr(fs0, i, j)}) <==>
              b in used0 && !NamedIn(fs0, i, next, b)
  {
    var a := Addr(fs0, i, j);
    assert SlotOk(g, fs0, owner0, used0, i, j);
    if a != 0 && NamedIn(fs0, i, done, a) {
      var j': nat :| done.Has(j') && Addr(fs0, i, j') == a;
      NoSharing(g, fs0, owner0, used0, i, j, i, j');
    }
    forall b ensures NamedIn(fs0, i, next, b) <==> NamedIn(fs0, i, done, b) || (b != 0 && b == a) {
      if NamedIn(fs0, i, done, b) {
        var j': nat :| done.Has(j') && Addr(fs0, i, j') == b;
        assert next.Has(j');
      }
      if b != 0 && b == a { assert next.Has(j); }
      if NamedIn(fs0, i, next, b) {
        var j': nat :| next.Has(j') && Addr(fs0, i, j') == b;
        assert done.Has(j') || j' == j;
      }
    }
  }

  /** With every used slot done, inode i has no blocks and no other inode lost any. */
  lemma {:induction false} TruncSummary(g: Geometry, fs0: FS, owner0: map<nat, Slot>, used0: set<nat>, i: nat,
                                        blocks: Disk, used: set<nat>, done: Progress)
    requires Truncating(g, fs0, owner0, used0, i, blocks, used, done)
    requires done == if Addr(fs0, i, NDIRECT) == 0 then Progress(NDIRECT, 0, false)
      else Progress(NDIRECT, NINDIRECT, true)
    ensures var fs := FS(blocks, fs0.inodes[i := Empty(fs0.inodes[i])]);
            && Sound(g, fs, owner0, used)
            && forall k :: 0 <= k < |fs.inodes| && k != i ==> Contents(fs, k) == Contents(fs0, k)
    ensures forall b :: b in used <==> b in used0 && !Names(fs0, i, b)
    ensures Emptied(g, fs0, used0, FS(blocks, fs0.inodes[i := Empty(fs0.inodes[i])]), used, i)
  {
    var fs := FS(blocks, fs0.inodes[i := Empty(fs0.inodes[i])]);
    TruncEmptied(g, fs0, owner0, used0, i, blocks, used, done);
    forall b ensures NamedIn(fs0, i, done, b) <==> Names(fs0, i, b) {
      if NamedIn(fs0, i, done, b) {
        var j: nat :| done.Has(j) && Addr(fs0, i, j) == b;
        assert 0 <= j < SLOTS;
      }
      if Names(fs0, i, b) {
        var j :| 0 <= j < SLOTS && Addr(fs0, i, j) == b;
        assert done.Has(j);
      }
    }
    forall k, j {:trigger SlotOk(g, fs, owner0, used, k, j)} | 0 <= k && 0 <= j
      ensures SlotOk(g, fs, owner0, used, k, j)
    {
      TruncSlot(g, fs0, owner0, used0, i, blocks, used, done, k, j);
    }
    forall k | 0 <= k < |fs.inodes| ensures SizeOk(fs, k) && (k != i ==> Contents(fs, k) == Contents(fs0, k)) {
      assert SizeOk(fs0, k);
      if k != i {
        forall q {:trigger DataSlot(q)} | 0 <= q && q * BSIZE < fs.inodes[k].size
          ensures Addr(fs, k, DataSlot(q)) != 0
        {
          TruncSlot(g, fs0, owner0, used0, i, blocks, used, done, k, DataSlot(q));
        }
        forall n | 0 <= n < fs.inodes[k].size ensures ByteAt(fs, k, n) == ByteAt(fs0, k, n) {
          TruncSlot(g, fs0, owner0, used0, i, blocks, used, done, k, DataSlot(n / BSIZE));
        }
      }
    }
  }

  lemma {:induction false} TruncEmptied(g: Geometry, fs0: FS, owner0: map<nat, Slot>, used0: set<nat>, i: nat,
                                        blocks: Disk, used: set<nat>, done: Progress)
    requires Truncating(g, fs0, owner0, used0, i, blocks, used, done)
    requires done == if Addr(fs0, i, NDIRECT) == 0 then Progress(NDIRECT, 0, false)
      else Progress(NDIRECT, NINDIRECT, true)
    ensures Emptied(g, fs0, used0, FS(blocks, fs0.inodes[i := Empty(fs0.inodes[i])]), used, i)
  {
    var fs := FS(blocks, fs0.inodes[i := Empty(fs0.inodes[i])]);
    forall b ensures b in used <==> b in Without(used0, fs0, i, SLOTS) {
      WithoutNamed(used0, fs0, i, SLOTS, b);
      if NamedIn(fs0, i, done, b) {
        var j: nat :| done.Has(j) && Addr(fs0, i, j) == b;
        assert 0 <= j < SLOTS;
      }
      assert forall j: nat :: j < SLOTS && Addr(fs0, i, j) == b != 0 ==> done.Has(j);
    }
    assert used == Without(used0, fs0, i, SLOTS);
    FreedCount(g, fs0, owner0, used0, i, SLOTS);
    forall k, j {:trigger Addr(fs, k, j)} | 0 <= k && 0 <= j
      ensures Addr(fs, k, j) == if k == i then 0 else Addr(fs0, k, j)
    {
      TruncSlot(g, fs0, owner0, used0, i, blocks, used, done, k, j);
    }
  }

  /** One slot after truncation. */
  lemma {:induction false} TruncSlot(g: Geometry, fs0: FS, owner0: map<nat, Slot>, used0: set<nat>, i: nat,
                                     blocks: Disk, used: set<nat>, done: Progress, k: nat, j: nat)
    requires Truncating(g, fs0, owner0, used0, i, blocks, used, done)
    ensures var fs := FS(blocks, fs0.inodes[i := Empty(fs0.inodes[i])]);
            && SlotOk(g, fs, owner0, used, k, j) && (k == i ==> Addr(fs, k, j) == 0)
            && (k != i ==> Addr(fs, k, j) == Addr(fs0, k, j) && (Addr(fs, k, j) != 0 ==>
                  Addr(fs, k, j) < g.size && blocks[Addr(fs, k, j)] == fs0.blocks[Addr(fs, k, j)]))
  {
    var fs := FS(blocks, fs0.inodes[i := Empty(fs0.inodes[i])]);
    assert SlotOk(g, fs0, owner0, used0, k, j) && SlotOk(g, fs0, owner0, used0, k, NDIRECT);
    if k != i && Addr(fs0, k, j) != 0 && NamedIn(fs0, i, done, Addr(fs0, k, j)) {
      var j': nat :| done.Has(j') && Addr(fs0, i, j') == Addr(fs0, k, j);
      NoSharing(g, fs0, owner0, used0, i, j', k, j);
    }
  }

  class FileSys {
    const g: Geometry
    var blocks: Disk
    var inodes: seq<Inode>
    var dinodes: seq<Inode>
    ghost var owner: map<nat, Slot>
    ghost var used: set<nat>
    ghost var logged: set<nat>

    ghost function State(): FS
      reads this
    {
      FS(blocks, inodes)
    }

    ghost predicate Core()
      reads this
    {
      Owned(g, State(), owner, used) && BitmapIs(g, blocks, used) && |dinodes| == |inodes|
    }

    ghost predicate Valid()
      reads this
    {
      Core() && Sound(g, State(), owner, used)
    }

    constructor (geometry: Geometry, disk: Disk, table: seq<Inode>, ghost who: map<nat, Slot>, ghost marked: set<nat>)
      requires Sound(geometry, FS(disk, table), who, marked)
      ensures Valid() && g == geometry && blocks == disk && inodes == dinodes == table && owner == who && used == marked
    {
      g, blocks, inodes, dinodes := geometry, disk, table, table;
      owner, used, logged := who, marked, {};
    }

    // ------------------------------------------------------------ the block allocator

    /** balloc(): the first free block, marked and zeroed; 0 if every block is in use. */
    method Balloc() returns (r: nat)
      requires BitmapIs(g, blocks, used)
      modifies `blocks, `used, `logged
      ensures BitmapIs(g, blocks, used)
      ensures r == 0 ==> blocks == old(blocks) && used == old(used) && forall c :: 0 <= c < g.size ==> c in used
      ensures r != 0 ==>
                && r < g.size && g.BBlock(r) < g.size && g.IsBitmap(g.BBlock(r)) && r !in old(used) &&
                    (forall c :: 0 <= c < r ==> c in old(used))
                && used == old(used) + {r} && blocks == Allocated(g, old(blocks), r)
      ensures logged == if r == 0 then old(logged) else old(logged) + {g.BBlock(r), r}
    {
      var b := 0;
      ghost var q := 0;
      while b < g.size
        invariant b == BPB * q && forall c :: 0 <= c < g.size && c < b ==> c in used
        invariant blocks == old(blocks) && used == old(used) && logged == old(logged)
        decreases g.size + BPB - b
      {
        BBlockBelowData(g, b);
        BitIndex(q, 0);
        var data := blocks[g.BBlock(b)].bytes;
        var bi := 0;
        while bi < BPB && b + bi < g.size
          invariant 0 <= bi <= BPB && forall c :: 0 <= c < g.size && c < b + bi ==> c in used
          invariant blocks == old(blocks) && used == old(used) && logged == old(logged)
        {
          BitIndex(q, bi);
          assert BitOk(g, blocks, used, b + bi);
          if !TestBit(data[bi / 8], bi % 8) {
            r := b + bi;
            BBlockBelowData(g, r);
            BitmapOfMarked(g, blocks, used, r, true);
            BitmapOfDataWrite(g, Marked(g, blocks, r, true), used + {r}, r, ZeroBlock());
            blocks := Marked(g, blocks, r, true);
            blocks := blocks[r := ZeroBlock()];
            used := used + {r};
            logged := logged + {g.BBlock(r), r};
            return;
          }
          bi := bi + 1;
        }
        b, q := b + BPB, q + 1;
      }
      r := 0;
    }

    /** bfree(); false is the "freeing free block" panic. */
    method Bfree(b: nat) returns (ok: bool)
      requires BitmapIs(g, blocks, used) && g.datastart <= b < g.size
      modifies `blocks, `used, `logged
      ensures BitmapIs(g, blocks, used) && g.BBlock(b) < g.size
      ensures ok <==> b in old(used)
      ensures ok ==>
        used == old(used) - {b} && blocks == Marked(g, old(blocks), b, false) && logged == old(logged) + {g.BBlock(b)}
      ensures !ok ==> blocks == old(blocks) && used == old(used) && logged == old(logged)
    {
      BBlockBelowData(g, b);
      Mod8(b, BSIZE * (b / BPB), b % BPB);
      assert BitOk(g, blocks, used, b);
      var bi := b % BPB;
      if !TestBit(blocks[g.BBlock(b)].bytes[bi / 8], bi % 8) { return false; }
      BitmapOfMarked(g, blocks, used, b, false);
      blocks := Marked(g, blocks, b, false);
      used := used - {b};
      logged := logged + {g.BBlock(b)};
      ok := true;
    }

    /** A block is allocated and put in an empty slot of the in-memory inode. */
    method AllocDirect(i: nat, j: nat) returns (addr: nat)
      requires Core() && i < |inodes| && j <= NDIRECT && Addr(State(), i, j) == 0
      modifies `blocks, `inodes, `owner, `used, `logged
      ensures Core() && Grown(old(State()), State(), i)
      ensures Addr(State(), i, j) == addr
      ensures addr == 0 ==> State() == old(State()) && logged == old(logged) && forall c :: 0 <= c < g.size ==>
        c in used
      ensures addr != 0 ==>
                && g.datastart <= addr < g.size && g.IsBitmap(g.BBlock(addr)) && blocks[addr] == ZeroBlock() &&
                    Unnamed(old(State()), addr)
                && Linked(old(State()), State(), i, j, addr) && logged == old(logged) + {g.BBlock(addr), addr}
      ensures if addr == 0 then used == old(used) else used == old(used) + {addr} && addr !in old(used)
    {
      ghost var fs := State();
      addr := Balloc();
      if addr == 0 {
        GrownReflexive(fs, i);
        return;
      }
      AllocKeeps(g, fs, owner, old(used), addr);
      AllocGrown(g, fs, owner, old(used), addr, i);
      ghost var fs1 := State();
      LinkDirect(g, fs1, i, j, addr);
      LinkedIsOwned(g, fs1, WithAddr(fs1, i, j, addr), owner, used, i, j, addr);
      inodes := inodes[i := inodes[i].(addrs := inodes[i].addrs[j := addr])];
      owner := owner[addr := Slot(i, j)];
      LinkGrown(fs, fs1, State(), i, j, addr);
    }

    /** A block is allocated and put in an empty entry of the inode's indirect block. */
    method AllocEntry(i: nat, k: nat) returns (addr: nat)
      requires Core() && i < |inodes| && k < NINDIRECT && Addr(State(), i, NDIRECT) != 0 &&
        Addr(State(), i, NDIRECT + 1 + k) == 0
      modifies `blocks, `owner, `used, `logged
      ensures Core() && Grown(old(State()), State(), i)
      ensures Addr(State(), i, NDIRECT + 1 + k) == addr
      ensures addr == 0 ==> State() == old(State()) && logged == old(logged) && forall c :: 0 <= c < g.size ==>
        c in used
      ensures addr != 0 ==>
                && g.datastart <= addr < g.size && g.IsBitmap(g.BBlock(addr)) && blocks[addr] == ZeroBlock() &&
                    Unnamed(old(State()), addr)
                && Linked(old(State()), State(), i, NDIRECT + 1 + k, addr)
                && logged == old(logged) + {g.BBlock(addr), addr, inodes[i].addrs[NDIRECT]}
      ensures if addr == 0 then used == old(used) else used == old(used) + {addr} && addr !in old(used)
    {
      ghost var fs := State();
      addr := Balloc();
      if addr == 0 {
        GrownReflexive(fs, i);
        return;
      }
      AllocKeeps(g, fs, owner, old(used), addr);
      AllocGrown(g, fs, owner, old(used), addr, i);
      ghost var fs1 := State();
      var ind := inodes[i].addrs[NDIRECT];
      LinkIndirect(g, fs1, owner, used, i, k, addr);
      EntryKeeps(g, fs1, owner, used, i, k, addr);
      LinkedIsOwned(g, fs1, WithEntry(fs1, ind, k, addr), owner, used, i, NDIRECT + 1 + k, addr);
      blocks := blocks[ind := PutWord(blocks[ind], k, addr)];
      logged := logged + {ind};
      owner := owner[addr := Slot(i, NDIRECT + 1 + k)];
      GrownTransitive(fs, fs1, State(), i);
      assert Addr(fs1, i, NDIRECT) == Addr(fs, i, NDIRECT) == ind;
      assert blocks[addr] == ZeroBlock();
    }

    /** bmap() for a block that has a slot in the inode itself. */
    method BmapDirect(i: nat, bn: nat) returns (addr: nat)
      requires Core() && i < |inodes| && bn < NDIRECT
      modifies `blocks, `inodes, `owner, `used, `logged
      ensures Core() && BlockMapped(g, old(State()), old(used), old(logged), State(), used, logged, i, bn, addr)
      ensures Addr(old(State()), i, DataSlot(bn)) != 0 ==> owner == old(owner)
    {
      ghost var fs := State();
      GrownReflexive(fs, i);
      assert SlotOk(g, fs, owner, used, i, bn);
      addr := inodes[i].addrs[bn];
      if addr == 0 {
        addr := AllocDirect(i, bn);
        if addr == 0 { NoneFree(used, g.size); }
        DirectMapped(g, fs, old(used), State(), used, i, bn, addr);
      } else {
        AlreadyMapped(g, fs, used, i, bn);
      }
    }

    /** The indirect block of an inode, allocated if need be. */
    method IndirectBlock(i: nat) returns (ind: nat)
      requires Core() && i < |inodes|
      modifies `blocks, `inodes, `owner, `used, `logged
      ensures Core() && IndirectThere(g, old(State()), old(used), old(logged), State(), used, logged, i, ind)
      ensures Addr(old(State()), i, NDIRECT) != 0 ==> owner == old(owner)
    {
      ghost var fs := State();
      GrownReflexive(fs, i);
      assert SlotOk(g, fs, owner, used, i, NDIRECT);
      ind := inodes[i].addrs[NDIRECT];
      if ind == 0 {
        ind := AllocDirect(i, NDIRECT);
        if ind == 0 { NoneFree(used, g.size); } else { FreeTaken(old(used), ind, g.size); }
      }
    }

    /** bmap() for a block that has its slot in the indirect block. */
    method BmapIndirect(i: nat, bn: nat) returns (addr: nat)
      requires Core() && i < |inodes| && NDIRECT <= bn < MAXFILE
      modifies `blocks, `inodes, `owner, `used, `logged
      ensures Core() && BlockMapped(g, old(State()), old(used), old(logged), State(), used, logged, i, bn, addr)
      ensures Addr(old(State()), i, DataSlot(bn)) != 0 ==> owner == old(owner)
    {
      var ind := IndirectBlock(i);
      if ind == 0 {
        NoIndirect(g, old(State()), old(used), old(logged), i, bn);
        return 0;
      }
      ghost var fs1, used1, lg1 := State(), used, logged;
      assert SlotOk(g, fs1, owner, used, i, DataSlot(bn));
      addr := Word(blocks[ind], bn - NDIRECT);
      if addr == 0 {
        addr := AllocEntry(i, bn - NDIRECT);
        if addr == 0 { NoneFree(used, g.size); }
      }
      IndirectMapped(g, old(State()), old(used), old(logged), fs1, used1, lg1, State(), used, logged, i, bn, ind, addr);
    }

    /**
     bmap(): the block of the bn-th block of the file, allocated if need be; 0 if
     the disk is full.  (bn >= MAXFILE is the "bmap: out of range" panic.)
     */
    method Bmap(i: nat, bn: nat) returns (addr: nat)
      requires Core() && i < |inodes| && bn < MAXFILE
      modifies `blocks, `inodes, `owner, `used, `logged
      ensures Core() && BlockMapped(g, old(State()), old(used), old(logged), State(), used, logged, i, bn, addr)
      ensures Addr(old(State()), i, DataSlot(bn)) != 0 ==> owner == old(owner)
    {
      if bn < NDIRECT {
        addr := BmapDirect(i, bn);
      } else {
        addr := BmapIndirect(i, bn);
      }
    }

    // ------------------------------------------------------------ reading and writing

    /** iupdate(): the in-memory inode goes to disk. */
    method Iupdate(i: nat)
      requires i < |inodes| == |dinodes|
      modifies `dinodes, `logged
      ensures dinodes == old(dinodes)[i := inodes[i]] && logged == old(logged) + {g.IBlock(i)}
    {
      dinodes := dinodes[i := inodes[i]];
      logged := logged + {g.IBlock(i)};
    }

    /** A turn of readi()'s loop: the block is there, so bmap() changes nothing. */
    method ReadChunk(i: nat, at: nat, m: nat) returns (data: seq<byte>)
      requires Valid() && i < |inodes| && m <= BSIZE - at % BSIZE && 0 < m && at + m <= inodes[i].size
      modifies `blocks, `inodes, `owner, `used, `logged
      ensures State() == old(State()) && owner == old(owner) && used == old(used) && logged == old(logged)
      ensures data == Contents(State(), i)[at..at + m]
    {
      assert SizeOk(State(), i) && at / BSIZE * BSIZE <= at < inodes[i].size;
      assert Addr(State(), i, DataSlot(at / BSIZE)) != 0;
      var addr := Bmap(i, at / BSIZE);
      ChunkIsSlice(State(), i, at, m);
      data := blocks[addr].bytes[at % BSIZE..at % BSIZE + m];
    }

    /** readi()'s loop, once the length is cut at the end of the file. */
    method ReadChunks(i: nat, off: nat, len: nat, fault: nat) returns (r: int, data: seq<byte>)
      requires Valid() && i < |inodes| && off + len <= inodes[i].size
      modifies `blocks, `inodes, `owner, `used, `logged
      ensures State() == old(State()) && owner == old(owner) && used == old(used) && logged == old(logged)
      ensures r >= 0 ==> r == len && data == Contents(State(), i)[off..off + len]
      ensures r < 0 <==> 0 < len && off / BSIZE + fault <= (off + len - 1) / BSIZE
    {
      data := [];
      var tot, at, chunk := 0, off, 0;
      while tot < len
        invariant 0 <= tot <= len && at == off + tot
        invariant State() == old(State()) && owner == old(owner) && used == old(used) && logged == old(logged)
        invariant data == Contents(State(), i)[off..at]
        invariant chunk <= fault && (tot < len ==> chunk == at / BSIZE - off / BSIZE)
        invariant tot == len > 0 ==> chunk == (off + len - 1) / BSIZE - off / BSIZE + 1
      {
        var m := Min(len - tot, BSIZE - at % BSIZE);
        NextChunk(at, m, len - tot);
        if chunk == fault {
          ChunkBefore(at, off + len);
          return -1, data;
        }
        var bytes := ReadChunk(i, at, m);
        SliceMore(Contents(State(), i), off, at, m);
        data := data + bytes;
        tot, at, chunk := tot + m, at + m, chunk + 1;
      }
      r := tot;
    }

    /**
     readi().  fault is the number of chunks the destination takes before a copy
     out fails, which makes the call return -1.  Nothing changes: below the size
     every block is there, so bmap() never allocates.
     */
    method Readi(i: nat, off: nat, n: nat, fault: nat) returns (r: int, data: seq<byte>)
      requires Valid() && i < |inodes| && off < U32_LIMIT && n < U32_LIMIT
      modifies `blocks, `inodes, `owner, `used, `logged
      ensures State() == old(State()) && owner == old(owner) && used == old(used) && logged == old(logged)
      ensures off > inodes[i].size || off + n >= U32_LIMIT ==> r == 0 && data == []
      ensures r >= 0 && off <= inodes[i].size && off + n < U32_LIMIT ==>
                r == |data| && data == Contents(State(), i)[off..Min(off + n, inodes[i].size)]
      ensures r < 0 <==>
                && off <= inodes[i].size && off + n < U32_LIMIT && off < Min(off + n, inodes[i].size)
                && off / BSIZE + fault <= (Min(off + n, inodes[i].size) - 1) / BSIZE
    {
      data := [];
      if off > inodes[i].size || (off + n) % U32_LIMIT < off { return 0, []; }
      var len := if off + n > inodes[i].size then inodes[i].size - off else n;
      r, data := ReadChunks(i, off, len, fault);
    }

    /** The copy of one chunk into its block, and log_write() of the block. */
    method CopyChunk(i: nat, addr: nat, off: nat, src: seq<byte>, tot: nat, m: nat, ghost fs0: FS)
      requires Core() && i < |inodes| && Written(fs0, State(), i, off, src, tot) && OthersKept(fs0, State(), i)
      requires tot + m <= |src| && m <= BSIZE - (off + tot) % BSIZE
      requires addr == Addr(State(), i, DataSlot((off + tot) / BSIZE)) != 0 && addr < |blocks|
      modifies `blocks, `logged
      ensures Core() && Written(fs0, State(), i, off, src, tot + m) && OthersKept(fs0, State(), i)
      ensures SameSlots(old(State()), State()) && logged == old(logged) + {addr}
    {
      ChunkWritten(g, fs0, State(), owner, used, i, off, src, tot, m);
      blocks := blocks[addr := PutBytes(blocks[addr], (off + tot) % BSIZE, src[tot..tot + m])];
      logged := logged + {addr};
    }

    /** A turn of writei()'s loop, for block bn: m bytes are copied, all that go in the block, unless it stops there. */
    method WriteChunk(i: nat, off: nat, src: seq<byte>, tot: nat, bn: nat, last: bool, partial: nat, ghost a: nat,
                      ghost b: nat,
                      ghost fs0: FS, ghost used0: set<nat>, ghost lg0: set<nat>)
      returns (m: nat, ghost w: nat)
      requires Core() && i < |inodes| && tot < |src| && bn == (off + tot) / BSIZE < MAXFILE && a <= bn < b <= MAXFILE
      requires Writing(g, fs0, lg0, State(), logged, i, off, src, tot) &&
        Ledger(g, fs0, used0, State(), used, i, a, bn, b)
      modifies `blocks, `inodes, `owner, `used, `logged
      ensures Core() && |inodes| == |old(inodes)| && tot <= w <= |src| &&
        Writing(g, fs0, lg0, State(), logged, i, off, src, w)
      ensures m > 0 ==>
                && !last && m == Min(|src| - tot, BSIZE - (off + tot) % BSIZE) && w == tot + m
                && Ledger(g, fs0, used0, State(), used, i, a, bn + 1, b)
      ensures m == 0 ==>
        w <= tot + BSIZE && (last || (FreeCount(used, g.size) == 0 && FreeCount(used0, g.size) < NeedFor(fs0, i, a, b)))
    {
      ghost var fs, us := State(), used;
      var addr := MapChunk(i, off, src, tot, bn, a, b, fs0, used0, lg0);
      if addr == 0 { return 0, tot; }
      m := Min(|src| - tot, BSIZE - (off + tot) % BSIZE);
      ghost var fs1 := State();
      if last {
        var p := Min(partial, m);
        PutChunk(i, addr, off, src, tot, p, fs0, lg0);
        return 0, tot + p;
      }
      PutChunk(i, addr, off, src, tot, m, fs0, lg0);
      LedgerMore(g, fs0, used0, fs, us, fs1, used, State(), i, a, bn, b);
      w := tot + m;
    }

    /** The block for the next chunk; when there is none, the write needed more than there was. */
    method MapChunk(i: nat, off: nat, src: seq<byte>, tot: nat, bn: nat, ghost a: nat, ghost b: nat,
                    ghost fs0: FS, ghost used0: set<nat>, ghost lg0: set<nat>)
      returns (addr: nat)
      requires Core() && i < |inodes| && tot < |src| && bn == (off + tot) / BSIZE < MAXFILE && a <= bn < b <= MAXFILE
      requires Writing(g, fs0, lg0, State(), logged, i, off, src, tot) &&
        Ledger(g, fs0, used0, State(), used, i, a, bn, b)
      modifies `blocks, `inodes, `owner, `used, `logged
      ensures Core() && |inodes| == |old(inodes)| && Writing(g, fs0, lg0, State(), logged, i, off, src, tot)
      ensures addr == Addr(State(), i, DataSlot(bn)) && addr < |blocks|
      ensures addr == 0 ==> FreeCount(used, g.size) == 0 && FreeCount(used0, g.size) < NeedFor(fs0, i, a, b)
      ensures addr != 0 ==> Mapped(g, old(State()), old(used), State(), used, i, bn, true)
    {
      addr := Bmap(i, bn);
      MappedWriting(g, fs0, lg0, old(State()), old(used), old(logged), State(), used, logged, i, off, src, tot, addr);
      if addr == 0 { Exhausted(g, fs0, used0, old(State()), old(used), State(), used, i, a, bn, b); }
    }

    /** The copy of one chunk, as far as it goes. */
    method PutChunk(i: nat, addr: nat, off: nat, src: seq<byte>, tot: nat, m: nat, ghost fs0: FS, ghost lg0: set<nat>)
      requires Core() && i < |inodes| && Writing(g, fs0, lg0, State(), logged, i, off, src, tot) && tot < |src|
      requires tot + m <= |src| && m <= BSIZE - (off + tot) % BSIZE
      requires addr == Addr(State(), i, DataSlot((off + tot) / BSIZE)) != 0 && addr < |blocks|
      modifies `blocks, `logged
      ensures Core() && Writing(g, fs0, lg0, State(), logged, i, off, src, tot + m) && SameSlots(old(State()), State())
    {
      ghost var fs1, lg1 := State(), logged;
      CopyChunk(i, addr, off, src, tot, m, fs0);
      LoggedByCopy(g, fs1, State(), i, off, |src|, off + tot, addr, lg0, lg1);
    }

    /** A turn of writei()'s loop, chunk number chunk: it is written, or the write halts. */
    method WriteTurn(i: nat, off: nat, src: seq<byte>, tot: nat, chunk: nat, bn: nat, fault: nat, partial: nat,
                     ghost b: nat,
                     ghost fs0: FS, ghost used0: set<nat>, ghost lg0: set<nat>)
      returns (m: nat, ghost w: nat)
      requires Core() && i < |inodes| && tot < |src| && AtChunk(off, |src|, tot, chunk, fault) && off + |src| <= MAXSIZE
      requires bn == off / BSIZE + chunk && b == BlocksEnd(off, |src|)
      requires Writing(g, fs0, lg0, State(), logged, i, off, src, tot)
      requires Ledger(g, fs0, used0, State(), used, i, off / BSIZE, bn, b)
      modifies `blocks, `inodes, `owner, `used, `logged
      ensures Core() && |inodes| == |old(inodes)| && tot <= w <= tot + BSIZE
      ensures Writing(g, fs0, lg0, State(), logged, i, off, src, w)
      ensures m > 0 ==>
                && w == tot + m && AtChunk(off, |src|, w, chunk + 1, fault)
                && Ledger(g, fs0, used0, State(), used, i, off / BSIZE, bn + 1, b)
      ensures m == 0 ==>
                Halted(off, |src|, fault, tot, FreeCount(used, g.size), FreeCount(used0, g.size),
                  NeedFor(fs0, i, off / BSIZE, b))
    {
      OneMoreChunk(off, |src|, tot, chunk, fault);
      m, w := WriteChunk(i, off, src, tot, bn, chunk == fault, partial, off / BSIZE, b, fs0, used0, lg0);
    }

    /**
     The loop of writei(): fault is the number of chunks the source yields before a
     copy in fails, partial how much of the failing chunk it still yields.  w bytes
     reach the blocks, the first tot of them in whole chunks.
     */
    method WriteChunks(i: nat, off: nat, src: seq<byte>, fault: nat, partial: nat) returns (tot: nat, ghost w: nat)
      requires Valid() && i < |inodes| && off <= inodes[i].size && off + |src| <= MAXSIZE
      modifies `blocks, `inodes, `owner, `used, `logged
      ensures Core() && tot <= w <= |src| && w <= tot + BSIZE
      ensures Writing(g, old(State()), old(logged), State(), logged, i, off, src, w)
      ensures tot < |src| ==>
                Halted(off, |src|, fault, tot, FreeCount(used, g.size), FreeCount(old(used), g.size),
                       NeedFor(old(State()), i, off / BSIZE, BlocksEnd(off, |src|)))
      ensures tot == |src| ==>
                && !FaultsIn(off, |src|, fault)
                && Ledger(g, old(State()), old(used), State(), used, i, off / BSIZE, BlocksEnd(off, |src|),
                    BlocksEnd(off, |src|))
    {
      ghost var fs0, used0, lg0, a, b := State(), used, logged, off / BSIZE, BlocksEnd(off, |src|);
      NothingWritten(g, fs0, owner, used, i, off, src);
      tot, w := 0, 0;
      var chunk, bn := 0, off / BSIZE;
      while tot < |src|
        invariant Core() && |inodes| == |old(inodes)| && tot == w <= |src| && bn == a + chunk
        invariant AtChunk(off, |src|, tot, chunk, fault)
        invariant Writing(g, fs0, lg0, State(), logged, i, off, src, tot)
        invariant Ledger(g, fs0, used0, State(), used, i, a, bn, b)
      {
        var m;
        m, w := WriteTurn(i, off, src, tot, chunk, bn, fault, partial, b, fs0, used0, lg0);
        if m == 0 { return; }
        tot, chunk, bn := tot + m, chunk + 1, bn + 1;
      }
    }

    /**
     writei(): the source bytes are spliced into the file, which grows as needed,
     and no other file changes.  The inode is written back whatever happened.
     -1 is returned, with nothing changed, exactly for offsets past the end of the
     file, for sums beyond 32 bits and for files beyond MAXFILE blocks.
     */
    method Writei(i: nat, off: nat, src: seq<byte>, fault: nat, partial: nat) returns (r: int, ghost w: nat)
      requires Valid() && i < |inodes| && off < U32_LIMIT && |src| < U32_LIMIT
      modifies this
      ensures Valid() && |inodes| == |old(inodes)| && w <= |src|
      ensures r < 0 <==> off > old(inodes[i]).size || off + |src| >= U32_LIMIT || off + |src| > MAXSIZE
      ensures r < 0 ==>
        r == -1 && State() == old(State()) && dinodes == old(dinodes) && used == old(used) && logged == old(logged)
      ensures r >= 0 ==>
                && r <= w && dinodes == old(dinodes)[i := inodes[i]]
                && inodes[i].size == Max(old(inodes[i]).size, off + r)
                && Contents(State(), i) == Spliced(Contents(old(State()), i), off, src[..w])[..inodes[i].size]
                && (forall k :: 0 <= k < |inodes| && k != i ==> Contents(State(), k) == Contents(old(State()), k))
                && AllLogged(g, State(), i, off, |src|, old(logged) + {g.IBlock(i)}, logged)
      ensures r == |src| ==> Contents(State(), i) == Spliced(Contents(old(State()), i), off, src)
      ensures 0 <= r < |src| ==> StopsAt(off, |src|, fault, r) || FreeCount(used, g.size) == 0
      ensures r >= 0 && !FaultsIn(off, |src|, fault) ==>
                (r == |src| <==> Need(old(State()), i, off, |src|) <= FreeCount(old(used), g.size))
      ensures r == |src| ==> Spent(g, old(State()), old(used), State(), used, i, off / BSIZE, BlocksEnd(off, |src|))
      ensures r >= 0 ==> w <= r + BSIZE && (r == |src| ==> !FaultsIn(off, |src|, fault))
    {
      ghost var fs0 := State();
      if off > inodes[i].size || (off + |src|) % U32_LIMIT < off { return -1, 0; }
      if off + |src| > MAXSIZE { return -1, 0; }
      var tot;
      tot, w := WriteChunks(i, off, src, fault, partial);
      ghost var fs := State();
      WriteSummary(g, fs0, fs, old(owner), owner, old(used), used, i, off, src, tot, w);
      if off + tot > inodes[i].size {
        inodes := inodes[i := inodes[i].(size := off + tot)];
      }
      assert State() == Resized(fs, i, Max(fs0.inodes[i].size, off + tot));
      if tot == |src| {
        WriteSpent(g, fs0, old(used), fs, used, i, off / BSIZE, BlocksEnd(off, |src|),
          Max(fs0.inodes[i].size, off + tot));
      }
      ResizedLogged(g, fs, i, Max(fs0.inodes[i].size, off + tot), off, |src|, old(logged), logged);
      Iupdate(i);
      if tot == |src| { assert src[..w] == src; }
      r := tot;
    }

    /** A turn of an itrunc() loop: the block of slot j, if any, is freed without a panic. */
    method FreeSlot(b: nat, j: nat, i: nat, ghost fs0: FS, ghost owner0: map<nat, Slot>, ghost used0: set<nat>,
                    ghost done: Progress, ghost next: Progress)
      requires Truncating(g, fs0, owner0, used0, i, blocks, used, done) && b == Addr(fs0, i, j) && Adds(done, j, next)
      modifies `blocks, `used, `logged
      ensures Truncating(g, fs0, owner0, used0, i, blocks, used, next)
    {
      FreeOne(g, fs0, owner0, used0, i, blocks, used, done, j, next);
      if b != 0 {
        var ok := Bfree(b);
        BBlockBelowData(g, b);
      }
    }

    /** The first loop of itrunc(): the direct blocks. */
    method TruncateDirect(i: nat)
      requires Valid() && i < |inodes|
      modifies `blocks, `used, `logged, `inodes
      ensures Truncating(g, old(State()), owner, old(used), i, blocks, used, Progress(NDIRECT, 0, false))
      ensures |inodes| == |old(inodes)| && |inodes[i].addrs| == NDIRECT + 1
      ensures inodes == old(inodes)[i := old(inodes)[i].(addrs := inodes[i].addrs)]
      ensures forall k :: 0 <= k <= NDIRECT ==> inodes[i].addrs[k] == if k < NDIRECT then 0 else old(inodes)[i].addrs[k]
    {
      ghost var fs0 := State();
      var j := 0;
      while j < NDIRECT
        invariant 0 <= j <= NDIRECT && |inodes| == |old(inodes)|
        invariant Truncating(g, fs0, owner, old(used), i, blocks, used, Progress(j, 0, false))
        invariant inodes == fs0.inodes[i := fs0.inodes[i].(addrs := inodes[i].addrs)] &&
          |inodes[i].addrs| == NDIRECT + 1
        invariant forall k :: 0 <= k <= NDIRECT ==> inodes[i].addrs[k] == if k < j then 0 else fs0.inodes[i].addrs[k]
      {
        FreeSlot(inodes[i].addrs[j], j, i, fs0, owner, old(used), Progress(j, 0, false), Progress(j + 1, 0, false));
        inodes := inodes[i := inodes[i].(addrs := inodes[i].addrs[j := 0])];
        j := j + 1;
      }
    }

    /** The part of itrunc() for an inode with an indirect block: its entries, then the block itself. */
    method TruncateIndirect(i: nat, ghost fs0: FS, ghost owner0: map<nat, Slot>, ghost used0: set<nat>)
      requires Truncating(g, fs0, owner0, used0, i, blocks, used, Progress(NDIRECT, 0, false)) &&
        Addr(fs0, i, NDIRECT) != 0
      requires i < |inodes| && |inodes[i].addrs| == NDIRECT + 1 && inodes[i].addrs[NDIRECT] == Addr(fs0, i, NDIRECT)
      modifies `blocks, `used, `logged
      ensures Truncating(g, fs0, owner0, used0, i, blocks, used, Progress(NDIRECT, NINDIRECT, true))
    {
      var ind := inodes[i].addrs[NDIRECT];
      assert SlotOk(g, fs0, owner0, used0, i, NDIRECT);
      var data := blocks[ind];
      var j := 0;
      while j < NINDIRECT
        invariant 0 <= j <= NINDIRECT
        invariant Truncating(g, fs0, owner0, used0, i, blocks, used, Progress(NDIRECT, j, false))
      {
        FreeSlot(Word(data, j), NDIRECT + 1 + j, i, fs0, owner0, used0, Progress(NDIRECT, j, false),
          Progress(NDIRECT, j + 1, false));
        j := j + 1;
      }
      FreeSlot(ind, NDIRECT, i, fs0, owner0, used0, Progress(NDIRECT, NINDIRECT, false),
        Progress(NDIRECT, NINDIRECT, true));
    }

    /**
     itrunc(): exactly the blocks of inode i, data and indirect, become free, the
     "freeing free block" panic is never reached, and no other file changes.
     */
    method Itrunc(i: nat)
      requires Valid() && i < |inodes|
      modifies this
      ensures Valid() && |inodes| == |old(inodes)|
      ensures inodes == old(inodes)[i := Empty(old(inodes[i]))] && dinodes == old(dinodes)[i := inodes[i]]
      ensures forall b :: b in used <==> b in old(used) && !Names(old(State()), i, b)
      ensures Emptied(g, old(State()), old(used), State(), used, i)
      ensures forall k :: 0 <= k < |inodes| && k != i ==> Contents(State(), k) == Contents(old(State()), k)
    {
      ghost var fs0, done := State(), Progress(NDIRECT, 0, false);
      TruncateDirect(i);
      if inodes[i].addrs[NDIRECT] != 0 {
        TruncateIndirect(i, fs0, old(owner), old(used));
        done := Progress(NDIRECT, NINDIRECT, true);
        inodes := inodes[i := inodes[i].(addrs := inodes[i].addrs[NDIRECT := 0])];
      }
      inodes := inodes[i := inodes[i].(size := 0)];
      AllZero(fs0.inodes[i], inodes[i]);
      assert State() == FS(blocks, fs0.inodes[i := Empty(fs0.inodes[i])]);
      TruncSummary(g, fs0, old(owner), old(used), i, blocks, used, done);
      Iupdate(i);
    }
  }
}
