/**
 filewrite() (kernel/file.c): a write to a file, cut into transactions small enough for the
 log, as one splice of the file's contents.
 */
module FileWrites {

  import opened Basics
  import opened Blocks
  import opened Bitmap
  import opened Inodes
  import opened FileSystem

  /**
   How much filewrite() writes in one transaction: the most whole blocks that, counted twice and with four more for the
   inode, the indirect block and a block at either end, stay within the reservation.
   */
  function ChunkSize(maxop: nat): (n: nat)
    requires maxop >= 6
    ensures n >= BSIZE && n % BSIZE == 0 && 2 * (n / BSIZE) + 4 <= maxop < 2 * (n / BSIZE + 1) + 4
  {
    (maxop - 1 - 1 - 2) / 2 * BSIZE
  }

  /** Where the transactions of a write of n bytes begin, and the last of them ends: each takes as much as it may. */
  ghost predicate Plan(cuts: seq<nat>, n: nat, max: nat) {
    && |cuts| > 0 && cuts[0] == 0
    && forall t {:trigger PlanAt(cuts, n, max, t)} :: 0 <= t < |cuts| - 1 ==> PlanAt(cuts, n, max, t)
  }

  ghost predicate PlanAt(cuts: seq<nat>, n: nat, max: nat, t: nat)
    requires t < |cuts| - 1
  {
    cuts[t] < n && cuts[t + 1] == cuts[t] + Min(n - cuts[t], max)
  }

  /** The transaction of turn t, in a write at off, meets a fault. */
  ghost predicate TurnFaults(cuts: seq<nat>, off: nat, t: nat, faults: nat -> (nat, nat))
    requires t < |cuts| - 1
  {
    cuts[t] <= cuts[t + 1] && FaultsIn(off + cuts[t], cuts[t + 1] - cuts[t], faults(t).0)
  }

  /** The transactions have written the first done of n bytes, and none met a fault. */
  ghost predicate Through(off: nat, n: nat, size: nat, max: nat, cuts: seq<nat>, done: nat, faults: nat -> (nat, nat)) {
    && Plan(cuts, n, max) && done == cuts[|cuts| - 1] && (done > 0 ==> off <= size && off + done <= MAXSIZE)
    && forall t {:trigger TurnFaults(cuts, off, t, faults)} :: 0 <= t < |cuts| - 1 ==> !TurnFaults(cuts, off, t, faults)
  }

  /**
   Why a transaction from done up to next fell short, r bytes on: it was refused, met a fault, or the disk is full.
   */
  ghost predicate Falls(off: nat, size: nat, done: nat, next: nat, r: nat, fault: nat, full: bool) {
    && done + r < next
    && ((r == 0 && (off > size || off + next > MAXSIZE)) || StopsAt(off + done, next - done, fault, r) || full)
  }

  /** A write of n bytes stopped at off', in the last transaction. */
  ghost predicate CutShort(off: nat, n: nat, size: nat, max: nat, cuts: seq<nat>, off': nat, faults: nat -> (nat, nat),
                           full: bool) {
    && Plan(cuts, n, max) && |cuts| >= 2
    && var (t, done) := (|cuts| - 2, cuts[|cuts| - 2]);
      off + done <= off' && Falls(off, size, done, cuts[t + 1], off' - off - done, faults(t).0, full)
  }

  lemma {:induction false} PlanMore(cuts: seq<nat>, n: nat, max: nat, next: nat)
    requires Plan(cuts, n, max) && cuts[|cuts| - 1] < n && next == cuts[|cuts| - 1] + Min(n - cuts[|cuts| - 1], max)
    ensures Plan(cuts + [next], n, max)
  {
    var more := cuts + [next];
    forall t {:trigger PlanAt(more, n, max, t)} | 0 <= t < |more| - 1 ensures PlanAt(more, n, max, t) {
      if t < |cuts| - 1 { assert PlanAt(cuts, n, max, t); }
    }
  }

  lemma {:induction false} TurnThrough(off: nat, n: nat, size: nat, max: nat, cuts: seq<nat>, done: nat, m: nat,
                                       faults: nat -> (nat, nat))
    requires Through(off, n, size, max, cuts, done, faults) && done < n && off <= size
    requires m == Min(n - done, max) && off + done + m <= MAXSIZE && !FaultsIn(off + done, m, faults(|cuts| - 1).0)
    ensures Through(off, n, size, max, cuts + [done + m], done + m, faults)
  {
    var more := cuts + [done + m];
    PlanMore(cuts, n, max, done + m);
    forall t {:trigger TurnFaults(more, off, t, faults)} | 0 <= t < |more| - 1
      ensures !TurnFaults(more, off, t, faults)
    {
      if t < |cuts| - 1 { assert !TurnFaults(cuts, off, t, faults); }
    }
  }

  lemma {:induction false} TurnCut(off: nat, n: nat, size: nat, max: nat, cuts: seq<nat>, done: nat, m: nat, r: nat,
                                   faults: nat -> (nat, nat), full: bool)
    requires Through(off, n, size, max, cuts, done, faults) && done < n && m == Min(n - done, max)
    requires Falls(off, size, done, done + m, r, faults(|cuts| - 1).0, full)
    ensures CutShort(off, n, size, max, cuts + [done + m], off + done + r, faults, full)
  {
    PlanMore(cuts, n, max, done + m);
  }

  /** What writei() does to the files, when it returns r and w bytes reached the blocks. */
  ghost predicate Transacted(fs: FS, fs': FS, i: nat, off: nat, src: seq<byte>, r: int, w: nat) {
    && i < |fs.inodes| == |fs'.inodes| && -1 <= r <= |src|
    && (r < 0 <==> off > fs.inodes[i].size || off + |src| > MAXSIZE) && (r < 0 ==> fs' == fs)
    && (r >= 0 ==>
          && r <= w <= |src| && w <= r + BSIZE && fs'.inodes[i].size == Max(fs.inodes[i].size, off + r)
          && Contents(fs', i) == Spliced(Contents(fs, i), off, src[..w])[..fs'.inodes[i].size])
    && (r == |src| ==> Contents(fs', i) == Spliced(Contents(fs, i), off, src))
    && forall k :: 0 <= k < |fs.inodes| && k != i ==> Contents(fs', k) == Contents(fs, k)
  }

  /** A file written up to off': it has grown to that if need be, and holds the first w bytes of the source. */
  ghost predicate WrittenUpTo(fs0: FS, fs: FS, i: nat, off: nat, src: seq<byte>, off': nat, w: nat) {
    && i < |fs.inodes| == |fs0.inodes| && off <= off'
    && (forall k :: 0 <= k < |fs.inodes| && k != i ==> Contents(fs, k) == Contents(fs0, k))
    && if off > fs0.inodes[i].size then fs == fs0 && off' == off
       else
         && off' - off <= w <= |src| && w <= off' - off + BSIZE
         && fs.inodes[i].size == Max(fs0.inodes[i].size, off')
         && Contents(fs, i) == Spliced(Contents(fs0, i), off, src[..w])[..fs.inodes[i].size]
  }

  lemma {:induction false} NothingYet(fs: FS, i: nat, off: nat, src: seq<byte>)
    requires i < |fs.inodes|
    ensures WrittenUpTo(fs, fs, i, off, src, off, 0)
  {
    if off <= fs.inodes[i].size {
      SplicedTwice(Contents(fs, i), off, src, 0, 0);
      var o := Contents(fs, i);
      assert o[..|o|] == o;
    }
  }

  /** One more transaction, of n bytes from done on. */
  lemma {:induction false} OneMoreWritten(fs0: FS, fs: FS, fs': FS, i: nat, off: nat, src: seq<byte>, done: nat,
                                          n: nat, r: int, w: nat)
    requires WrittenUpTo(fs0, fs, i, off, src, off + done, done) && done + n <= |src|
    requires Transacted(fs, fs', i, off + done, src[done..done + n], r, w)
    ensures r < 0 ==> WrittenUpTo(fs0, fs', i, off, src, off + done, done)
    ensures r >= 0 ==> WrittenUpTo(fs0, fs', i, off, src, off + done + r, done + w)
  {
    if r >= 0 {
      var o := Contents(fs0, i);
      assert src[done..done + n][..w] == src[done..done + w];
      SplicedTwice(o, off, src, done, w);
      var s := Spliced(o, off, src[..done]);
      assert s[..|s|] == s;
    }
  }

  /** filewrite()'s loop: up to off', with done bytes written for good, and whether a transaction has fallen short. */
  ghost predicate InProgress(fs0: FS, fs: FS, i: nat, off: nat, src: seq<byte>, size: nat, max: nat, cuts: seq<nat>,
                             done: nat, off': nat, w: nat, short: bool, faults: nat -> (nat, nat), full: bool)
  {
    && WrittenUpTo(fs0, fs, i, off, src, off', w) && done <= |src|
    && if short then CutShort(off, |src|, size, max, cuts, off', faults, full)
       else off' == off + done && w == done && Through(off, |src|, size, max, cuts, done, faults)
  }

  /** One more turn, of m bytes, whose writei() returned r. */
  lemma {:induction false} Progress(fs0: FS, fs: FS, fs': FS, i: nat, off: nat, src: seq<byte>, size: nat, max: nat,
                                    cuts: seq<nat>, done: nat, m: nat, r: int, w: nat, faults: nat -> (nat, nat),
                                    full: bool)
    requires WrittenUpTo(fs0, fs, i, off, src, off + done, done) && size == fs0.inodes[i].size && 0 < max
    requires Through(off, |src|, size, max, cuts, done, faults) && done < |src| && m == Min(|src| - done, max)
    requires Transacted(fs, fs', i, off + done, src[done..done + m], r, w)
    requires r == m ==> !FaultsIn(off + done, m, faults(|cuts| - 1).0)
    requires 0 <= r < m ==> StopsAt(off + done, m, faults(|cuts| - 1).0, r) || full
    ensures InProgress(fs0, fs', i, off, src, size, max, cuts + [done + m], if r == m then done + r else done,
                       if r > 0 then off + done + r else off + done,
                       if r < 0 then done else done + w, r != m, faults, full)
  {
    OneMoreWritten(fs0, fs, fs', i, off, src, done, m, r, w);
    if r == m {
      TurnThrough(off, |src|, size, max, cuts, done, m, faults);
    } else {
      TurnCut(off, |src|, size, max, cuts, done, m, if r > 0 then r else 0, faults, full);
    }
  }

  ghost predicate AllBelow(counts: seq<nat>, n: nat) {
    forall c {:trigger counts[c]} :: 0 <= c < |counts| ==> counts[c] < n
  }

  // ---------------------------------------------------------------- the loop

  /** One begin_op(), writei(), end_op() of filewrite(); c is the number of blocks it logs. */
  method WriteTransaction(f: FileSys, i: nat, off: nat, src: seq<byte>, maxop: nat, fault: (nat, nat))
    returns (r: int, ghost w: nat, ghost c: nat)
    requires f.Valid() && i < |f.inodes| && off < U32_LIMIT && maxop >= 6 && |src| <= ChunkSize(maxop) &&
      |src| < U32_LIMIT
    modifies f
    ensures f.Valid() && Transacted(old(f.State()), f.State(), i, off, src, r, w)
    ensures r == |src| ==> !FaultsIn(off, |src|, fault.0)
    ensures 0 <= r < |src| ==> StopsAt(off, |src|, fault.0, r) || FreeCount(f.used, f.g.size) == 0
    ensures f.g.size < BPB ==> c < maxop
  {
    f.logged := {};
    r, w := f.Writei(i, off, src, fault.0, fault.1);
    c := |f.logged|;
    if r >= 0 && f.g.size < BPB { OneTransaction(f.g, f.State(), i, off, |src|, maxop, f.logged); }
  }

  /** A turn of filewrite()'s loop: n1 bytes from done on. */
  method WriteTurn(f: FileSys, i: nat, off: nat, src: seq<byte>, done: nat, n1: nat, maxop: nat, fault: (nat, nat),
                   faults: nat -> (nat, nat), ghost fs0: FS, ghost size: nat, ghost cuts: seq<nat>)
    returns (r: int, ghost w: nat, ghost c: nat)
    requires f.Valid() && off < U32_LIMIT && |src| < U32_LIMIT && maxop >= 6 && done < |src| && i < |fs0.inodes| &&
      size == fs0.inodes[i].size
    requires WrittenUpTo(fs0, f.State(), i, off, src, off + done, done) && n1 == Min(|src| - done, ChunkSize(maxop))
    requires Through(off, |src|, size, ChunkSize(maxop), cuts, done, faults) && fault == faults(|cuts| - 1)
    modifies f
    ensures f.Valid() && (f.g.size < BPB ==> c < maxop) && r <= n1
    ensures InProgress(fs0, f.State(), i, off, src, size, ChunkSize(maxop), cuts + [done + n1],
                       if r == n1 then done + r else done, if r > 0 then off + done + r else off + done, w, r != n1,
                       faults, FreeCount(f.used, f.g.size) == 0)
  {
    ghost var fs := f.State();
    ghost var w1;
    r, w1, c := WriteTransaction(f, i, off + done, src[done..done + n1], maxop, fault);
    Progress(fs0, fs, f.State(), i, off, src, size, ChunkSize(maxop), cuts, done, n1, r, w1, faults,
      FreeCount(f.used, f.g.size) == 0);
    w := if r < 0 then done else done + w1;
  }

  /**
   filewrite() on an inode: the write is cut into transactions of at most
   ((MAXOPBLOCKS - 4) / 2) blocks.  When it returns n the file has the whole
   source spliced in.  It returns -1 only if the last of its transactions was
   refused or met a fault, or the disk is full; then the file has the source as
   far as off' tells, and perhaps part of one more block.  With a bitmap of one
   block no transaction logs more than MAXOPBLOCKS - 1 blocks, as counts records.
   faults says what the user memory does during each writei().
   */
  method Filewrite(f: FileSys, i: nat, off: nat, src: seq<byte>, MAXOPBLOCKS: nat, faults: nat -> (nat, nat))
    returns (ret: int, off': nat, ghost w: nat, ghost cuts: seq<nat>, ghost counts: seq<nat>)
    requires f.Valid() && i < |f.inodes| && off < U32_LIMIT && |src| < U32_LIMIT && MAXOPBLOCKS >= 6
    modifies f
    ensures f.Valid() && (ret == |src| || ret == -1) && (ret == |src| ==> off' == off + |src| && w == |src|)
    ensures InProgress(old(f.State()), f.State(), i, off, src, old(f.inodes[i]).size, ChunkSize(MAXOPBLOCKS), cuts,
                       if ret == -1 then 0 else |src|, off', w, ret == -1, faults, FreeCount(f.used, f.g.size) == 0)
    ensures |counts| == |cuts| - 1 && (f.g.size < BPB ==> AllBelow(counts, MAXOPBLOCKS))
  {
    ghost var fs0, size := f.State(), f.inodes[i].size;
    var max, done, turns := ChunkSize(MAXOPBLOCKS), 0, 0;
    off', w, cuts, counts := off, 0, [0], [];
    NothingYet(fs0, i, off, src);
    while done < |src|
      invariant f.Valid() && |counts| == turns == |cuts| - 1 && (f.g.size < BPB ==> AllBelow(counts, MAXOPBLOCKS))
      invariant off' == off + done && w == done <= |src| && WrittenUpTo(fs0, f.State(), i, off, src, off', w)
      invariant Through(off, |src|, size, max, cuts, done, faults)
    {
      var n1 := Min(|src| - done, max);
      var r, w1, c := WriteTurn(f, i, off, src, done, n1, MAXOPBLOCKS, faults(turns), faults, fs0, size, cuts);
      counts, cuts, turns, w := counts + [c], cuts + [done + n1], turns + 1, w1;
      if r > 0 { off' := off' + r; }
      if r != n1 { return -1, off', w, cuts, counts; }
      done := done + r;
    }
    ret := |src|;
  }
}
