/**
 The invariant that ties the buffer cache to the disk and to the file system's
 view of it, and what each elementary action on a buffer does to that invariant.

 latest is what a reader of a block must see: the contents of the last log_write,
 or the disk's where the block was not logged since the last commit.  pins are
 the blocks whose latest contents are not at home on the disk yet, with the
 buffer each is pinned in.  users counts the references handed out by bget and not
 yet returned; dirty buffers have been changed by their lock holder and not logged.
 */
module Coherence {
  import opened Blocks
  import opened BufferCache

  datatype View = View(dev: nat, disk: Disk, latest: Disk, pins: map<nat, nat>, users: seq<nat>, dirty: set<nat>)

  /** One reference per user, and one for the log while the block is pinned. */
  ghost predicate RefsAt(b: Buf, users: nat, v: View) {
    && b.refcnt == users + (if b.dev == v.dev && b.blockno in v.pins then 1 else 0)
    && (b.locked ==> users > 0)
  }

  /** A valid clean buffer holds the latest contents of its block. */
  ghost predicate CleanAt(b: Buf, i: nat, v: View) {
    && (b.dev == v.dev && b.valid ==> b.blockno < |v.latest| && (i !in v.dirty ==> b.data == v.latest[b.blockno]))
    && (i in v.dirty ==> b.dev == v.dev && b.valid && b.locked)
  }

  /** A pinned block stays in its buffer. */
  ghost predicate PinAt(bufs: seq<Buf>, v: View, n: nat)
    requires n in v.pins
  {
    n < |v.disk| && v.pins[n] < |bufs| && bufs[v.pins[n]].Caches(v.dev, n) && bufs[v.pins[n]].valid
  }

  ghost predicate Coherent(bufs: seq<Buf>, v: View) {
    && v.dev != 0 && |v.users| == |bufs| && |v.latest| == |v.disk|
    && Unique(bufs)
    && (forall i :: i in v.dirty ==> 0 <= i < |bufs|)
    && (forall i {:trigger RefsAt(bufs[i], v.users[i], v)} :: 0 <= i < |bufs| ==> RefsAt(bufs[i], v.users[i], v))
    && (forall i {:trigger CleanAt(bufs[i], i, v)} :: 0 <= i < |bufs| ==> CleanAt(bufs[i], i, v))
    && (forall n :: n in v.pins ==> PinAt(bufs, v, n))
    && (forall n :: 0 <= n < |v.disk| && n !in v.pins ==> v.disk[n] == v.latest[n])
  }

  /** Recycling never drops an uninstalled update: an unused buffer is clean and not pinned. */
  lemma {:induction false} UnusedIsExpendable(bufs: seq<Buf>, v: View, i: nat)
    requires Coherent(bufs, v) && i < |bufs| && bufs[i].refcnt == 0
    ensures i !in v.dirty && !bufs[i].locked
    ensures forall n :: n in v.pins ==> v.pins[n] != i
    ensures bufs[i].dev == v.dev && bufs[i].valid ==>
              bufs[i].blockno < |v.disk| && bufs[i].data == v.disk[bufs[i].blockno]
  {
    assert RefsAt(bufs[i], v.users[i], v) && CleanAt(bufs[i], i, v);
    forall n | n in v.pins ensures v.pins[n] != i { assert PinAt(bufs, v, n); }
  }

  /** A user gets a reference to a buffer. */
  lemma {:induction false} Take(bufs: seq<Buf>, v: View, i: nat)
    requires Coherent(bufs, v) && i < |bufs|
    ensures Coherent(Referenced(bufs, i), Taken(v, i))
  {
    var b', v' := Referenced(bufs, i), Taken(v, i);
    SameBlocksUnique(bufs, b');
    forall n | n in v.pins ensures PinAt(b', v', n) { assert PinAt(bufs, v, n); }
    forall j | 0 <= j < |bufs| ensures RefsAt(b'[j], v'.users[j], v') && CleanAt(b'[j], j, v') {
      assert RefsAt(bufs[j], v.users[j], v) && CleanAt(bufs[j], j, v);
    }
  }

  /** An unused buffer is given to a block that is not cached. */
  lemma {:induction false} Recycle(bufs: seq<Buf>, v: View, i: nat, n: nat)
    requires Coherent(bufs, v) && i < |bufs| && bufs[i].refcnt == 0 && !Cached(bufs, v.dev, n)
    ensures n !in v.pins
    ensures Coherent(Recycled(bufs, i, v.dev, n), Taken(v, i))
  {
    var b' := Recycled(bufs, i, v.dev, n);
    RecycledUnique(bufs, i, v.dev, n);
    var v' := Taken(v, i);
    UnusedIsExpendable(bufs, v, i);
    assert n !in v.pins;
    forall m | m in v.pins ensures PinAt(b', v', m) { assert PinAt(bufs, v, m); }
    forall j | 0 <= j < |bufs| ensures RefsAt(b'[j], v'.users[j], v') && CleanAt(b'[j], j, v') {
      assert RefsAt(bufs[j], v.users[j], v) && CleanAt(bufs[j], j, v);
    }
  }

  /** Either way of getting a buffer from bget(). */
  lemma {:induction false} Get(bufs: seq<Buf>, v: View, i: nat, n: nat)
    requires Coherent(bufs, v) && i < |bufs|
    requires if Cached(bufs, v.dev, n) then bufs[i].Caches(v.dev, n) && !bufs[i].locked else bufs[i].refcnt == 0
    ensures i !in v.dirty && !bufs[i].locked
    ensures Coherent(if Cached(bufs, v.dev, n) then Referenced(bufs, i) else Recycled(bufs, i, v.dev, n),
                     Taken(v, i))
  {
    assert CleanAt(bufs[i], i, v);
    if Cached(bufs, v.dev, n) {
      Take(bufs, v, i);
    } else {
      Recycle(bufs, v, i, n);
      UnusedIsExpendable(bufs, v, i);
    }
  }

  lemma {:induction false} Lock(bufs: seq<Buf>, v: View, i: nat)
    requires Coherent(bufs, v) && i < |bufs| && v.users[i] > 0
    ensures Coherent(bufs[i := bufs[i].(locked := true)], v)
  {
    var b' := bufs[i := bufs[i].(locked := true)];
    SameBlocksUnique(bufs, b');
    forall n | n in v.pins ensures PinAt(b', v, n) { assert PinAt(bufs, v, n); }
    forall j | 0 <= j < |bufs| ensures RefsAt(b'[j], v.users[j], v) && CleanAt(b'[j], j, v) {
      assert RefsAt(bufs[j], v.users[j], v) && CleanAt(bufs[j], j, v);
    }
  }

  /** The lock holder changes the data: the buffer is dirty from now on. */
  lemma {:induction false} Scribble(bufs: seq<Buf>, v: View, i: nat, data: Block)
    requires Coherent(bufs, v) && i < |bufs| && bufs[i].locked && bufs[i].valid && bufs[i].dev == v.dev
    ensures Coherent(bufs[i := bufs[i].(valid := true, data := data)], v.(dirty := v.dirty + {i}))
  {
    var b', v' := bufs[i := bufs[i].(valid := true, data := data)], v.(dirty := v.dirty + {i});
    SameBlocksUnique(bufs, b');
    forall n | n in v.pins ensures PinAt(b', v', n) { assert PinAt(bufs, v, n); }
    forall j | 0 <= j < |bufs| ensures RefsAt(b'[j], v'.users[j], v') && CleanAt(b'[j], j, v') {
      assert RefsAt(bufs[j], v.users[j], v) && CleanAt(bufs[j], j, v);
    }
  }

  /** Reading a block into an invalid buffer: the disk has its latest contents. */
  lemma {:induction false} Fill(bufs: seq<Buf>, v: View, i: nat)
    requires Coherent(bufs, v) && i < |bufs| && bufs[i].locked && !bufs[i].valid
    requires bufs[i].dev == v.dev && bufs[i].blockno < |v.disk|
    ensures v.disk[bufs[i].blockno] == v.latest[bufs[i].blockno]
    ensures Coherent(bufs[i := bufs[i].(valid := true, data := v.disk[bufs[i].blockno])], v)
  {
    var b' := bufs[i := bufs[i].(valid := true, data := v.disk[bufs[i].blockno])];
    SameBlocksUnique(bufs, b');
    assert CleanAt(bufs[i], i, v);
    if bufs[i].blockno in v.pins { OthersElsewhere(bufs, v, i, v.pins[bufs[i].blockno]); }
    forall n | n in v.pins ensures PinAt(b', v, n) { assert PinAt(bufs, v, n); }
    forall j | 0 <= j < |bufs| ensures RefsAt(b'[j], v.users[j], v) && CleanAt(b'[j], j, v) {
      assert RefsAt(bufs[j], v.users[j], v) && CleanAt(bufs[j], j, v);
    }
  }

  function Stored(bufs: seq<Buf>, i: nat, data: Block): (r: seq<Buf>)
    requires i < |bufs|
  {
    bufs[i := bufs[i].(data := data)]
  }

  function Released(bufs: seq<Buf>, i: nat): (r: seq<Buf>)
    requires i < |bufs| && bufs[i].refcnt > 0
  {
    bufs[i := bufs[i].(locked := false, refcnt := bufs[i].refcnt - 1)]
  }

  function Taken(v: View, i: nat): (r: View)
    requires i < |v.users|
  {
    v.(users := v.users[i := v.users[i] + 1])
  }

  function Returned(v: View, i: nat): (r: View)
    requires i < |v.users| && v.users[i] > 0
  {
    v.(users := v.users[i := v.users[i] - 1])
  }

  /** A clean buffer is unlocked and its reference given back. */
  lemma {:induction false} Release(bufs: seq<Buf>, v: View, i: nat)
    requires Coherent(bufs, v) && i < |bufs| && bufs[i].locked && i !in v.dirty
    ensures v.users[i] > 0 && bufs[i].refcnt > 0
    ensures Coherent(Released(bufs, i), Returned(v, i))
  {
    assert RefsAt(bufs[i], v.users[i], v);
    var b', v' := Released(bufs, i), Returned(v, i);
    SameBlocksUnique(bufs, b');
    forall n | n in v.pins ensures PinAt(b', v', n) { assert PinAt(bufs, v, n); }
    forall j | 0 <= j < |bufs| ensures RefsAt(b'[j], v'.users[j], v') && CleanAt(b'[j], j, v') {
      assert RefsAt(bufs[j], v.users[j], v) && CleanAt(bufs[j], j, v);
    }
  }

  /** The view once the contents of buffer i are its block's latest. */
  function Published(bufs: seq<Buf>, v: View, i: nat): (r: View)
    requires i < |bufs| && bufs[i].blockno < |v.latest|
  {
    v.(latest := v.latest[bufs[i].blockno := bufs[i].data], dirty := v.dirty - {i})
  }

  /** No other buffer holds the block, so publishing one buffer makes no other stale. */
  lemma {:induction false} OthersElsewhere(bufs: seq<Buf>, v: View, i: nat, j: nat)
    requires Coherent(bufs, v) && i < |bufs| && j < |bufs| && i != j && bufs[i].dev == v.dev
    ensures !bufs[j].Caches(v.dev, bufs[i].blockno)
  {
    assert i < j ==> Apart(bufs[i], bufs[j]);
    assert j < i ==> Apart(bufs[j], bufs[i]);
  }

  /** log_write() of a block already in the log: its pinned buffer has the new contents. */
  lemma {:induction false} Absorb(bufs: seq<Buf>, v: View, i: nat)
    requires Coherent(bufs, v) && i < |bufs| && bufs[i].valid && bufs[i].dev == v.dev && bufs[i].blockno in v.pins
    ensures bufs[i].blockno < |v.latest| && Coherent(bufs, Published(bufs, v, i))
  {
    assert CleanAt(bufs[i], i, v);
    var v' := Published(bufs, v, i);
    forall n | n in v.pins ensures PinAt(bufs, v', n) { assert PinAt(bufs, v, n); }
    forall j | 0 <= j < |bufs| ensures RefsAt(bufs[j], v'.users[j], v') && CleanAt(bufs[j], j, v') {
      assert RefsAt(bufs[j], v.users[j], v) && CleanAt(bufs[j], j, v);
      if j != i { OthersElsewhere(bufs, v, i, j); }
    }
  }

  /** log_write() of a new block: the buffer is pinned as well. */
  lemma {:induction false} LogAndPin(bufs: seq<Buf>, v: View, i: nat)
    requires Coherent(bufs, v) && i < |bufs| && bufs[i].valid && bufs[i].dev == v.dev && bufs[i].blockno !in v.pins
    ensures bufs[i].blockno < |v.latest|
    ensures Coherent(bufs[i := bufs[i].(refcnt := bufs[i].refcnt + 1)],
                     Published(bufs, v, i).(pins := v.pins[bufs[i].blockno := i]))
  {
    assert CleanAt(bufs[i], i, v);
    var b' := bufs[i := bufs[i].(refcnt := bufs[i].refcnt + 1)];
    SameBlocksUnique(bufs, b');
    var v' := Published(bufs, v, i).(pins := v.pins[bufs[i].blockno := i]);
    forall n | n in v'.pins ensures PinAt(b', v', n) { if n in v.pins { assert PinAt(bufs, v, n); } }
    forall j | 0 <= j < |bufs| ensures RefsAt(b'[j], v'.users[j], v') && CleanAt(b'[j], j, v') {
      assert RefsAt(bufs[j], v.users[j], v) && CleanAt(bufs[j], j, v);
      if j != i { OthersElsewhere(bufs, v, i, j); }
    }
  }

  /** bwrite(): the contents of buffer i go to the disk. */
  lemma {:induction false} WriteThrough(bufs: seq<Buf>, v: View, i: nat)
    requires Coherent(bufs, v) && i < |bufs| && bufs[i].valid && bufs[i].dev == v.dev
    ensures bufs[i].blockno < |v.latest|
    ensures Coherent(bufs, Published(bufs, v, i).(disk := v.disk[bufs[i].blockno := bufs[i].data]))
  {
    assert CleanAt(bufs[i], i, v);
    var v' := Published(bufs, v, i).(disk := v.disk[bufs[i].blockno := bufs[i].data]);
    forall n | n in v.pins ensures PinAt(bufs, v', n) { assert PinAt(bufs, v, n); }
    forall j | 0 <= j < |bufs| ensures RefsAt(bufs[j], v'.users[j], v') && CleanAt(bufs[j], j, v') {
      assert RefsAt(bufs[j], v.users[j], v) && CleanAt(bufs[j], j, v);
      if j != i { OthersElsewhere(bufs, v, i, j); }
    }
  }

  function Unpinned(bufs: seq<Buf>, i: nat): (r: seq<Buf>)
    requires i < |bufs| && bufs[i].refcnt > 0
  {
    bufs[i := bufs[i].(refcnt := bufs[i].refcnt - 1)]
  }

  /** bunpin() of a block whose latest contents are at home. */
  lemma {:induction false} Unpin(bufs: seq<Buf>, v: View, i: nat)
    requires Coherent(bufs, v) && i < |bufs| && bufs[i].dev == v.dev && bufs[i].blockno in v.pins
    requires v.disk[bufs[i].blockno] == v.latest[bufs[i].blockno]
    ensures bufs[i].refcnt > 0
    ensures Coherent(Unpinned(bufs, i), v.(pins := v.pins - {bufs[i].blockno}))
  {
    assert RefsAt(bufs[i], v.users[i], v);
    var b' := Unpinned(bufs, i);
    SameBlocksUnique(bufs, b');
    var v' := v.(pins := v.pins - {bufs[i].blockno});
    forall n | n in v'.pins ensures PinAt(b', v', n) { assert PinAt(bufs, v, n); }
    forall j | 0 <= j < |bufs| ensures RefsAt(b'[j], v'.users[j], v') && CleanAt(b'[j], j, v') {
      assert RefsAt(bufs[j], v.users[j], v) && CleanAt(bufs[j], j, v);
      if j != i { OthersElsewhere(bufs, v, i, j); }
    }
  }
}
