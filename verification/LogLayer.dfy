/**
 The logging layer (kernel/log.c) over the buffer cache and the disk.

 Every block write of the device is recorded in `writes`, so that a crash at any
 moment leaves the disk ApplyAll(boot, writes[..k]) for some k.  The buffer cache
 appears as its buffers; what bget() does to them is BufferCache.Gets.  A method
 that returns false, or None, models the panic named beside it.
 */
module LogLayer {
  import opened Basics
  import opened Blocks
  import opened BufferCache
  import opened Coherence
  import opened RedoLog

  /** Nobody but the log has buffers of log blocks, and no buffer of a block in P is locked. */
  ghost predicate Quiet(bufs: seq<Buf>, v: View, L: Layout, P: set<nat>)
    requires |v.users| == |bufs|
  {
    forall i :: 0 <= i < |bufs| && bufs[i].dev == v.dev ==>
      (L.InLog(bufs[i].blockno) ==> v.users[i] == 0) && (bufs[i].blockno in P ==> !bufs[i].locked)
  }

  /** Locked buffers belong to their holders: nothing about them changed, and no other buffer is locked now. */
  ghost predicate Undisturbed(was: seq<Buf>, now: seq<Buf>) {
    |was| == |now| && forall i :: 0 <= i < |was| && (was[i].locked || now[i].locked) ==> now[i] == was[i]
  }

  ghost function SetOf(s: seq<nat>): (r: set<nat>)
    ensures forall x :: x in r <==> x in s
  {
    set x | x in s
  }

  /** The latest contents of the logged blocks, in log order. */
  ghost function Updates(v: View, lh: seq<nat>): (data: seq<Block>)
    requires forall i :: 0 <= i < |lh| ==> lh[i] < |v.latest|
    ensures |data| == |lh|
    ensures forall i :: 0 <= i < |lh| ==> data[i] == v.latest[lh[i]]
  {
    seq(|lh|, i requires 0 <= i < |lh| => v.latest[lh[i]])
  }

  /** A buffer used for a log block and given back leaves the rest as it was. */
  lemma {:induction false} IdleAgain(bufs: seq<Buf>, v: View, i: nat, lb: nat, data: Block, L: Layout, P: set<nat>)
    requires |v.users| == |bufs| && i < |bufs| && v.users[i] == 0 && !bufs[i].locked
    requires Quiet(bufs, v, L, P) && lb !in P
    ensures var now := bufs[i := Buf(v.dev, lb, true, 0, false, data)];
            HasUnused(now) && Quiet(now, v, L, P) && Undisturbed(bufs, now)
  {
    var now := bufs[i := Buf(v.dev, lb, true, 0, false, data)];
    assert now[i].refcnt == 0;
  }

  /** Buffer i was read for a log block, j for a cached block; the data of j went into i; both were released. */
  lemma {:induction false} TurnUndone(bufs: seq<Buf>, v: View, i: nat, j: nat, b: Buf, data: Block)
    requires i < |bufs| && j < |bufs| && i != j && b.refcnt == 1 && !bufs[j].locked
    requires |v.users| == |bufs|
    ensures var taken := bufs[i := b][j := bufs[j].(refcnt := bufs[j].refcnt + 1, locked := true)];
            Released(Released(Stored(taken, i, data), j), i) ==
              bufs[i := b.(locked := false, refcnt := 0, data := data)]
    ensures forall d, l ::
      Returned(Returned(Taken(Taken(v, i), j).(disk := d, latest := l), j), i) == v.(disk := d, latest := l)
  {
    var u := v.users;
    assert u[i := u[i] + 1][j := u[j] + 1][j := u[j]][i := u[i]] == u;
  }

  /** Buffer i was read, stored into and released. */
  lemma {:induction false} ReadUndone(bufs: seq<Buf>, v: View, i: nat, b: Buf, data: Block)
    requires i < |bufs| == |v.users| && b.refcnt == 1
    ensures Released(Stored(bufs[i := b], i, data), i) == bufs[i := b.(locked := false, refcnt := 0, data := data)]
    ensures forall d, l :: Returned(Taken(v, i).(disk := d, latest := l), i) == v.(disk := d, latest := l)
  {
    var u := v.users;
    assert u[i := u[i] + 1][i := u[i]] == u;
  }

  /** As TurnUndone, with the same data in both buffers, and j losing its pin as well. */
  lemma {:induction false} InstallUndone(bufs: seq<Buf>, v: View, i: nat, j: nat, b: Buf)
    requires i < |bufs| && j < |bufs| && i != j && b.refcnt == 1 && !bufs[j].locked && bufs[j].refcnt > 0
    requires |v.users| == |bufs| && bufs[j].data == b.data
    ensures var taken := bufs[i := b][j := bufs[j].(refcnt := bufs[j].refcnt + 1, locked := true)];
            var stored := Stored(taken, j, b.data);
            Released(Released(Unpinned(stored, j), i), j)
            == bufs[j := bufs[j].(refcnt := bufs[j].refcnt - 1)][i := b.(locked := false, refcnt := 0)]
    ensures forall d, p ::
      Returned(Returned(Taken(Taken(v, i), j).(disk := d, pins := p), i), j) == v.(disk := d, pins := p)
  {
    var u := v.users;
    assert u[i := u[i] + 1][j := u[j] + 1][i := u[i]][j := u[j]] == u;
  }

  lemma {:induction false} InstalledIdle(bufs: seq<Buf>, v: View, i: nat, j: nat, b: Buf, L: Layout, P: set<nat>)
    requires i < |bufs| && j < |bufs| && i != j && !bufs[i].locked && !bufs[j].locked && bufs[j].refcnt > 0
    requires |v.users| == |bufs| && v.users[i] == 0 && Quiet(bufs, v, L, P) && b.dev == v.dev && b.blockno !in P
    ensures var now := bufs[j := bufs[j].(refcnt := bufs[j].refcnt - 1)][i := b.(locked := false, refcnt := 0)];
            HasUnused(now) && Quiet(now, v, L, P) && Undisturbed(bufs, now)
  {
    var now := bufs[j := bufs[j].(refcnt := bufs[j].refcnt - 1)][i := b.(locked := false, refcnt := 0)];
    assert now[i].refcnt == 0;
  }

  /** Between v0 and v only log slots were written: the file system sees no difference. */
  ghost predicate OnlyLogChanged(L: Layout, v0: View, v: View) {
    v == v0.(disk := v.disk, latest := v.latest) && SameHome(L, v.latest, v0.latest)
  }

  /** write_log() has written k slots since the writes, the view and the buffers were w0, v0 and b0. */
  ghost predicate SlotsWritten(L: Layout, lh: seq<nat>, k: nat, w0: seq<Write>, v0: View, b0: seq<Buf>,
                               writes: seq<Write>, v: View, bufs: seq<Buf>)
  {
    && GoodTransaction(L, lh) && v.pins.Keys == SetOf(lh) && v.dirty == {} && |v.users| == |bufs|
    && OnlyLogChanged(L, v0, v) && v.latest[L.start] == v0.latest[L.start]
    && k <= |lh| && writes == w0 + LogWrites(L, Updates(v0, lh)[..k])
    && (k == 0 ==> v == v0 && bufs == b0)
    && (k > 0 ==> HasUnused(bufs) && HasUnused(b0))
    && Quiet(bufs, v, L, v.pins.Keys) && Undisturbed(b0, bufs)
  }

  lemma {:induction false} NoSlots(L: Layout, lh: seq<nat>, w: seq<Write>, v: View, b: seq<Buf>)
    requires GoodTransaction(L, lh) && v.pins.Keys == SetOf(lh) && v.dirty == {} && |v.users| == |b|
    requires |v.latest| == L.blocks && Quiet(b, v, L, v.pins.Keys)
    ensures SlotsWritten(L, lh, 0, w, v, b, w, v, b)
  {
    assert LogWrites(L, Updates(v, lh)[..0]) == [];
  }

  lemma {:induction false} OneMoreSlot(L: Layout, lh: seq<nat>, k: nat, w0: seq<Write>, v0: View, b0: seq<Buf>,
                    w: seq<Write>, v: View, b: seq<Buf>, w': seq<Write>, v': View, b': seq<Buf>)
    requires k < |lh| && SlotsWritten(L, lh, k, w0, v0, b0, w, v, b) && L.Slot(k) < |v.latest|
    requires w' == w + [Write(L.Slot(k), v.latest[lh[k]])]
    requires v' == v.(disk := v'.disk, latest := v.latest[L.Slot(k) := v.latest[lh[k]]])
    requires HasUnused(b) && HasUnused(b') && |b| == |b'| && Quiet(b', v', L, v.pins.Keys) && Undisturbed(b, b')
    ensures SlotsWritten(L, lh, k + 1, w0, v0, b0, w', v', b')
  {
    assert L.IsHome(lh[k]) && v.latest[lh[k]] == Updates(v0, lh)[k];
    OneMoreLogWrite(L, w0, Updates(v0, lh), k, w, w');
  }

  /** Each log slot holds the latest contents of the block it is for. */
  ghost predicate SlotsHold(L: Layout, lh: seq<nat>, v: View) {
    && GoodTransaction(L, lh) && |v.latest| == L.blocks
    && forall i :: 0 <= i < |lh| ==> v.latest[L.Slot(i)] == v.latest[lh[i]]
  }

  /** install_trans() has put k blocks in their homes since w0, v0 and b0. */
  ghost predicate BlocksInstalled(L: Layout, lh: seq<nat>, k: nat, w0: seq<Write>, v0: View, b0: seq<Buf>,
                                  writes: seq<Write>, v: View, bufs: seq<Buf>)
  {
    && k <= |lh| && SlotsHold(L, lh, v) && v.dirty == {} && |v.users| == |bufs|
    && v == v0.(disk := v.disk, pins := v.pins) && v.pins.Keys == SetOf(lh[k..])
    && writes == w0 + TransactionWrites(lh[..k], Updates(v0, lh)[..k])
    && HasUnused(bufs) && Quiet(bufs, v, L, SetOf(lh)) && Undisturbed(b0, bufs)
  }

  /** Once write_log() is done the slots hold the transaction. */
  lemma {:induction false} SlotsNowHold(L: Layout, lh: seq<nat>, boot: Disk, w0: seq<Write>, v0: View, w: seq<Write>,
                                        v: View)
    requires GoodTransaction(L, lh) && |boot| == L.blocks == |v.latest| == |v.disk| && |v0.latest| == L.blocks
    requires v.pins.Keys == SetOf(lh) && SameHome(L, v.latest, v0.latest)
    requires forall n :: 0 <= n < |v.disk| && n !in v.pins ==> v.disk[n] == v.latest[n]
    requires w == w0 + LogWrites(L, Updates(v0, lh)) && v.disk == ApplyAll(boot, w)
    ensures SlotsHold(L, lh, v)
  {
    var data := Updates(v0, lh);
    ApplyAllConcat(boot, w0, LogWrites(L, data));
    LoggedAreHome(L, lh, 0);
    assert lh[0..] == lh;
    forall i | 0 <= i < |lh| ensures v.latest[L.Slot(i)] == v.latest[lh[i]] {
      LogSlotsHold(L, ApplyAll(boot, w0), data, i);
      assert L.IsHome(lh[i]) && !L.IsHome(L.Slot(i));
      assert v.disk[L.Slot(i)] == v.latest[L.Slot(i)];
    }
  }

  lemma {:induction false} HeaderKeepsSlots(L: Layout, lh: seq<nat>, v: View, h: Block)
    requires SlotsHold(L, lh, v)
    ensures SlotsHold(L, lh, v.(latest := v.latest[L.start := h]))
  {
    var l' := v.latest[L.start := h];
    forall i | 0 <= i < |lh| ensures l'[L.Slot(i)] == l'[lh[i]] {
      assert v.latest[L.Slot(i)] == v.latest[lh[i]] && L.IsHome(lh[i]);
    }
  }

  /** write_log() followed by the header write. */
  lemma {:induction false} PublishSummary(L: Layout, lh: seq<nat>, boot: Disk, w0: seq<Write>, v0: View, b0: seq<Buf>,
                       w1: seq<Write>, v1: View, b1: seq<Buf>, w: seq<Write>, v: View, b: seq<Buf>)
    requires L.Valid() && |boot| == L.blocks && SlotsWritten(L, lh, |lh|, w0, v0, b0, w1, v1, b1)
    requires v1.disk == ApplyAll(boot, w1)
    requires forall n :: 0 <= n < |v1.disk| && n !in v1.pins ==> v1.disk[n] == v1.latest[n]
    requires w == w1 + [Write(L.start, PutHeader(v1.latest[L.start], lh))] && Undisturbed(b1, b)
    requires v == v1.(disk := v.disk, latest := v1.latest[L.start := PutHeader(v1.latest[L.start], lh)])
    ensures w == w0 + LogWrites(L, Updates(v0, lh)) + [Write(L.start, PutHeader(v0.latest[L.start], lh))]
    ensures OnlyLogChanged(L, v0, v) && v.latest[L.start] == PutHeader(v0.latest[L.start], lh)
    ensures SlotsHold(L, lh, v) && Undisturbed(b0, b)
  {
    assert Updates(v0, lh)[..|lh|] == Updates(v0, lh);
    SlotsNowHold(L, lh, boot, w0, v0, w1, v1);
    HeaderKeepsSlots(L, lh, v1, PutHeader(v1.latest[L.start], lh));
  }

  /** The writes of a finished commit leave a recoverable disk with an empty log. */
  lemma {:induction false} CommitLeavesIdle(L: Layout, boot: Disk, w0: seq<Write>, lh: seq<nat>, data: seq<Block>)
    requires |boot| == L.blocks && GoodTransaction(L, lh) && |data| == |lh|
    requires Recoverable(L, ApplyAll(boot, w0)) && HeaderCount(ApplyAll(boot, w0)[L.start]) == 0
    ensures var e := ApplyAll(boot, w0 + CommitWrites(L, ApplyAll(boot, w0)[L.start], lh, data));
            Recoverable(L, e) && HeaderCount(e[L.start]) == 0
  {
    var d := ApplyAll(boot, w0);
    var ws := CommitWrites(L, d[L.start], lh, data);
    ApplyAllConcat(boot, w0, ws);
    assert ws[..|ws|] == ws;
    CommitCrashAtomic(L, d, d[L.start], lh, data, |ws|);
  }

  /** A transaction's writes on the disk give what readers saw through the cache. */
  lemma {:induction false} TransactionIsLatest(L: Layout, d: Disk, v: View, lh: seq<nat>, b: nat)
    requires GoodTransaction(L, lh) && |d| == |v.latest| == L.blocks && b < L.blocks
    requires b in lh || d[b] == v.latest[b]
    ensures ApplyAll(d, TransactionWrites(lh, Updates(v, lh)))[b] == v.latest[b]
    decreases |lh|
  {
    var ws := TransactionWrites(lh, Updates(v, lh));
    if lh != [] {
      var n := |lh| - 1;
      assert Updates(v, lh)[..n] == Updates(v, lh[..n]);
      assert ws[..n] == TransactionWrites(lh[..n], Updates(v, lh[..n]));
      if lh[n] != b {
        assert b in lh ==> b in lh[..n] by { assert lh == lh[..n] + [lh[n]]; }
        forall i, j {:trigger Differ(lh[..n], i, j)} | 0 <= i < j < n
          ensures Differ(lh[..n], i, j)
        {
          assert Differ(lh, i, j);
        }
        TransactionIsLatest(L, d, v, lh[..n], b);
      }
    }
  }

  /** What a crash after the writes w0, and the first j of a commit's, recovers to. */
  ghost predicate AllOrNothing(L: Layout, boot: Disk, w: seq<Write>, none: Disk, all: Disk, committed: bool) {
    Recoverable(L, ApplyAll(boot, w)) && SameHome(L, Replay(L, ApplyAll(boot, w)), if committed then all else none)
  }

  lemma {:induction false} SameHomeTransitive(L: Layout, a: Disk, b: Disk, c: Disk)
    requires SameHome(L, a, b) && SameHome(L, b, c)
    ensures SameHome(L, a, c)
  {
  }

  /** A crash after any number of a commit's writes recovers to all of the transaction or to none. */
  lemma {:induction false} PrefixAt(L: Layout, boot: Disk, w0: seq<Write>, lh: seq<nat>, v0: View, j: nat)
    requires |boot| == L.blocks && GoodTransaction(L, lh) && v0.disk == ApplyAll(boot, w0)
    requires Recoverable(L, v0.disk) && HeaderCount(v0.disk[L.start]) == 0
    requires |v0.latest| == L.blocks && forall n :: 0 <= n < L.blocks && n !in lh ==> v0.disk[n] == v0.latest[n]
    requires j <= |CommitWrites(L, v0.disk[L.start], lh, Updates(v0, lh))|
    ensures var ws := CommitWrites(L, v0.disk[L.start], lh, Updates(v0, lh));
            && AllOrNothing(L, boot, w0 + ws[..j], v0.disk, v0.latest, j > |lh|)
            && (j == |ws| ==> SameHome(L, ApplyAll(boot, w0 + ws[..j]), v0.latest))
  {
    var d, data := v0.disk, Updates(v0, lh);
    var ws, post := CommitWrites(L, d[L.start], lh, data), ApplyAll(d, TransactionWrites(lh, data));
    assert SameHome(L, post, v0.latest) by {
      forall b: nat | L.IsHome(b) ensures post[b] == v0.latest[b] { TransactionIsLatest(L, d, v0, lh, b); }
    }
    ApplyAllConcat(boot, w0, ws[..j]);
    CommitCrashAtomic(L, d, d[L.start], lh, data, j);
    var e := ApplyAll(d, ws[..j]);
    if j > |lh| { SameHomeTransitive(L, Replay(L, e), post, v0.latest); }
    if j == |ws| { SameHomeTransitive(L, e, post, v0.latest); }
  }

  lemma {:induction false} TakeOfConcat(us: seq<Write>, ws: seq<Write>, w: seq<Write>, k: nat)
    requires us <= w <= us + ws && |us| <= k <= |w|
    ensures k - |us| <= |ws| && w[..k] == us + ws[..k - |us|]
  {
  }

  lemma {:induction false} CommitCutAt(L: Layout, boot: Disk, w0: seq<Write>, lh: seq<nat>, v0: View, w: seq<Write>,
                                       k: nat)
    requires |boot| == L.blocks && GoodTransaction(L, lh) && v0.disk == ApplyAll(boot, w0)
    requires Recoverable(L, v0.disk) && HeaderCount(v0.disk[L.start]) == 0
    requires |v0.latest| == L.blocks && forall n :: 0 <= n < L.blocks && n !in lh ==> v0.disk[n] == v0.latest[n]
    requires w0 <= w <= w0 + CommitWrites(L, v0.disk[L.start], lh, Updates(v0, lh)) && |w0| <= k <= |w|
    ensures AllOrNothing(L, boot, w[..k], v0.disk, v0.latest, k > |w0| + |lh|)
  {
    var j := k - |w0|;
    TakeOfConcat(w0, CommitWrites(L, v0.disk[L.start], lh, Updates(v0, lh)), w, k);
    PrefixAt(L, boot, w0, lh, v0, j);
  }

  /** A crash at any moment after the writes w and up to w' recovers to none or, when n + 1 more are done, to all. */
  ghost predicate EveryCrash(L: Layout, boot: Disk, w: seq<Write>, w': seq<Write>, none: Disk, all: Disk, n: nat) {
    w <= w' && forall k :: |w| <= k <= |w'| ==> AllOrNothing(L, boot, w'[..k], none, all, k > |w| + n)
  }

  lemma {:induction false} EveryPrefix(L: Layout, boot: Disk, w0: seq<Write>, lh: seq<nat>, v0: View, w: seq<Write>)
    requires |boot| == L.blocks && GoodTransaction(L, lh) && v0.disk == ApplyAll(boot, w0)
    requires Recoverable(L, v0.disk) && HeaderCount(v0.disk[L.start]) == 0
    requires |v0.latest| == L.blocks && forall n :: 0 <= n < L.blocks && n !in lh ==> v0.disk[n] == v0.latest[n]
    requires w0 <= w <= w0 + CommitWrites(L, v0.disk[L.start], lh, Updates(v0, lh))
    ensures EveryCrash(L, boot, w0, w, v0.disk, v0.latest, |lh|)
  {
    forall k | |w0| <= k <= |w| ensures AllOrNothing(L, boot, w[..k], v0.disk, v0.latest, k > |w0| + |lh|) {
      CommitCutAt(L, boot, w0, lh, v0, w, k);
    }
  }

  /** How many writes a commit issues. */
  function CommitCost(lh: seq<nat>): nat {
    if lh == [] then 0 else 2 * |lh| + 2
  }

  /** All of a commit's writes bring the latest contents home. */
  lemma {:induction false} CommitBringsHome(L: Layout, boot: Disk, w0: seq<Write>, lh: seq<nat>, v0: View)
    requires |boot| == L.blocks && GoodTransaction(L, lh) && v0.disk == ApplyAll(boot, w0)
    requires Recoverable(L, v0.disk) && HeaderCount(v0.disk[L.start]) == 0
    requires |v0.latest| == L.blocks && forall n :: 0 <= n < L.blocks && n !in lh ==> v0.disk[n] == v0.latest[n]
    ensures SameHome(L, ApplyAll(boot, w0 + CommitWrites(L, v0.disk[L.start], lh, Updates(v0, lh))), v0.latest)
  {
    var ws := CommitWrites(L, v0.disk[L.start], lh, Updates(v0, lh));
    assert ws[..|ws|] == ws;
    PrefixAt(L, boot, w0, lh, v0, |ws|);
  }

  lemma {:induction false} OneMoreInstalled(L: Layout, lh: seq<nat>, k: nat, w0: seq<Write>, v0: View, b0: seq<Buf>,
                         w: seq<Write>, v: View, b: seq<Buf>, w': seq<Write>, v': View, b': seq<Buf>)
    requires k < |lh| && BlocksInstalled(L, lh, k, w0, v0, b0, w, v, b)
    requires w' == w + [Write(lh[k], v.latest[lh[k]])]
    requires v' == v.(disk := v'.disk, pins := v.pins - {lh[k]})
    requires HasUnused(b') && |b| == |b'| && Quiet(b', v', L, SetOf(lh)) && Undisturbed(b, b')
    ensures BlocksInstalled(L, lh, k + 1, w0, v0, b0, w', v', b')
  {
    RemoveFirst(lh, k);
    OneMoreHomeWrite(w0, lh, Updates(v0, lh), k, w, w');
  }

  /** The two halves of a commit together. */
  lemma {:induction false} CommitSummary(L: Layout, lh: seq<nat>, w0: seq<Write>, v0: View, w1: seq<Write>, v1: View,
                                         w2: seq<Write>, v2: View)
    requires lh != [] && GoodTransaction(L, lh) && OnlyLogChanged(L, v0, v1)
    requires w1 == w0 + LogWrites(L, Updates(v0, lh)) + [Write(L.start, PutHeader(v0.latest[L.start], lh))]
    requires v1.latest[L.start] == PutHeader(v0.latest[L.start], lh)
    requires w2 == w1 + TransactionWrites(lh, Updates(v1, lh)) + [Write(L.start, PutHeader(v1.latest[L.start], []))]
    requires v2 ==
      v1.(disk := v2.disk, pins := map[], latest := v1.latest[L.start := PutHeader(v1.latest[L.start], [])])
    ensures w2 == w0 + CommitWrites(L, v0.latest[L.start], lh, Updates(v0, lh))
    ensures SameHome(L, v2.latest, v0.latest)
  {
    var data, h := Updates(v0, lh), v0.latest[L.start];
    assert Updates(v1, lh) == data by {
      forall i | 0 <= i < |lh| ensures v1.latest[lh[i]] == data[i] { assert L.IsHome(lh[i]); }
    }
    var a, t := LogWrites(L, data), TransactionWrites(lh, data);
    var x, y := Write(L.start, PutHeader(h, lh)), Write(L.start, PutHeader(PutHeader(h, lh), []));
    assert ((w0 + a) + [x]) + t + [y] == w0 + (a + [x] + t + [y]);
  }

  lemma {:induction false} AllInstalled(L: Layout, lh: seq<nat>, w0: seq<Write>, v0: View, b0: seq<Buf>,
                                        w: seq<Write>, v: View, b: seq<Buf>)
    requires BlocksInstalled(L, lh, |lh|, w0, v0, b0, w, v, b)
    ensures v == v0.(disk := v.disk, pins := map[]) && w == w0 + TransactionWrites(lh, Updates(v0, lh))
    ensures Quiet(b, v, L, {})
  {
    assert lh[..|lh|] == lh && lh[|lh|..] == [] && Updates(v0, lh)[..|lh|] == Updates(v0, lh);
    assert v.pins.Keys == {};
  }

  lemma {:induction false} LoggedAreHome(L: Layout, lh: seq<nat>, k: nat)
    requires GoodTransaction(L, lh) && k <= |lh|
    ensures forall b :: b in SetOf(lh[k..]) ==> L.IsHome(b)
    ensures forall b :: b in SetOf(lh) ==> L.IsHome(b)
    ensures L.start !in SetOf(lh) && lh[0..] == lh
  {
  }

  lemma {:induction false} AppendLogged(L: Layout, lh: seq<nat>, b: nat)
    requires GoodTransaction(L, lh) && |lh| < L.size && L.IsHome(b) && b !in lh
    ensures GoodTransaction(L, lh + [b]) && SetOf(lh + [b]) == SetOf(lh) + {b}
  {
    var r := lh + [b];
    forall i, j {:trigger Differ(r, i, j)} | 0 <= i < j < |r| ensures Differ(r, i, j) {
      if j < |lh| { assert Differ(lh, i, j); }
    }
  }

  lemma {:induction false} RemoveFirst(lh: seq<nat>, k: nat)
    requires k < |lh| && Distinct(lh)
    ensures lh[k] in SetOf(lh[k..]) && SetOf(lh[k..]) - {lh[k]} == SetOf(lh[k + 1..])
  {
    assert lh[k..] == [lh[k]] + lh[k + 1..];
    assert lh[k] !in lh[k + 1..] by { assert forall j :: k < j < |lh| ==> Differ(lh, k, j) && lh[k] != lh[j]; }
  }

  /** Nobody has a buffer: the state recovery runs in. */
  ghost predicate Idle(bufs: seq<Buf>, v: View) {
    && |v.users| == |bufs| && v.pins == map[] && v.dirty == {}
    && forall i :: 0 <= i < |bufs| ==> bufs[i].refcnt == 0 && !bufs[i].locked && v.users[i] == 0
  }

  lemma {:induction false} IdleIsQuiet(bufs: seq<Buf>, v: View, L: Layout)
    requires Idle(bufs, v)
    ensures Quiet(bufs, v, L, {}) && (HasUnused(bufs) <==> |bufs| >= 1)
  {
    if |bufs| >= 1 { assert bufs[0].refcnt == 0; }
  }

  /** After a write, too, nobody has a buffer. */
  lemma {:induction false} IdleStill(was: seq<Buf>, v0: View, bufs: seq<Buf>, v: View)
    requires Idle(was, v0) && Coherent(bufs, v) && Undisturbed(was, bufs) &&
      v == v0.(disk := v.disk, latest := v.latest)
    ensures Idle(bufs, v)
  {
    forall i | 0 <= i < |bufs| ensures bufs[i].refcnt == 0 && !bufs[i].locked && v.users[i] == 0 {
      assert RefsAt(bufs[i], v.users[i], v);
      assert was[i].refcnt == 0 && !was[i].locked;
    }
  }

  /** With one buffer taken for another block, a block can be read exactly when there is a second buffer. */
  lemma {:induction false} OneTaken(bufs: seq<Buf>, i: nat, b: Buf, dev: nat, hb: nat)
    requires i < |bufs| && !b.Caches(dev, hb) && b.refcnt > 0
    requires forall j :: 0 <= j < |bufs| ==> bufs[j].refcnt == 0 && !bufs[j].locked
    ensures var now := bufs[i := b];
            && (Cached(now, dev, hb) || HasUnused(now) <==> |bufs| >= 2)
            && forall j :: 0 <= j < |now| && now[j].Caches(dev, hb) ==> !now[j].locked
  {
    var now := bufs[i := b];
    if |bufs| >= 2 {
      var j := if i == 0 then 1 else 0;
      assert now[j].refcnt == 0;
    }
  }

  lemma {:induction false} BothReturned(bufs: seq<Buf>, v: View, i: nat, j: nat, bi: Buf, bj: Buf)
    requires Idle(bufs, v) && i < |bufs| && j < |bufs| && i != j && bi.refcnt == 1 && bj.refcnt == 1
    ensures var now := Released(Released(Stored(bufs[i := bi][j := bj], j, bi.data), i), j);
            |now| == |bufs| && forall k :: 0 <= k < |bufs| ==> now[k].refcnt == 0 && !now[k].locked
    ensures forall d, l ::
      Returned(Returned(Taken(Taken(v, i), j).(disk := d, latest := l), i), j) == v.(disk := d, latest := l)
  {
    var u := v.users;
    assert u[i := u[i] + 1][j := u[j] + 1][i := u[i]][j := u[j]] == u;
  }

  /** The buffers of the first k logged blocks: as many, and none of them unused. */
  lemma {:induction false} PinnedBufs(bufs: seq<Buf>, v: View, lh: seq<nat>, k: nat) returns (s: set<nat>)
    requires Coherent(bufs, v) && v.pins.Keys == SetOf(lh) && Distinct(lh) && k <= |lh|
    ensures |s| == k && forall i {:trigger i in s} :: i in s ==>
      i < |bufs| && bufs[i].refcnt > 0 && bufs[i].blockno in lh[..k]
  {
    if k == 0 {
      s := {};
    } else {
      var before := PinnedBufs(bufs, v, lh, k - 1);
      var n := lh[k - 1];
      assert n in SetOf(lh);
      assert PinAt(bufs, v, n);
      var i := v.pins[n];
      assert RefsAt(bufs[i], v.users[i], v);
      assert i !in before by {
        forall j | 0 <= j < k - 1 ensures lh[j] != n { assert Differ(lh, j, k - 1); }
      }
      s := before + {i};
    }
  }

  /**
   With as many blocks in the log as there are buffers, all are pinned, and commit() has none to write the log with.
   */
  lemma {:induction false} FullLogPinsAll(bufs: seq<Buf>, v: View, lh: seq<nat>)
    requires Coherent(bufs, v) && v.pins.Keys == SetOf(lh) && Distinct(lh) && |bufs| <= |lh|
    ensures !HasUnused(bufs)
  {
    var s := PinnedBufs(bufs, v, lh, |bufs|);
    assert s <= Upto(|bufs|);
    assert Upto(|bufs|) == s + (Upto(|bufs|) - s);
    forall i | 0 <= i < |bufs| ensures bufs[i].refcnt > 0 { assert i in Upto(|bufs|); }
  }

  /** install_trans(1) has copied k blocks home since the writes were w0 and the disk d. */
  ghost predicate Installing(L: Layout, d: Disk, hs: seq<nat>, k: nat, w0: seq<Write>,
                             w: seq<Write>, v: View, bufs: seq<Buf>)
  {
    && Recoverable(L, d) && hs == Homes(L, d) && k <= |hs| && Idle(bufs, v)
    && w == w0 + InstallWrites(L, d, hs)[..k] && SameLog(L, v.latest, d)
  }

  lemma {:induction false} NothingInstalled(L: Layout, d: Disk, hs: seq<nat>, w: seq<Write>, v: View, bufs: seq<Buf>)
    requires Recoverable(L, d) && hs == Homes(L, d) && Idle(bufs, v) && |v.latest| == |d| && v.disk == d
    requires forall n :: 0 <= n < |v.disk| && n !in v.pins ==> v.disk[n] == v.latest[n]
    ensures Installing(L, d, hs, 0, w, w, v, bufs)
  {
    assert v.latest == d;
  }

  lemma {:induction false} OneMoreRecovered(L: Layout, d: Disk, hs: seq<nat>, k: nat, w0: seq<Write>,
                                            w: seq<Write>, v: View, b: seq<Buf>, w': seq<Write>, v': View, b': seq<Buf>)
    requires k < |hs| && Installing(L, d, hs, k, w0, w, v, b) && Idle(b', v')
    requires w' == w + [Write(hs[k], v.latest[L.Slot(k)])]
    requires v' == v.(disk := v'.disk, latest := v.latest[hs[k] := v.latest[L.Slot(k)]])
    ensures Installing(L, d, hs, k + 1, w0, w', v', b')
  {
    var ws := InstallWrites(L, d, hs);
    assert L.InLog(L.Slot(k)) && v.latest[L.Slot(k)] == d[L.Slot(k)];
    assert ws[..k + 1] == ws[..k] + [ws[k]];
    assert !L.InLog(hs[k]);
  }

  lemma {:induction false} RecoveryCutAt(L: Layout, boot: Disk, w0: seq<Write>, d: Disk, w: seq<Write>, k: nat)
    requires |boot| == L.blocks && d == ApplyAll(boot, w0) && Recoverable(L, d)
    requires w0 <= w <= w0 + RecoveryWrites(L, d) && |w0| <= k <= |w|
    ensures AllOrNothing(L, boot, w[..k], Replay(L, d), Replay(L, d), true)
  {
    var ws, j := RecoveryWrites(L, d), k - |w0|;
    TakeOfConcat(w0, ws, w, k);
    ApplyAllConcat(boot, w0, ws[..j]);
    RecoveryCrashSafe(L, d, j);
  }

  lemma {:induction false} RecoveryPrefixes(L: Layout, boot: Disk, w0: seq<Write>, d: Disk, w: seq<Write>)
    requires |boot| == L.blocks && d == ApplyAll(boot, w0) && Recoverable(L, d)
    requires w0 <= w <= w0 + RecoveryWrites(L, d)
    ensures forall k :: |w0| <= k <= |w| ==> AllOrNothing(L, boot, w[..k], Replay(L, d), Replay(L, d), true)
  {
    forall k | |w0| <= k <= |w| ensures AllOrNothing(L, boot, w[..k], Replay(L, d), Replay(L, d), true) {
      RecoveryCutAt(L, boot, w0, d, w, k);
    }
  }

  /** With nothing pinned the disk holds what readers see. */
  lemma {:induction false} AllAtHome(bufs: seq<Buf>, v: View)
    requires Coherent(bufs, v) && v.pins == map[]
    ensures v.latest == v.disk
  {
  }

  /** install_trans(1) followed by the header write. */
  lemma {:induction false} RecoverySummary(L: Layout, boot: Disk, d: Disk, w0: seq<Write>, v1: View, b1: seq<Buf>,
                                           w1: seq<Write>, w: seq<Write>, disk: Disk)
    requires |boot| == L.blocks && d == ApplyAll(boot, w0) && Recoverable(L, d)
    requires Installing(L, d, Homes(L, d), |Homes(L, d)|, w0, w1, v1, b1)
    requires w == w1 + [Write(L.start, PutHeader(v1.latest[L.start], []))] && disk == ApplyAll(boot, w)
    ensures w == w0 + RecoveryWrites(L, d)
    ensures Recoverable(L, disk) && HeaderCount(disk[L.start]) == 0 && SameHome(L, disk, Replay(L, d))
  {
    var iw := InstallWrites(L, d, Homes(L, d));
    assert iw[..|Homes(L, d)|] == iw;
    assert L.InLog(L.start) && v1.latest[L.start] == d[L.start];
    var ws := RecoveryWrites(L, d);
    assert w == w0 + ws;
    assert ws[..|ws|] == ws;
    ApplyAllConcat(boot, w0, ws);
    RecoveryCrashSafe(L, d, |ws|);
  }

  class Log {
    const L: Layout
    const dev: nat
    const MAXOPBLOCKS: nat
    var bufs: seq<Buf>
    var disk: Disk
    var lh: seq<nat>  // lh.block[0..n)
    var outstanding: nat
    var committing: bool
    var ncommit: nat
    const boot: Disk
    var writes: seq<Write>  // every block write since boot
    ghost var v: View

    ghost predicate Core()
      reads this
    {
      && L.Valid() && |disk| == L.blocks == |boot| && disk == ApplyAll(boot, writes)
      && |lh| <= L.size && v.disk == disk && v.dev == dev
      && Coherent(bufs, v)
    }

    /** The in-memory log names exactly the pinned blocks. */
    ghost predicate LogMatchesPins()
      reads this
    {
      GoodTransaction(L, lh) && v.pins.Keys == SetOf(lh)
    }

    /** Between commits. */
    ghost predicate Valid()
      reads this
    {
      && Core() && LogMatchesPins()
      && Recoverable(L, disk) && HeaderCount(disk[L.start]) == 0
      && (v.dirty != {} ==> outstanding > 0)
      && Quiet(bufs, v, L, {})
    }

    /** The kernel's state when it comes up on disk d, before initlog() recovers. */
    constructor (layout: Layout, device: nat, maxop: nat, nbuf: nat, d: Disk)
      requires layout.Valid() && |d| == layout.blocks && device != 0
      ensures Core() && L == layout && dev == device && MAXOPBLOCKS == maxop && boot == d == disk && writes == []
      ensures lh == [] && outstanding == 0 && !committing
      ensures v == View(device, d, d, map[], seq(nbuf, _ => 0), {})
      ensures bufs == seq(nbuf, _ => Buf(0, 0, false, 0, false, ZeroBlock()))
    {
      L, dev, MAXOPBLOCKS, boot, disk := layout, device, maxop, d, d;
      lh, outstanding, committing, ncommit := [], 0, false, 0;
      writes := [];
      bufs := seq(nbuf, _ => Buf(0, 0, false, 0, false, ZeroBlock()));
      v := View(device, d, d, map[], seq(nbuf, _ => 0), {});
    }

    // ------------------------------------------------------------ buffers

    /** bget() up to the wait for the lock: the caller holds a reference to the block's buffer. */
    method Bget(b: nat) returns (r: Option<nat>)
      requires Core() && b < L.blocks
      requires forall i :: 0 <= i < |bufs| && bufs[i].Caches(dev, b) ==> !bufs[i].locked
      modifies `v, `bufs
      ensures Core() && Gets(old(bufs), dev, b, r, bufs)
      ensures r.None? ==> v == old(v)
      ensures r.Some? ==> r.value < |bufs| && r.value !in v.dirty && v == Taken(old(v), r.value)
      ensures r.Some? ==> !old(bufs)[r.value].locked && bufs[r.value].refcnt == old(bufs)[r.value].refcnt + 1
    {
      if i :| 0 <= i < |bufs| && bufs[i].Caches(dev, b) {
        r := Some(i);
        Get(bufs, v, i, b);
        bufs := Referenced(bufs, i);
        v := Taken(v, i);
      } else if i :| 0 <= i < |bufs| && bufs[i].refcnt == 0 {
        r := Some(i);
        Get(bufs, v, i, b);
        bufs := Recycled(bufs, i, dev, b);
        v := Taken(v, i);
      } else {
        r := None;
      }
    }

    /**
     bread() of a block whose buffer's lock is free: the caller gets the buffer
     locked, holding the latest contents of the block.  None is "bget: no buffers".
     */
    method Bread(b: nat) returns (r: Option<nat>)
      requires Core() && b < L.blocks
      requires forall i :: 0 <= i < |bufs| && bufs[i].Caches(dev, b) ==> !bufs[i].locked
      modifies `v, `bufs
      ensures Core()
      ensures r.None? <==> !Cached(old(bufs), dev, b) && !HasUnused(old(bufs))
      ensures r.None? ==> v == old(v) && bufs == old(bufs)
      ensures r.Some? ==>
                var i := r.value;
                && i < |old(bufs)| && i !in v.dirty && !old(bufs)[i].locked
                && (if Cached(old(bufs), dev, b) then old(bufs)[i].Caches(dev, b) else old(bufs)[i].refcnt == 0)
                && v == Taken(old(v), i)
                && bufs == old(bufs)[i := Buf(dev, b, true, old(bufs)[i].refcnt + 1, true, v.latest[b])]
      ensures old(Valid()) && L.IsHome(b) ==> Valid()
      ensures old(Quiet(bufs, v, L, {})) && L.IsHome(b) ==> Quiet(bufs, v, L, {})
    {
      r := Bget(b);
      if r.Some? {
        var i := r.value;
        Lock(bufs, v, i);
        bufs := bufs[i := bufs[i].(locked := true)];
        if !bufs[i].valid {
          Fill(bufs, v, i);
          bufs := bufs[i := bufs[i].(valid := true, data := disk[b])];
        }
        assert CleanAt(bufs[i], i, v);
      }
    }

    /** brelse() of a buffer whose changes, if any, were logged or written. */
    method Brelse(i: nat)
      requires Core() && i < |bufs| && bufs[i].locked && i !in v.dirty
      modifies `v, `bufs
      ensures Core()
      ensures old(v.users[i]) > 0 && v == Returned(old(v), i)
      ensures old(bufs)[i].refcnt > 0 && bufs == Released(old(bufs), i)
      ensures old(Valid()) && L.IsHome(old(bufs)[i].blockno) ==> Valid()
      ensures old(Quiet(bufs, v, L, {})) && L.IsHome(old(bufs)[i].blockno) ==> Quiet(bufs, v, L, {})
    {
      Release(bufs, v, i);
      bufs := Released(bufs, i);
      v := Returned(v, i);
    }

    /** The lock holder stores into b->data. */
    method Store(i: nat, data: Block)
      requires Core() && i < |bufs| && bufs[i].locked && bufs[i].valid && bufs[i].dev == dev
      modifies `v, `bufs
      ensures Core() && v == old(v).(dirty := old(v.dirty) + {i})
      ensures bufs == Stored(old(bufs), i, data)
      ensures old(Valid()) && outstanding > 0 ==> Valid()
    {
      Scribble(bufs, v, i, data);
      bufs := Stored(bufs, i, data);
      v := v.(dirty := v.dirty + {i});
    }

    /** bwrite(): one atomic block write. */
    method Bwrite(i: nat)
      requires Core() && i < |bufs| && bufs[i].locked && bufs[i].valid && bufs[i].dev == dev
      modifies `v, `disk, `writes
      ensures Core() && bufs[i].blockno < |old(v.latest)|
      ensures writes == old(writes) + [Write(bufs[i].blockno, bufs[i].data)]
      ensures v == Published(bufs, old(v), i).(disk := disk)
    {
      var b := bufs[i];
      WriteThrough(bufs, v, i);
      disk := disk[b.blockno := b.data];
      writes := writes + [Write(b.blockno, b.data)];
      v := Published(bufs, v, i).(disk := disk);
    }

    // ------------------------------------------------------------ one block of a commit

    ghost predicate PinsAtHome()
      reads this
    {
      forall b :: b in v.pins ==> L.IsHome(b)
    }

    /** A bread() of a log block needs an unused buffer, and leaves it with one reference. */
    method BreadLogBlock(lb: nat, ghost P: set<nat>) returns (r: Option<nat>)
      requires Core() && PinsAtHome() && L.InLog(lb) && Quiet(bufs, v, L, P)
      modifies `v, `bufs
      ensures Core()
      ensures r.None? <==> !HasUnused(old(bufs))
      ensures r.None? ==> v == old(v) && bufs == old(bufs)
      ensures r.Some? ==>
                var i := r.value;
                && i < |old(bufs)| && i !in v.dirty
                && !old(bufs)[i].locked && old(bufs)[i].refcnt == 0 && old(v.users[i]) == 0
                && v == Taken(old(v), i)
                && bufs == old(bufs)[i := Buf(dev, lb, true, 1, true, v.latest[lb])]
    {
      ghost var was := bufs;
      forall i | 0 <= i < |was| && was[i].Caches(dev, lb) ensures was[i].refcnt == 0 && !was[i].locked {
        assert RefsAt(was[i], v.users[i], v);
      }
      r := Bread(lb);
      if r.Some? { assert RefsAt(was[r.value], old(v.users[r.value]), old(v)); }
    }

    /** A bread() of a pinned block always finds its buffer. */
    method BreadPinned(hb: nat) returns (j: nat)
      requires Core() && hb in v.pins && v.dirty == {}
      requires forall i :: 0 <= i < |bufs| && bufs[i].Caches(dev, hb) ==> !bufs[i].locked
      modifies `v, `bufs
      ensures Core() && j < |old(bufs)| && hb < |v.latest|
      ensures v == Taken(old(v), j)
      ensures old(bufs)[j] == Buf(dev, hb, true, old(bufs)[j].refcnt, false, v.latest[hb])
      ensures bufs == old(bufs)[j := old(bufs)[j].(refcnt := old(bufs)[j].refcnt + 1, locked := true)]
    {
      ghost var was, k := bufs, v.pins[hb];
      assert was[k].Caches(dev, hb) && was[k].valid;
      var from := Bread(hb);
      j := from.value;
      if j != k { OthersElsewhere(was, old(v), k, j); }
      assert CleanAt(was[k], k, old(v));
    }

    /** The lock holder of a buffer stores into it and writes it to the disk. */
    method StoreThrough(i: nat, data: Block)
      requires Core() && v.dirty == {} && i < |bufs| && bufs[i].locked && bufs[i].valid && bufs[i].dev == dev
      modifies `v, `disk, `writes, `bufs
      ensures Core() && old(bufs)[i].blockno < |old(v.latest)|
      ensures writes == old(writes) + [Write(old(bufs)[i].blockno, data)]
      ensures v == old(v).(disk := disk, latest := old(v.latest)[old(bufs)[i].blockno := data])
      ensures bufs == Stored(old(bufs), i, data)
    {
      Store(i, data);
      Bwrite(i);
      assert v.dirty == {};
    }

    /** The rest of a turn of write_log(), with both buffers locked. */
    method CopyOut(i: nat, j: nat)
      requires Core() && v.dirty == {} && i < |bufs| && j < |bufs| && i != j
      requires bufs[i].locked && bufs[i].valid && bufs[i].dev == dev && bufs[j].locked
      modifies `v, `disk, `writes, `bufs
      ensures Core()
      ensures old(bufs)[i].blockno < |old(v.latest)|
      ensures old(v.users[i]) > 0 && old(v.users[j]) > 0
      ensures old(bufs)[i].refcnt > 0 && old(bufs)[j].refcnt > 0
      ensures writes == old(writes) + [Write(old(bufs)[i].blockno, old(bufs)[j].data)]
      ensures v ==
        Returned(Returned(old(v).(disk := disk, latest := old(v.latest)[old(bufs)[i].blockno := old(bufs)[j].data]), j),
          i)
      ensures bufs == Released(Released(Stored(old(bufs), i, old(bufs)[j].data), j), i)
    {
      StoreThrough(i, bufs[j].data);
      Brelse(j);
      Brelse(i);
    }

    /** One turn of write_log(): the cached contents of hb go to the log block lb. */
    method LogOne(lb: nat, hb: nat, ghost P: set<nat>) returns (ok: bool)
      requires Core() && PinsAtHome() && v.dirty == {} && L.InLog(lb) && hb in v.pins && hb in P && lb !in P
      requires Quiet(bufs, v, L, P)
      modifies `v, `disk, `writes, `bufs
      ensures Core()
      ensures ok <==> HasUnused(old(bufs))
      ensures !ok ==> writes == old(writes) && disk == old(disk) && v == old(v) && bufs == old(bufs)
      ensures ok ==>
                && hb < |old(v.latest)|
                && writes == old(writes) + [Write(lb, old(v.latest)[hb])]
                && v == old(v).(disk := disk, latest := old(v.latest)[lb := old(v.latest)[hb]])
                && HasUnused(bufs) && Quiet(bufs, v, L, P) && Undisturbed(old(bufs), bufs)
    {
      ghost var was := bufs;
      var to := BreadLogBlock(lb, P);
      if to.None? { return false; }
      var i := to.value;
      var j := BreadPinned(hb);
      ghost var b := Buf(dev, lb, true, 1, true, old(v.latest)[lb]);
      assert bufs == was[i := b][j := was[j].(refcnt := was[j].refcnt + 1, locked := true)];
      CopyOut(i, j);
      TurnUndone(was, old(v), i, j, b, old(v.latest)[hb]);
      assert bufs == was[i := Buf(dev, lb, true, 0, false, old(v.latest)[hb])];
      IdleAgain(was, v, i, lb, old(v.latest)[hb], L, P);
      ok := true;
    }

    /** A turn of write_log()'s loop. */
    method LogTurn(tail: nat, ghost w0: seq<Write>, ghost v0: View, ghost b0: seq<Buf>) returns (ok: bool)
      requires Core() && tail < |lh| && SlotsWritten(L, lh, tail, w0, v0, b0, writes, v, bufs)
      modifies `v, `disk, `writes, `bufs
      ensures Core()
      ensures ok <==> HasUnused(old(bufs))
      ensures !ok ==> writes == old(writes) && v == old(v) && bufs == old(bufs)
      ensures ok ==> SlotsWritten(L, lh, tail + 1, w0, v0, b0, writes, v, bufs)
    {
      LoggedAreHome(L, lh, 0);
      ok := LogOne(L.Slot(tail), lh[tail], v.pins.Keys);
      if ok { OneMoreSlot(L, lh, tail, w0, v0, b0, old(writes), old(v), old(bufs), writes, v, bufs); }
    }

    /** write_log(): the logged blocks' cached contents go to the log slots, in order. */
    method WriteLog() returns (ok: bool)
      requires Core() && LogMatchesPins() && v.dirty == {} && Quiet(bufs, v, L, v.pins.Keys)
      modifies `v, `disk, `writes, `bufs
      ensures Core()
      ensures ok <==> lh == [] || HasUnused(old(bufs))
      ensures !ok ==> writes == old(writes) && v == old(v) && bufs == old(bufs)
      ensures ok ==> SlotsWritten(L, lh, |lh|, old(writes), old(v), old(bufs), writes, v, bufs)
    {
      NoSlots(L, lh, writes, v, bufs);
      var tail := 0;
      while tail < |lh|
        invariant 0 <= tail <= |lh| && Core()
        invariant SlotsWritten(L, lh, tail, old(writes), old(v), old(bufs), writes, v, bufs)
      {
        ok := LogTurn(tail, old(writes), old(v), old(bufs));
        if !ok {
          assert tail == 0;
          return;
        }
        tail := tail + 1;
      }
      ok := true;
    }

    /** write_head(): one write puts the in-memory header on the disk. */
    method WriteHead(ghost P: set<nat>) returns (ok: bool)
      requires Core() && PinsAtHome() && v.dirty == {} && L.start !in P && Quiet(bufs, v, L, P)
      requires forall i :: 0 <= i < |lh| ==> lh[i] < L.blocks
      modifies `v, `disk, `writes, `bufs
      ensures Core()
      ensures ok <==> HasUnused(old(bufs))
      ensures !ok ==> writes == old(writes) && v == old(v) && bufs == old(bufs)
      ensures ok ==>
                && writes == old(writes) + [Write(L.start, PutHeader(old(v.latest)[L.start], lh))]
                && v == old(v).(disk := disk, latest := old(v.latest)[L.start := PutHeader(old(v.latest)[L.start], lh)])
                && HasUnused(bufs) && Quiet(bufs, v, L, P) && Undisturbed(old(bufs), bufs)
    {
      ghost var was := bufs;
      var r := BreadLogBlock(L.start, P);
      if r.None? { return false; }
      var b := r.value;
      ghost var h0 := PutWord(bufs[b].data, 0, |lh|);
      var h := PutWord(bufs[b].data, 0, |lh|);
      var i := 0;
      while i < |lh|
        invariant 0 <= i <= |lh| && h == PutHomes(h0, lh[..i])
      {
        assert lh[..i + 1][..i] == lh[..i];
        h := PutWord(h, i + 1, lh[i]);
        i := i + 1;
      }
      assert lh[..i] == lh;
      StoreThrough(b, h);
      Brelse(b);
      ReadUndone(was, old(v), b, Buf(dev, L.start, true, 1, true, old(v.latest)[L.start]), h);
      assert bufs == was[b := Buf(dev, L.start, true, 0, false, h)];
      IdleAgain(was, v, b, L.start, h, L, P);
      ok := true;
    }

    /** bunpin() of a buffer whose block's latest contents are at home. */
    method Bunpin(i: nat)
      requires Core() && i < |bufs| && bufs[i].dev == dev && bufs[i].blockno in v.pins && bufs[i].blockno < |v.disk|
      requires v.disk[bufs[i].blockno] == v.latest[bufs[i].blockno]
      modifies `v, `bufs
      ensures Core() && old(bufs)[i].refcnt > 0
      ensures bufs == Unpinned(old(bufs), i)
      ensures v == old(v).(pins := old(v.pins) - {old(bufs)[i].blockno})
    {
      Unpin(bufs, v, i);
      v := v.(pins := v.pins - {bufs[i].blockno});
      bufs := Unpinned(bufs, i);
    }

    /** The rest of a turn of install_trans(0), with both buffers locked. */
    method CopyHome(i: nat, j: nat)
      requires Core() && v.dirty == {} && i < |bufs| && j < |bufs| && i != j && bufs[i].locked
      requires bufs[j].locked && bufs[j].valid && bufs[j].dev == dev && bufs[j].blockno in v.pins
      requires bufs[j].blockno < |v.latest| && bufs[i].data == v.latest[bufs[j].blockno]
      modifies `v, `disk, `writes, `bufs
      ensures Core()
      ensures old(v.users[i]) > 0 && old(v.users[j]) > 0
      ensures old(bufs)[i].refcnt > 0 && old(bufs)[j].refcnt > 1
      ensures writes == old(writes) + [Write(old(bufs)[j].blockno, old(bufs)[i].data)]
      ensures v == Returned(Returned(old(v).(disk := disk, pins := old(v.pins) - {old(bufs)[j].blockno}), i), j)
      ensures bufs == Released(Released(Unpinned(Stored(old(bufs), j, old(bufs)[i].data), j), i), j)
    {
      assert RefsAt(bufs[j], v.users[j], v);
      StoreThrough(j, bufs[i].data);
      assert v.latest == old(v.latest);
      Bunpin(j);
      Brelse(i);
      Brelse(j);
    }

    /** One turn of install_trans(0): the log block lb goes to its home hb, which is unpinned. */
    method InstallOne(lb: nat, hb: nat, ghost P: set<nat>) returns (ok: bool)
      requires Core() && PinsAtHome() && v.dirty == {} && L.InLog(lb) && hb in v.pins && hb in P && lb !in P
      requires hb < |v.latest| && v.latest[lb] == v.latest[hb]
      requires Quiet(bufs, v, L, P)
      modifies `v, `disk, `writes, `bufs
      ensures Core()
      ensures ok <==> HasUnused(old(bufs))
      ensures !ok ==> writes == old(writes) && v == old(v) && bufs == old(bufs)
      ensures ok ==>
                && writes == old(writes) + [Write(hb, old(v.latest)[hb])]
                && v == old(v).(disk := disk, pins := old(v.pins) - {hb})
                && HasUnused(bufs) && Quiet(bufs, v, L, P) && Undisturbed(old(bufs), bufs)
    {
      ghost var was, d := bufs, old(v.latest)[hb];
      var r := BreadLogBlock(lb, P);
      if r.None? { return false; }
      var i := r.value;
      var j := BreadPinned(hb);
      ghost var b := Buf(dev, lb, true, 1, true, d);
      assert bufs == was[i := b][j := was[j].(refcnt := was[j].refcnt + 1, locked := true)];
      CopyHome(i, j);
      InstallUndone(was, old(v), i, j, b);
      assert bufs == was[j := was[j].(refcnt := was[j].refcnt - 1)][i := b.(locked := false, refcnt := 0)];
      InstalledIdle(was, v, i, j, b, L, P);
      ok := true;
    }

    method InstallTurn(tail: nat, ghost w0: seq<Write>, ghost v0: View, ghost b0: seq<Buf>) returns (ok: bool)
      requires Core() && tail < |lh| && BlocksInstalled(L, lh, tail, w0, v0, b0, writes, v, bufs)
      modifies `v, `disk, `writes, `bufs
      ensures Core() && ok
      ensures BlocksInstalled(L, lh, tail + 1, w0, v0, b0, writes, v, bufs)
    {
      RemoveFirst(lh, tail);
      LoggedAreHome(L, lh, tail);
      ok := InstallOne(L.Slot(tail), lh[tail], SetOf(lh));
      OneMoreInstalled(L, lh, tail, w0, v0, b0, old(writes), old(v), old(bufs), writes, v, bufs);
    }

    /** install_trans(0): the log slots go to their homes, in order, and the buffers are unpinned. */
    method InstallTrans() returns (ok: bool)
      requires Core() && v.dirty == {} && LogMatchesPins() && HasUnused(bufs) && SlotsHold(L, lh, v)
      requires Quiet(bufs, v, L, SetOf(lh))
      modifies `v, `disk, `writes, `bufs
      ensures Core() && ok
      ensures BlocksInstalled(L, lh, |lh|, old(writes), old(v), old(bufs), writes, v, bufs)
    {
      var tail := 0;
      assert lh[0..] == lh;
      while tail < |lh|
        invariant 0 <= tail <= |lh| && Core()
        invariant BlocksInstalled(L, lh, tail, old(writes), old(v), old(bufs), writes, v, bufs)
      {
        ok := InstallTurn(tail, old(writes), old(v), old(bufs));
        tail := tail + 1;
      }
      ok := true;
    }

    // ------------------------------------------------------------ commit

    /** The first half of commit(): the log slots and then the header, which commits, are written. */
    method Publish() returns (ok: bool)
      requires Core() && LogMatchesPins() && lh != [] && v.dirty == {} && Quiet(bufs, v, L, v.pins.Keys)
      modifies `v, `disk, `writes, `bufs
      ensures Core()
      ensures ok <==> HasUnused(old(bufs))
      ensures !ok ==> writes == old(writes) && v == old(v) && bufs == old(bufs)
      ensures v.disk[L.start] == v.latest[L.start] && old(v.disk)[L.start] == old(v.latest)[L.start]
      ensures ok ==>
                && writes ==
                   old(writes) + LogWrites(L, Updates(old(v), lh))
                   + [Write(L.start, PutHeader(old(v.latest)[L.start], lh))]
                && OnlyLogChanged(L, old(v), v) && v.latest[L.start] == PutHeader(old(v.latest)[L.start], lh)
                && SlotsHold(L, lh, v) && HasUnused(bufs)
                && Quiet(bufs, v, L, v.pins.Keys) && Undisturbed(old(bufs), bufs)
    {
      LoggedAreHome(L, lh, 0);
      ok := WriteLog();
      if !ok { return; }
      ghost var w1, v1, b1 := writes, v, bufs;
      ok := WriteHead(v.pins.Keys);
      PublishSummary(L, lh, boot, old(writes), old(v), old(bufs), w1, v1, b1, writes, v, bufs);
    }

    /** The second half of commit(): the blocks are installed and the header cleared. */
    method Retire()
      requires Core() && v.dirty == {} && LogMatchesPins() && HasUnused(bufs) && SlotsHold(L, lh, v)
      requires Quiet(bufs, v, L, v.pins.Keys)
      modifies `v, `disk, `writes, `bufs, `lh
      ensures Core() && lh == [] && v.pins == map[]
      ensures v ==
        old(v).(disk := disk, pins := map[], latest := old(v.latest)[L.start := PutHeader(old(v.latest)[L.start], [])])
      ensures writes == old(writes) + TransactionWrites(old(lh), Updates(old(v), old(lh)))
                        + [Write(L.start, PutHeader(old(v.latest)[L.start], []))]
      ensures Quiet(bufs, v, L, {}) && Undisturbed(old(bufs), bufs)
    {
      LoggedAreHome(L, lh, 0);
      var ok := InstallTrans();
      AllInstalled(L, lh, old(writes), old(v), old(bufs), writes, v, bufs);
      lh := [];
      ok := WriteHead({});
    }

    /**
     commit().  It panics ("bget: no buffers") exactly when there is a transaction
     and no unused buffer, and then before writing anything.  Otherwise it issues
     CommitWrites, one after the other, and leaves an empty log.
     */
    method Commit() returns (ok: bool)
      requires Core() && LogMatchesPins() && v.dirty == {} && Quiet(bufs, v, L, v.pins.Keys)
      requires Recoverable(L, disk) && HeaderCount(disk[L.start]) == 0
      modifies `v, `disk, `writes, `bufs, `lh
      ensures Core()
      ensures ok <==> old(lh) == [] || HasUnused(old(bufs))
      ensures !ok ==> writes == old(writes) && v == old(v) && bufs == old(bufs) && lh == old(lh) && disk == old(disk)
      ensures ok ==>
                && lh == [] && v.pins == map[] && v.dirty == {} && v.users == old(v.users)
                && writes == old(writes) + CommitWrites(L, old(disk)[L.start], old(lh), Updates(old(v), old(lh)))
                && SameHome(L, v.latest, old(v.latest))
                && Recoverable(L, disk) && HeaderCount(disk[L.start]) == 0
                && Quiet(bufs, v, L, {}) && Undisturbed(old(bufs), bufs)
    {
      if lh == [] { return true; }
      ok := Publish();
      if !ok { return; }
      ghost var w1, v1 := writes, v;
      Retire();
      CommitSummary(L, old(lh), old(writes), old(v), w1, v1, writes, v);
      CommitLeavesIdle(L, boot, old(writes), old(lh), Updates(old(v), old(lh)));
    }

    // ------------------------------------------------------------ the file system's operations

    /** One pass of begin_op()'s loop: false means it goes to sleep and tries again. */
    method BeginOp() returns (admitted: bool)
      modifies `outstanding
      ensures old(Valid()) ==> Valid()
      ensures admitted <==> !committing && |lh| + (old(outstanding) + 1) * MAXOPBLOCKS <= L.size
      ensures outstanding == if admitted then old(outstanding) + 1 else old(outstanding)
    {
      admitted := false;
      if !committing && |lh| + (outstanding + 1) * MAXOPBLOCKS <= L.size {
        outstanding := outstanding + 1;
        admitted := true;
      }
    }

    /**
     log_write() of a locked buffer of a home block.  False is one of its two
     panics; otherwise a reader of the block sees the buffer's contents from now on.
     */
    method LogWrite(i: nat) returns (ok: bool)
      requires Core() && (outstanding >= 1 ==> Valid())
      requires i < |bufs| && bufs[i].locked && bufs[i].valid && bufs[i].dev == dev && L.IsHome(bufs[i].blockno)
      modifies `v, `bufs, `lh
      ensures Core() && (outstanding >= 1 ==> Valid())
      ensures ok <==> |old(lh)| < L.size && outstanding >= 1
      ensures !ok ==> lh == old(lh) && v == old(v) && bufs == old(bufs)
      ensures ok ==>
                var b := old(bufs)[i].blockno;
                && lh == (if b in old(lh) then old(lh) else old(lh) + [b])
                && v == Published(old(bufs), old(v), i).(pins := v.pins) && v.pins.Keys == old(v.pins).Keys + {b}
                && bufs == (if b in old(lh) then old(bufs) else Referenced(old(bufs), i))
    {
      if |lh| >= L.size || outstanding < 1 { return false; }
      var b := bufs[i].blockno;
      var k := 0;
      while k < |lh| && lh[k] != b
        invariant 0 <= k <= |lh| && forall j :: 0 <= j < k ==> lh[j] != b
      {
        k := k + 1;
      }
      if k < |lh| {
        Absorb(bufs, v, i);
        v := Published(bufs, v, i);
        assert v.pins.Keys == old(v.pins).Keys + {b};
        lh := lh[k := b];
        assert lh == old(lh);
      } else {
        LogAndPin(bufs, v, i);
        AppendLogged(L, lh, b);
        v := Published(bufs, v, i).(pins := v.pins[b := i]);
        bufs := Referenced(bufs, i);
        lh := lh + [b];
      }
      ok := true;
    }

    /** The commit of end_op(). */
    method CommitLast() returns (ok: bool)
      requires Core() && LogMatchesPins() && v.dirty == {} && Quiet(bufs, v, L, v.pins.Keys)
      requires Recoverable(L, disk) && HeaderCount(disk[L.start]) == 0
      modifies `v, `disk, `writes, `bufs, `lh
      ensures ok <==> old(lh) == [] || HasUnused(old(bufs))
      ensures writes == if ok then old(writes) + CommitWrites(L, old(disk)[L.start], old(lh), Updates(old(v), old(lh)))
        else old(writes)
      ensures ok ==>
                && Valid() && lh == [] && v.dirty == {} && v.users == old(v.users) &&
                    SameHome(L, v.latest, old(v.latest))
                && SameHome(L, disk, old(v.latest)) && Undisturbed(old(bufs), bufs)
    {
      ok := Commit();
      CommitBringsHome(L, boot, old(writes), old(lh), old(v));
    }

    /** The same, and what a crash during it leads to. */
    method CommitSafely() returns (ok: bool)
      requires Core() && LogMatchesPins() && v.dirty == {} && Quiet(bufs, v, L, v.pins.Keys)
      requires Recoverable(L, disk) && HeaderCount(disk[L.start]) == 0
      modifies `v, `disk, `writes, `bufs, `lh
      ensures ok <==> old(lh) == [] || HasUnused(old(bufs))
      ensures |writes| == |old(writes)| + (if ok then CommitCost(old(lh)) else 0)
      ensures EveryCrash(L, boot, old(writes), writes, old(disk), old(v.latest), |old(lh)|)
      ensures ok ==>
                && Valid() && lh == [] && v.dirty == {} && v.users == old(v.users) &&
                    SameHome(L, v.latest, old(v.latest))
                && SameHome(L, disk, old(v.latest)) && Undisturbed(old(bufs), bufs)
    {
      ok := CommitLast();
      EveryPrefix(L, boot, old(writes), old(lh), old(v), writes);
    }

    /**
     end_op().  The last operation out commits.  A crash at any moment of that
     commit recovers to all of the transaction or to none of it: to the disk as it
     was, while the header write is not done, and from then on to what every
     reader saw before the commit.  False is the "bget: no buffers" panic.
     */
    method EndOp() returns (ok: bool)
      requires Valid() && outstanding >= 1 && !committing
      requires outstanding == 1 ==> v.dirty == {} && Quiet(bufs, v, L, v.pins.Keys)
      modifies `v, `disk, `writes, `bufs, `lh, `outstanding, `committing, `ncommit
      ensures ok <==> old(outstanding) > 1 || old(lh) == [] || HasUnused(old(bufs))
      ensures outstanding == old(outstanding) - 1
      ensures |writes| == |old(writes)| + (if ok && outstanding == 0 then CommitCost(old(lh)) else 0)
      ensures EveryCrash(L, boot, old(writes), writes, old(disk), old(v.latest), |old(lh)|)
      ensures ok ==> Valid() && !committing && SameHome(L, v.latest, old(v.latest)) && Undisturbed(old(bufs), bufs)
      ensures ok && outstanding > 0 ==> lh == old(lh) && writes == old(writes) && v == old(v) && bufs == old(bufs)
      ensures ok && outstanding == 0 ==>
                lh == [] && v.dirty == {} && v.users == old(v.users) && SameHome(L, disk, old(v.latest)) &&
                  ncommit == old(ncommit) + 1
    {
      var last := LeaveOp();
      if last {
        ok := CommitForAll();
      } else {
        EveryPrefix(L, boot, writes, lh, v, writes);
        ok := true;
      }
    }

    /** end_op() up to the commit, which is for the last operation to do. */
    method LeaveOp() returns (last: bool)
      requires outstanding >= 1 && !committing
      modifies `outstanding, `committing
      ensures outstanding == old(outstanding) - 1 && committing == last && (last <==> outstanding == 0)
    {
      outstanding := outstanding - 1;
      last := false;
      if outstanding == 0 {
        last := true;
        committing := true;
      }
    }

    /** end_op() after the commit. */
    method CommitDone()
      requires committing
      modifies `committing, `ncommit
      ensures !committing && ncommit == old(ncommit) + 1
    {
      committing := false;
      ncommit := ncommit + 1;
    }

    /** The rest of end_op(), for the last operation. */
    method CommitForAll() returns (ok: bool)
      requires Valid() && outstanding == 0 && committing && Quiet(bufs, v, L, v.pins.Keys)
      modifies `v, `disk, `writes, `bufs, `lh, `committing, `ncommit
      ensures ok <==> old(lh) == [] || HasUnused(old(bufs))
      ensures |writes| == |old(writes)| + (if ok then CommitCost(old(lh)) else 0)
      ensures EveryCrash(L, boot, old(writes), writes, old(disk), old(v.latest), |old(lh)|)
      ensures ok ==>
                && Valid() && !committing && lh == [] && v.dirty == {} && v.users == old(v.users) &&
                    ncommit == old(ncommit) + 1
                && SameHome(L, v.latest, old(v.latest)) && SameHome(L, disk, old(v.latest)) &&
                    Undisturbed(old(bufs), bufs)
    {
      ok := CommitSafely();
      if ok { CommitDone(); }
    }

    // ------------------------------------------------------------ recovery

    /** The loop of read_head(). */
    method CopyHomes(h: Block)
      requires HeaderCount(h) + 1 < WORDS
      modifies `lh
      ensures |lh| == HeaderCount(h) && forall i :: 0 <= i < |lh| ==> lh[i] == HeaderBlock(h, i)
    {
      lh := [];
      var i := 0;
      while i < HeaderCount(h)
        invariant 0 <= i <= HeaderCount(h) && |lh| == i && forall k :: 0 <= k < i ==> lh[k] == HeaderBlock(h, k)
      {
        lh := lh + [HeaderBlock(h, i)];
        i := i + 1;
      }
    }

    /** read_head(): the header on the disk becomes the in-memory one. */
    method ReadHead() returns (ok: bool)
      requires Core() && Idle(bufs, v) && Recoverable(L, disk)
      modifies `v, `bufs, `lh
      ensures Core()
      ensures ok <==> |old(bufs)| >= 1
      ensures v == old(v) && |bufs| == |old(bufs)|
      ensures ok ==> Idle(bufs, v) && lh == Homes(L, disk)
      ensures !ok ==> bufs == old(bufs)
    {
      ghost var was := bufs;
      IdleIsQuiet(bufs, v, L);
      var r := BreadLogBlock(L.start, {});
      if r.None? { return false; }
      var b := r.value;
      var h := bufs[b].data;
      assert h == disk[L.start];
      CopyHomes(h);
      assert lh == Homes(L, disk);
      Brelse(b);
      ReadUndone(was, old(v), b, Buf(dev, L.start, true, 1, true, h), h);
      assert v == old(v);
      ok := true;
    }

    /** The rest of a turn of install_trans(1), with both buffers locked. */
    method CopyRecovered(i: nat, j: nat)
      requires Core() && v.dirty == {} && i < |bufs| && j < |bufs| && i != j && bufs[i].locked
      requires bufs[j].locked && bufs[j].valid && bufs[j].dev == dev
      modifies `v, `disk, `writes, `bufs
      ensures Core() && old(bufs)[j].blockno < |old(v.latest)|
      ensures old(v.users[i]) > 0 && old(v.users[j]) > 0
      ensures old(bufs)[i].refcnt > 0 && old(bufs)[j].refcnt > 0
      ensures writes == old(writes) + [Write(old(bufs)[j].blockno, old(bufs)[i].data)]
      ensures v ==
        Returned(Returned(old(v).(disk := disk, latest := old(v.latest)[old(bufs)[j].blockno := old(bufs)[i].data]), i),
          j)
      ensures bufs == Released(Released(Stored(old(bufs), j, old(bufs)[i].data), i), j)
    {
      StoreThrough(j, bufs[i].data);
      Brelse(i);
      Brelse(j);
    }

    /** One turn of install_trans(1): the log block lb is copied to its home hb. */
    method RecoverOne(lb: nat, hb: nat) returns (ok: bool)
      requires Core() && Idle(bufs, v) && L.InLog(lb) && L.IsHome(hb)
      modifies `v, `disk, `writes, `bufs
      ensures Core() && |bufs| == |old(bufs)|
      ensures ok <==> |old(bufs)| >= 2
      ensures !ok ==> writes == old(writes)
      ensures ok ==>
                && Idle(bufs, v) && writes == old(writes) + [Write(hb, old(v.latest)[lb])]
                && v == old(v).(disk := disk, latest := old(v.latest)[hb := old(v.latest)[lb]])
    {
      ghost var was := bufs;
      IdleIsQuiet(bufs, v, L);
      var r := BreadLogBlock(lb, {});
      if r.None? { return false; }
      var i := r.value;
      OneTaken(was, i, bufs[i], dev, hb);
      r := Bread(hb);
      if r.None? { return false; }
      var j := r.value;
      ghost var bi, bj := Buf(dev, lb, true, 1, true, old(v.latest)[lb]),
        Buf(dev, hb, true, 1, true, old(v.latest)[hb]);
      assert i != j && bufs == was[i := bi][j := bj];
      CopyRecovered(i, j);
      BothReturned(was, old(v), i, j, bi, bj);
      ok := true;
    }

    method RecoverTurn(tail: nat, ghost d: Disk, ghost w0: seq<Write>) returns (ok: bool)
      requires Core() && tail < |lh| && Installing(L, d, lh, tail, w0, writes, v, bufs)
      modifies `v, `disk, `writes, `bufs
      ensures Core() && |bufs| == |old(bufs)|
      ensures ok <==> |old(bufs)| >= 2
      ensures !ok ==> writes == old(writes)
      ensures ok ==> Installing(L, d, lh, tail + 1, w0, writes, v, bufs)
    {
      ok := RecoverOne(L.Slot(tail), lh[tail]);
      if ok { OneMoreRecovered(L, d, lh, tail, w0, old(writes), old(v), old(bufs), writes, v, bufs); }
    }

    /** install_trans(1) */
    method InstallRecovered() returns (ok: bool)
      requires Core() && Idle(bufs, v) && Recoverable(L, disk) && lh == Homes(L, disk)
      modifies `v, `disk, `writes, `bufs
      ensures Core() && |bufs| == |old(bufs)|
      ensures ok <==> lh == [] || |old(bufs)| >= 2
      ensures !ok ==> writes == old(writes)
      ensures ok ==> Installing(L, old(disk), lh, |lh|, old(writes), writes, v, bufs)
    {
      var tail := 0;
      NothingInstalled(L, disk, lh, writes, v, bufs);
      while tail < |lh|
        invariant 0 <= tail <= |lh| && |bufs| == |old(bufs)| && (tail == 0 ==> writes == old(writes))
        invariant Core() && Installing(L, old(disk), lh, tail, old(writes), writes, v, bufs)
        invariant tail > 0 ==> |bufs| >= 2
      {
        ok := RecoverTurn(tail, old(disk), old(writes));
        if !ok { return; }
        tail := tail + 1;
      }
      ok := true;
    }

    /** The last two statements of recover_from_log(). */
    method ClearLog(ghost d: Disk, ghost w0: seq<Write>)
      requires Core() && |bufs| >= 1 && outstanding == 0 && d == ApplyAll(boot, w0)
      requires Installing(L, d, lh, |lh|, w0, writes, v, bufs)
      modifies `v, `disk, `writes, `bufs, `lh
      ensures Valid() && lh == [] && writes == w0 + RecoveryWrites(L, d) && SameHome(L, disk, Replay(L, d)) &&
        v.latest == disk
      ensures Idle(bufs, v) && |bufs| == |old(bufs)|
    {
      WriteEmptyHead();
      AllAtHome(bufs, v);
      assert GoodTransaction(L, lh) && v.pins.Keys == SetOf(lh);
      RecoverySummary(L, boot, d, w0, old(v), old(bufs), old(writes), writes, disk);
    }

    method WriteEmptyHead()
      requires Core() && |bufs| >= 1 && Idle(bufs, v)
      modifies `v, `disk, `writes, `bufs, `lh
      ensures Core() && lh == [] && Idle(bufs, v) && |bufs| == |old(bufs)| && Quiet(bufs, v, L, {})
      ensures writes == old(writes) + [Write(L.start, PutHeader(old(v.latest)[L.start], []))]
    {
      lh := [];
      IdleIsQuiet(bufs, v, L);
      var ok := WriteHead({});
      IdleStill(old(bufs), old(v), bufs, v);
    }

    /**
     recover_from_log().  It panics exactly when there are too few buffers (two, or
     one if there is nothing to install), and then before writing anything.
     Otherwise it issues RecoveryWrites and leaves an empty log, with the home
     blocks the crashed disk was committed to.
     */
    method Recover() returns (ok: bool)
      requires Core() && Idle(bufs, v) && Recoverable(L, disk) && outstanding == 0
      modifies `v, `disk, `writes, `bufs, `lh
      ensures ok <==> |old(bufs)| >= (if HeaderCount(old(disk)[L.start]) == 0 then 1 else 2)
      ensures !ok ==> writes == old(writes) && disk == old(disk)
      ensures ok ==>
                && Valid() && lh == [] && writes == old(writes) + RecoveryWrites(L, old(disk))
                && SameHome(L, disk, Replay(L, old(disk))) && v.latest == disk && Idle(bufs, v) && |bufs| == |old(bufs)|
      ensures forall k :: |old(writes)| <= k <= |writes| ==>
                AllOrNothing(L, boot, writes[..k], Replay(L, old(disk)), Replay(L, old(disk)), true)
    {
      ok := RecoverAll();
      RecoveryPrefixes(L, boot, old(writes), old(disk), writes);
    }

    /** The body of recover_from_log(). */
    method RecoverAll() returns (ok: bool)
      requires Core() && Idle(bufs, v) && Recoverable(L, disk) && outstanding == 0
      modifies `v, `disk, `writes, `bufs, `lh
      ensures ok <==> |old(bufs)| >= (if HeaderCount(old(disk)[L.start]) == 0 then 1 else 2)
      ensures !ok ==> writes == old(writes) && disk == old(disk)
      ensures ok ==>
                && Valid() && lh == [] && writes == old(writes) + RecoveryWrites(L, old(disk))
                && SameHome(L, disk, Replay(L, old(disk))) && v.latest == disk && Idle(bufs, v) && |bufs| == |old(bufs)|
    {
      ok := ReadHead();
      if !ok { return; }
      ok := InstallRecovered();
      if ok {
        ClearLog(old(disk), old(writes));
      }
    }
  }
}
