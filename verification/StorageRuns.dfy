/**
 The storage stack as its users see it.  A run is any sequence of bread(), stores into a
 held buffer, log_write(), brelse(), begin_op(), end_op() and the writes of commit(), by
 any number of processes; buffers may be held across steps, and readers go on during a
 commit.  The cache, the log and the disk together refine the machine of StorageMachine,
 which says what every bread() returns, where a run stops (with a panic or a wait), and
 what survives a crash between any two disk writes, over any number of reboots.
 */
module StorageRuns {
  import opened Basics
  import opened Blocks
  import opened BufferCache
  import opened Coherence
  import opened RedoLog
  import opened LogLayer
  import opened StorageMachine

  // ---------------------------------------------------------------- buffers in use

  /** The blocks whose buffers have references. */
  function UsedBlocks(bufs: seq<Buf>): set<nat> {
    if bufs == [] then {}
    else
      var n := |bufs| - 1;
      UsedBlocks(bufs[..n]) + if bufs[n].refcnt > 0 then {bufs[n].blockno} else {}
  }

  ghost predicate UsedAt(bufs: seq<Buf>, i: nat, b: nat) {
    i < |bufs| && bufs[i].refcnt > 0 && bufs[i].blockno == b
  }

  lemma {:induction false} UsedMember(bufs: seq<Buf>, b: nat)
    ensures b in UsedBlocks(bufs) <==> exists i :: UsedAt(bufs, i, b)
  {
    if bufs != [] {
      var n := |bufs| - 1;
      UsedMember(bufs[..n], b);
      if i: nat :| UsedAt(bufs, i, b) { assert i < n ==> UsedAt(bufs[..n], i, b); }
      if i: nat :| UsedAt(bufs[..n], i, b) { assert UsedAt(bufs, i, b); }
      assert bufs[n].refcnt > 0 && bufs[n].blockno == b ==> UsedAt(bufs, n, b);
    }
  }

  /** Every buffer that has references is for a block of the device. */
  ghost predicate OneDevice(bufs: seq<Buf>, dev: nat) {
    dev != 0 && forall i {:trigger bufs[i]} :: 0 <= i < |bufs| && bufs[i].refcnt > 0 ==> bufs[i].dev == dev
  }

  lemma {:induction false} FirstOnes(bufs: seq<Buf>, dev: nat)
    requires bufs != [] && Unique(bufs) && OneDevice(bufs, dev)
    ensures var n := |bufs| - 1;
      && Unique(bufs[..n]) && OneDevice(bufs[..n], dev)
      && (bufs[n].refcnt > 0 ==> bufs[n].blockno !in UsedBlocks(bufs[..n]))
      && (HasUnused(bufs) <==> HasUnused(bufs[..n]) || bufs[n].refcnt == 0)
  {
    var n := |bufs| - 1;
    var init := bufs[..n];
    forall i, j {:trigger Apart(init[i], init[j])} | 0 <= i < j < n
      ensures Apart(init[i], init[j])
    {
      assert Apart(bufs[i], bufs[j]);
    }
    UsedMember(init, bufs[n].blockno);
    forall i: nat | UsedAt(init, i, bufs[n].blockno)
      ensures bufs[n].refcnt == 0
    {
      assert Apart(bufs[i], bufs[n]) && init[i] == bufs[i];
    }
    if i :| 0 <= i < |bufs| && bufs[i].refcnt == 0 { assert i < n ==> init[i].refcnt == 0; }
    if i :| 0 <= i < |init| && init[i].refcnt == 0 { assert bufs[i].refcnt == 0; }
  }

  /** There is an unused buffer exactly if there are fewer blocks in use than buffers. */
  lemma {:induction false} CountUsed(bufs: seq<Buf>, dev: nat)
    requires Unique(bufs) && OneDevice(bufs, dev)
    ensures |UsedBlocks(bufs)| <= |bufs| && (HasUnused(bufs) <==> |UsedBlocks(bufs)| < |bufs|)
  {
    if bufs != [] {
      FirstOnes(bufs, dev);
      CountUsed(bufs[..|bufs| - 1], dev);
    }
  }

  // ---------------------------------------------------------------- how the stack stands for the machine

  /** A locked buffer has one user, and holds the machine's copy of its block. */
  ghost predicate BufOk(buf: Buf, users: nat, i: nat, v: View, held: map<nat, Block>, dirty: set<nat>) {
    && users == (if buf.locked then 1 else 0)
    && (buf.locked ==>
          && buf.dev == v.dev && buf.valid && buf.blockno in held && held[buf.blockno] == buf.data
          && (i in v.dirty <==> buf.blockno in dirty))
  }

  /** Some buffer has the home block b locked. */
  ghost predicate HeldAt(L: Layout, bufs: seq<Buf>, dev: nat, b: nat) {
    L.IsHome(b) && exists i :: 0 <= i < |bufs| && bufs[i].locked && bufs[i].Caches(dev, b)
  }

  ghost predicate BufsOk(L: Layout, bufs: seq<Buf>, v: View, held: map<nat, Block>, dirty: set<nat>) {
    && |v.users| == |bufs| && dirty <= held.Keys
    && (forall i {:trigger BufOk(bufs[i], v.users[i], i, v, held, dirty)} :: 0 <= i < |bufs| ==>
          BufOk(bufs[i], v.users[i], i, v, held, dirty))
    && (forall b {:trigger HeldAt(L, bufs, v.dev, b)} :: b in held ==> HeldAt(L, bufs, v.dev, b))
  }

  /** How many log slots a commit has written. */
  function SlotsDone(m: Machine): nat {
    match m.phase
    case NoCommit => 0
    case ToLog(k) => k
    case _ => |m.logged|
  }

  /** A disk that recovery would bring to the home blocks of home. */
  ghost predicate Holds(L: Layout, d: Disk, home: Disk) {
    && Recoverable(L, d) && |home| == L.blocks
    && forall b: nat {:trigger RecoversAt(L, d, home, b)} :: L.IsHome(b) ==> RecoversAt(L, d, home, b)
  }

  ghost predicate RecoversAt(L: Layout, d: Disk, home: Disk, b: nat)
    requires Recoverable(L, d) && |home| == L.blocks && L.IsHome(b)
  {
    Replay(L, d)[b] == home[b]
  }

  lemma {:induction false} HoldsReplay(L: Layout, d: Disk, home: Disk)
    requires Recoverable(L, d)
    ensures Holds(L, d, home) <==> SameHome(L, Replay(L, d), home)
  {
    if Holds(L, d, home) {
      forall b: nat | L.IsHome(b) ensures Replay(L, d)[b] == home[b] { assert RecoversAt(L, d, home, b); }
    }
  }

  /** The first k log slots hold the latest contents of their blocks. */
  ghost predicate SlotsUpTo(L: Layout, lh: seq<nat>, k: nat, latest: Disk) {
    && k <= |lh| && GoodTransaction(L, lh) && |latest| == L.blocks
    && forall i {:trigger SlotHolds(L, lh, i, latest)} :: 0 <= i < k ==> SlotHolds(L, lh, i, latest)
  }

  ghost predicate SlotHolds(L: Layout, lh: seq<nat>, i: nat, latest: Disk)
    requires i < |lh| && GoodTransaction(L, lh) && |latest| == L.blocks
  {
    latest[L.Slot(i)] == latest[lh[i]]
  }

  /** The blocks named in the header on the disk. */
  function HeaderOf(m: Machine): seq<nat> {
    if m.phase.ToHome? || m.phase.ToClear? then m.logged else []
  }

  /** A header names these blocks. */
  ghost predicate HeaderSays(h: Block, lh: seq<nat>) {
    && HeaderCount(h) == |lh| && |lh| + 1 < WORDS
    && forall i {:trigger HeaderNames(h, lh, i)} :: 0 <= i < |lh| ==> HeaderNames(h, lh, i)
  }

  ghost predicate HeaderNames(h: Block, lh: seq<nat>, i: nat)
    requires i < |lh| && |lh| + 1 < WORDS
  {
    HeaderBlock(h, i) == lh[i]
  }

  lemma {:induction false} HomesAre(L: Layout, d: Disk, lh: seq<nat>)
    requires Recoverable(L, d) && HeaderSays(d[L.start], lh)
    ensures Homes(L, d) == lh
  {
    forall i | 0 <= i < |lh| ensures Homes(L, d)[i] == lh[i] { assert HeaderNames(d[L.start], lh, i); }
  }

  /** How many of the logged blocks are at home. */
  function AtHome(m: Machine): nat {
    match m.phase
    case ToHome(k) => k
    case ToClear => |m.logged|
    case _ => 0
  }

  /** The pinned blocks are those of the log from n on. */
  ghost predicate PinsOk(lh: seq<nat>, pinned: set<nat>, n: nat) {
    && (forall b {:trigger IsLogged(lh, b)} :: b in pinned ==> IsLogged(lh, b))
    && (forall i {:trigger PinnedAt(lh, pinned, i)} :: 0 <= i < |lh| ==> (PinnedAt(lh, pinned, i) <==> i >= n))
  }

  predicate IsLogged(lh: seq<nat>, b: nat) {
    b in lh
  }

  predicate PinnedAt(lh: seq<nat>, pinned: set<nat>, i: nat)
    requires i < |lh|
  {
    lh[i] in pinned
  }

  /** Outside operations nothing is changed, and a commit is outside operations. */
  ghost predicate InOrder(m: Machine) {
    && (m.ops == 0 ==> m.dirty == {}) && (m.phase != NoCommit ==> m.ops == 0 && m.logged != [])
    && (m.phase.ToLog? || m.phase.ToHome? ==> m.phase.k < |m.logged|)
  }

  /** The buffers are those of the machine. */
  ghost predicate InBuffers(L: Layout, bufs: seq<Buf>, v: View, m: Machine) {
    && v.pins.Keys == m.pinned && PinsOk(m.logged, m.pinned, AtHome(m))
    && BufsOk(L, bufs, v, m.held, m.dirty) && Quiet(bufs, v, L, {}) && SameHome(L, v.latest, m.blocks)
  }

  /** What is on the disk, as far as a commit has come, and what recovery would make of it. */
  ghost predicate OnDisk(L: Layout, v: View, m: Machine) {
    && Holds(L, v.disk, m.saved) && SlotsUpTo(L, m.logged, SlotsDone(m), v.latest)
    && HeaderSays(v.disk[L.start], HeaderOf(m))
  }

  /** The log is that of the machine, and so are the buffers. */
  ghost predicate InMemory(log: Log, m: Machine)
    reads log
  {
    && log.Core() && log.lh == m.logged && log.outstanding == m.ops && (log.committing <==> m.phase != NoCommit)
    && GoodTransaction(log.L, m.logged) && InOrder(m) && InBuffers(log.L, log.bufs, log.v, m)
  }

  ghost predicate Stands(log: Log, m: Machine)
    reads log
  {
    InMemory(log, m) && OnDisk(log.L, log.v, m)
  }

  ghost function ConfigOf(log: Log): Config
    reads log
  {
    Config(log.L, log.MAXOPBLOCKS, |log.bufs|)
  }

  /** The blocks the machine has in use are those with buffers that have references. */
  lemma {:induction false} UsedIsInUse(L: Layout, bufs: seq<Buf>, v: View, m: Machine)
    requires Coherent(bufs, v) && v.pins.Keys == m.pinned && BufsOk(L, bufs, v, m.held, m.dirty)
    ensures UsedBlocks(bufs) == InUse(m)
    ensures HasUnused(bufs) <==> |InUse(m)| < |bufs|
  {
    forall i | 0 <= i < |bufs| && bufs[i].refcnt > 0 ensures bufs[i].dev == v.dev && bufs[i].blockno in InUse(m) {
      assert RefsAt(bufs[i], v.users[i], v) && BufOk(bufs[i], v.users[i], i, v, m.held, m.dirty);
    }
    forall b: nat ensures b in UsedBlocks(bufs) <==> b in InUse(m) {
      UsedMember(bufs, b);
      if b in m.held {
        assert HeldAt(L, bufs, v.dev, b);
        var i :| 0 <= i < |bufs| && bufs[i].locked && bufs[i].Caches(v.dev, b);
        assert RefsAt(bufs[i], v.users[i], v);
        assert UsedAt(bufs, i, b);
      } else if b in v.pins {
        assert PinAt(bufs, v, b);
        assert RefsAt(bufs[v.pins[b]], v.users[v.pins[b]], v);
        assert UsedAt(bufs, v.pins[b], b);
      }
    }
    CountUsed(bufs, v.dev);
  }

  /** A block that is not held can be read exactly if the machine says so. */
  lemma {:induction false} CanRead(L: Layout, bufs: seq<Buf>, v: View, m: Machine, b: nat)
    requires Coherent(bufs, v) && v.pins.Keys == m.pinned && BufsOk(L, bufs, v, m.held, m.dirty) && b !in m.held
    ensures Cached(bufs, v.dev, b) || HasUnused(bufs) <==> b in m.pinned || |InUse(m)| < |bufs|
    ensures forall i :: 0 <= i < |bufs| && bufs[i].Caches(v.dev, b) ==> !bufs[i].locked
  {
    UsedIsInUse(L, bufs, v, m);
    if b in m.pinned { assert PinAt(bufs, v, b); }
    forall i | 0 <= i < |bufs| && bufs[i].Caches(v.dev, b) ensures !bufs[i].locked {
      assert BufOk(bufs[i], v.users[i], i, v, m.held, m.dirty);
    }
    if Cached(bufs, v.dev, b) && !HasUnused(bufs) {
      var i :| 0 <= i < |bufs| && bufs[i].Caches(v.dev, b);
      assert UsedAt(bufs, i, b);
      UsedMember(bufs, b);
    }
  }

  // ---------------------------------------------------------------- one call

  lemma {:induction false} BreadOk(L: Layout, bufs: seq<Buf>, v: View, m: Machine, i: nat, b: nat)
    requires Coherent(bufs, v) && BufsOk(L, bufs, v, m.held, m.dirty) && i < |bufs| && !bufs[i].locked && L.IsHome(b) &&
      L.blocks == |v.latest|
    requires SameHome(L, v.latest, m.blocks) && b !in m.held
    ensures BufsOk(L, bufs[i := Buf(v.dev, b, true, bufs[i].refcnt + 1, true, v.latest[b])], Taken(v, i),
                   Next(m, Bread(b)).held, Next(m, Bread(b)).dirty)
  {
    var buf := Buf(v.dev, b, true, bufs[i].refcnt + 1, true, v.latest[b]);
    var bufs', v', m' := bufs[i := buf], Taken(v, i), Next(m, Bread(b));
    assert BufOk(bufs[i], v.users[i], i, v, m.held, m.dirty) && CleanAt(bufs[i], i, v);
    forall j {:trigger BufOk(bufs'[j], v'.users[j], j, v', m'.held, m'.dirty)} | 0 <= j < |bufs'|
      ensures BufOk(bufs'[j], v'.users[j], j, v', m'.held, m'.dirty)
    {
      assert BufOk(bufs[j], v.users[j], j, v, m.held, m.dirty);
    }
    forall x {:trigger HeldAt(L, bufs', v'.dev, x)} | x in m'.held ensures HeldAt(L, bufs', v'.dev, x) {
      if x == b {
        assert bufs'[i].Caches(v'.dev, x);
      } else {
        assert HeldAt(L, bufs, v.dev, x);
        var j :| 0 <= j < |bufs| && bufs[j].locked && bufs[j].Caches(v.dev, x);
        assert bufs'[j].Caches(v'.dev, x);
      }
    }
  }

  /** Buffers change, but not which of them are locked, nor what for. */
  lemma {:induction false} SameHeld(L: Layout, bufs: seq<Buf>, bufs': seq<Buf>, dev: nat, b: nat)
    requires HeldAt(L, bufs, dev, b) && |bufs'| == |bufs|
    requires forall j :: 0 <= j < |bufs| && bufs[j].locked && bufs[j].Caches(dev, b) ==>
      bufs'[j].locked && bufs'[j].Caches(dev, b)
    ensures HeldAt(L, bufs', dev, b)
  {
    var j :| 0 <= j < |bufs| && bufs[j].locked && bufs[j].Caches(dev, b);
    assert bufs'[j].Caches(dev, b);
  }

  lemma {:induction false} StoreOk(L: Layout, bufs: seq<Buf>, v: View, m: Machine, i: nat, data: Block)
    requires Coherent(bufs, v) && BufsOk(L, bufs, v, m.held, m.dirty) && i < |bufs| && bufs[i].locked
    ensures var m' := Next(m, Store(bufs[i].blockno, data));
      BufsOk(L, Stored(bufs, i, data), v.(dirty := v.dirty + {i}), m'.held, m'.dirty)
  {
    var b := bufs[i].blockno;
    var bufs', v', m' := Stored(bufs, i, data), v.(dirty := v.dirty + {i}), Next(m, Store(b, data));
    assert BufOk(bufs[i], v.users[i], i, v, m.held, m.dirty);
    forall j {:trigger BufOk(bufs'[j], v'.users[j], j, v', m'.held, m'.dirty)} | 0 <= j < |bufs'|
      ensures BufOk(bufs'[j], v'.users[j], j, v', m'.held, m'.dirty)
    {
      assert BufOk(bufs[j], v.users[j], j, v, m.held, m.dirty);
      if j != i { OthersElsewhere(bufs, v, i, j); }
    }
    forall x {:trigger HeldAt(L, bufs', v'.dev, x)} | x in m'.held ensures HeldAt(L, bufs', v'.dev, x) {
      assert HeldAt(L, bufs, v.dev, x);
      SameHeld(L, bufs, bufs', v.dev, x);
    }
  }

  lemma {:induction false} LogWriteOk(L: Layout, bufs: seq<Buf>, v: View, m: Machine, i: nat, bufs': seq<Buf>, v': View)
    requires Coherent(bufs, v) && BufsOk(L, bufs, v, m.held, m.dirty) && i < |bufs| && bufs[i].locked &&
      |v.latest| == |m.blocks|
    requires bufs[i].blockno < |v.latest| && (bufs' == bufs || bufs' == Referenced(bufs, i))
    requires v' == Published(bufs, v, i).(pins := v'.pins)
    ensures var m' := Next(m, LogWrite(bufs[i].blockno)); BufsOk(L, bufs', v', m'.held, m'.dirty)
  {
    var b := bufs[i].blockno;
    var m' := Next(m, LogWrite(b));
    assert BufOk(bufs[i], v.users[i], i, v, m.held, m.dirty);
    forall j {:trigger BufOk(bufs'[j], v'.users[j], j, v', m'.held, m'.dirty)} | 0 <= j < |bufs'|
      ensures BufOk(bufs'[j], v'.users[j], j, v', m'.held, m'.dirty)
    {
      assert BufOk(bufs[j], v.users[j], j, v, m.held, m.dirty);
      if j != i { OthersElsewhere(bufs, v, i, j); }
    }
    forall x {:trigger HeldAt(L, bufs', v'.dev, x)} | x in m'.held ensures HeldAt(L, bufs', v'.dev, x) {
      assert HeldAt(L, bufs, v.dev, x);
      SameHeld(L, bufs, bufs', v.dev, x);
    }
  }

  lemma {:induction false} BrelseOk(L: Layout, bufs: seq<Buf>, v: View, m: Machine, i: nat)
    requires Coherent(bufs, v) && BufsOk(L, bufs, v, m.held, m.dirty) && i < |bufs| && bufs[i].locked &&
      bufs[i].blockno !in m.dirty
    ensures v.users[i] > 0 && bufs[i].refcnt > 0
    ensures var m' := Next(m, Brelse(bufs[i].blockno)); BufsOk(L, Released(bufs, i), Returned(v, i), m'.held, m'.dirty)
  {
    var b := bufs[i].blockno;
    assert RefsAt(bufs[i], v.users[i], v) && BufOk(bufs[i], v.users[i], i, v, m.held, m.dirty);
    var bufs', v', m' := Released(bufs, i), Returned(v, i), Next(m, Brelse(b));
    forall j {:trigger BufOk(bufs'[j], v'.users[j], j, v', m'.held, m'.dirty)} | 0 <= j < |bufs'|
      ensures BufOk(bufs'[j], v'.users[j], j, v', m'.held, m'.dirty)
    {
      assert BufOk(bufs[j], v.users[j], j, v, m.held, m.dirty);
      if j != i { OthersElsewhere(bufs, v, i, j); }
    }
    forall x {:trigger HeldAt(L, bufs', v'.dev, x)} | x in m'.held ensures HeldAt(L, bufs', v'.dev, x) {
      assert HeldAt(L, bufs, v.dev, x);
      SameHeld(L, bufs, bufs', v.dev, x);
    }
  }

  /** The disk has not changed, nor, during a commit, has what readers see. */
  ghost predicate SameDisk(m: Machine, v: View, v': View) {
    v'.disk == v.disk && (m.phase != NoCommit ==> v'.latest == v.latest)
  }

  /** The buffer in which a block is held. */
  method FindHeld(log: Log, b: nat, ghost m: Machine) returns (r: Option<nat>)
    requires InMemory(log, m)
    ensures r.Some? <==> b in m.held
    ensures r.Some? ==>
              && r.value < |log.bufs| && log.bufs[r.value].locked && log.bufs[r.value].valid
              && log.bufs[r.value].Caches(log.dev, b) && log.L.IsHome(b) && (r.value in log.v.dirty <==> b in m.dirty)
  {
    if i :| 0 <= i < |log.bufs| && log.bufs[i].locked && log.bufs[i].Caches(log.dev, b) {
      assert BufOk(log.bufs[i], log.v.users[i], i, log.v, m.held, m.dirty);
      assert HeldAt(log.L, log.bufs, log.v.dev, b);
      r := Some(i);
    } else {
      assert !HeldAt(log.L, log.bufs, log.v.dev, b);
      r := None;
    }
  }

  method StepBread(log: Log, b: nat, ghost m: Machine) returns (ok: bool, data: Block)
    requires InMemory(log, m)
    modifies log`v, log`bufs
    ensures ok <==> !Stops(ConfigOf(log), m, Bread(b))
    ensures |log.bufs| == |old(log.bufs)| && SameDisk(m, old(log.v), log.v)
    ensures ok ==> b < |m.blocks| && data == m.blocks[b] && InMemory(log, Next(m, Bread(b)))
  {
    ok, data := false, ZeroBlock();
    if !log.L.IsHome(b) { return; }
    var held := FindHeld(log, b, m);
    if held.Some? { return; }
    CanRead(log.L, log.bufs, log.v, m, b);
    ghost var bufs, v := log.bufs, log.v;
    var r := log.Bread(b);
    if r.Some? {
      BreadOk(log.L, bufs, v, m, r.value, b);
      ok, data := true, log.bufs[r.value].data;
      assert Next(m, Bread(b)) == m.(held := m.held[b := m.blocks[b]]);
    }
  }

  method StepStore(log: Log, b: nat, data: Block, ghost m: Machine) returns (ok: bool)
    requires InMemory(log, m) && !Misuse(m, Store(b, data))
    modifies log`v, log`bufs
    ensures ok <==> !Stops(ConfigOf(log), m, Store(b, data))
    ensures |log.bufs| == |old(log.bufs)| && SameDisk(m, old(log.v), log.v)
    ensures ok ==> InMemory(log, Next(m, Store(b, data)))
  {
    var r := FindHeld(log, b, m);
    if r.None? { return false; }
    StoreOk(log.L, log.bufs, log.v, m, r.value, data);
    log.Store(r.value, data);
    ok := true;
  }

  method StepLogWrite(log: Log, b: nat, ghost m: Machine) returns (ok: bool)
    requires InMemory(log, m) && (m.ops > 0 ==> log.Valid())
    modifies log`v, log`bufs, log`lh
    ensures ok <==> !Stops(ConfigOf(log), m, LogWrite(b))
    ensures |log.bufs| == |old(log.bufs)| && SameDisk(m, old(log.v), log.v)
    ensures ok ==> InMemory(log, Next(m, LogWrite(b)))
  {
    var r := FindHeld(log, b, m);
    if r.None? { return false; }
    ghost var bufs, v := log.bufs, log.v;
    ok := log.LogWrite(r.value);
    if ok { LogWriteStands(log.L, bufs, v, m, r.value, log.bufs, log.v, b); }
  }

  lemma {:induction false} LogWriteStands(L: Layout, bufs: seq<Buf>, v: View, m: Machine, i: nat, bufs': seq<Buf>,
                                          v': View,
                                          b: nat)
    requires Coherent(bufs, v) && InBuffers(L, bufs, v, m) && InOrder(m) && m.ops > 0
    requires i < |bufs| && bufs[i].locked && bufs[i].blockno == b < |v.latest| && b in m.held
    requires (bufs' == bufs || bufs' == Referenced(bufs, i)) && |v'.users| == |bufs'| && Quiet(bufs', v', L, {})
    requires v' == Published(bufs, v, i).(pins := v'.pins) && v'.pins.Keys == v.pins.Keys + {b}
    ensures InBuffers(L, bufs', v', Next(m, LogWrite(b))) && InOrder(Next(m, LogWrite(b)))
  {
    LogWriteOk(L, bufs, v, m, i, bufs', v');
    LoggedSame(L, bufs, v, m, i, b);
    LogWritePins(m, b);
  }

  lemma {:induction false} LogWritePins(m: Machine, b: nat)
    requires PinsOk(m.logged, m.pinned, AtHome(m)) && InOrder(m) && m.ops > 0 && b in m.held && b < |m.blocks|
    ensures var m' := Next(m, LogWrite(b));
      PinsOk(m'.logged, m'.pinned, AtHome(m')) && InOrder(m') && m'.pinned == m.pinned + {b}
  {
    var m' := Next(m, LogWrite(b));
    forall x {:trigger IsLogged(m'.logged, x)} | x in m'.pinned ensures IsLogged(m'.logged, x) {
      assert x in m.pinned ==> IsLogged(m.logged, x);
    }
    forall i {:trigger PinnedAt(m'.logged, m'.pinned, i)} | 0 <= i < |m'.logged|
      ensures PinnedAt(m'.logged, m'.pinned, i) <==> i >= AtHome(m')
    {
      if i < |m.logged| { assert PinnedAt(m.logged, m.pinned, i); }
    }
  }

  /** What log_write() publishes is what the machine's copy says. */
  lemma {:induction false} LoggedSame(L: Layout, bufs: seq<Buf>, v: View, m: Machine, i: nat, b: nat)
    requires BufsOk(L, bufs, v, m.held, m.dirty) && SameHome(L, v.latest, m.blocks) && i < |bufs| && bufs[i].locked &&
      bufs[i].blockno == b < |v.latest|
    ensures SameHome(L, Published(bufs, v, i).latest, Next(m, LogWrite(b)).blocks)
  {
    assert BufOk(bufs[i], v.users[i], i, v, m.held, m.dirty);
  }

  method StepBrelse(log: Log, b: nat, ghost m: Machine) returns (ok: bool)
    requires InMemory(log, m) && !Misuse(m, Brelse(b))
    modifies log`v, log`bufs
    ensures ok <==> !Stops(ConfigOf(log), m, Brelse(b))
    ensures |log.bufs| == |old(log.bufs)| && SameDisk(m, old(log.v), log.v)
    ensures ok ==> InMemory(log, Next(m, Brelse(b)))
  {
    var r := FindHeld(log, b, m);
    if r.None? { return false; }
    BrelseOk(log.L, log.bufs, log.v, m, r.value);
    log.Brelse(r.value);
    ok := true;
  }

  method StepBegin(log: Log, ghost m: Machine) returns (ok: bool)
    requires InMemory(log, m)
    modifies log`outstanding
    ensures ok <==> !Stops(ConfigOf(log), m, Begin)
    ensures ok ==> InMemory(log, Next(m, Begin))
  {
    ok := log.BeginOp();
  }

  /** end_op(), up to the first write of the commit. */
  method StepEnd(log: Log, ghost m: Machine) returns (ok: bool)
    requires InMemory(log, m) && !Misuse(m, End)
    modifies log`outstanding, log`committing, log`ncommit
    ensures ok <==> !Stops(ConfigOf(log), m, End)
    ensures ok ==> InMemory(log, Next(m, End))
  {
    if log.outstanding == 0 { return false; }
    var last := log.LeaveOp();
    if last && log.lh == [] { log.CommitDone(); }
    ok := true;
  }

  // ---------------------------------------------------------------- the writes of a commit

  /** With the header and the slots on the disk, recovery would give what readers see. */
  lemma {:induction false} ReplayIsLatest(L: Layout, v: View, lh: seq<nat>)
    requires Recoverable(L, v.disk) && HeaderSays(v.disk[L.start], lh) && SlotsUpTo(L, lh, |lh|, v.latest)
    requires RestAtHome(v) && v.pins.Keys <= SetOf(lh)
    ensures SameHome(L, Replay(L, v.disk), v.latest)
  {
    var d := v.disk;
    HomesAre(L, d, lh);
    assert InstallWrites(L, d, lh) == TransactionWrites(lh, Updates(v, lh)) by {
      forall i | 0 <= i < |lh| ensures d[L.Slot(i)] == v.latest[lh[i]] {
        assert !L.IsHome(L.Slot(i));
        assert SlotHolds(L, lh, i, v.latest);
      }
    }
    forall b: nat | L.IsHome(b) ensures Replay(L, d)[b] == v.latest[b] {
      TransactionIsLatest(L, d, v, lh, b);
    }
  }

  /** With the log on the disk, what recovery would give is what readers see. */
  lemma {:induction false} HoldsLatest(L: Layout, v: View, lh: seq<nat>, home: Disk)
    requires Recoverable(L, v.disk) && HeaderSays(v.disk[L.start], lh) && SlotsUpTo(L, lh, |lh|, v.latest)
    requires RestAtHome(v) && v.pins.Keys <= SetOf(lh)
    ensures Holds(L, v.disk, home) <==> SameHome(L, v.latest, home)
  {
    ReplayIsLatest(L, v, lh);
    HoldsReplay(L, v.disk, home);
    if Holds(L, v.disk, home) { SameHomeTransitive(L, v.latest, Replay(L, v.disk), home); }
    if SameHome(L, v.latest, home) { SameHomeTransitive(L, Replay(L, v.disk), v.latest, home); }
  }

  /** The cache agrees with the disk on what is not pinned. */
  ghost predicate RestAtHome(v: View) {
    |v.disk| == |v.latest| && forall n :: 0 <= n < |v.disk| && n !in v.pins ==> v.disk[n] == v.latest[n]
  }

  /** With no header, recovery leaves the disk as it is. */
  lemma {:induction false} HoldsIdle(L: Layout, d: Disk, home: Disk)
    requires L.Valid() && |d| == L.blocks && HeaderSays(d[L.start], [])
    ensures Recoverable(L, d) && (Holds(L, d, home) <==> SameHome(L, d, home))
  {
    ReplayIdle(L, d);
    HoldsReplay(L, d, home);
  }

  lemma {:induction false} NewHeader(L: Layout, d: Disk, h: Block, lh: seq<nat>)
    requires GoodTransaction(L, lh) && |d| == L.blocks
    ensures HeaderSays(PutHeader(h, lh), lh) && Recoverable(L, d[L.start := PutHeader(h, lh)])
  {
    HeaderRoundTrip(h, lh);
  }

  lemma {:induction false} SlotWritten(L: Layout, v: View, m: Machine, v': View, k: nat)
    requires OnDisk(L, v, m) && m.phase == ToLog(k) && k < |m.logged|
    requires var data := v.latest[m.logged[k]];
      v' == v.(disk := v.disk[L.Slot(k) := data], latest := v.latest[L.Slot(k) := data])
    ensures OnDisk(L, v', Advanced(m))
  {
    HoldsIdle(L, v.disk, m.saved);
    HoldsIdle(L, v'.disk, m.saved);
    OneSlotMore(L, m.logged, k, v.latest);
  }

  lemma {:induction false} OneSlotMore(L: Layout, lh: seq<nat>, k: nat, latest: Disk)
    requires SlotsUpTo(L, lh, k, latest) && k < |lh|
    ensures SlotsUpTo(L, lh, k + 1, latest[L.Slot(k) := latest[lh[k]]])
  {
    var latest' := latest[L.Slot(k) := latest[lh[k]]];
    forall i {:trigger SlotHolds(L, lh, i, latest')} | 0 <= i < k + 1 ensures SlotHolds(L, lh, i, latest') {
      assert L.IsHome(lh[i]) && !L.IsHome(L.Slot(k));
      assert i < k ==> SlotHolds(L, lh, i, latest);
    }
  }

  lemma {:induction false} SlotsKept(L: Layout, lh: seq<nat>, latest: Disk, h: Block)
    requires SlotsUpTo(L, lh, |lh|, latest)
    ensures SlotsUpTo(L, lh, |lh|, latest[L.start := h]) && SameHome(L, latest[L.start := h], latest)
  {
    var latest' := latest[L.start := h];
    forall i {:trigger SlotHolds(L, lh, i, latest')} | 0 <= i < |lh| ensures SlotHolds(L, lh, i, latest') {
      assert L.IsHome(lh[i]) && SlotHolds(L, lh, i, latest);
    }
  }

  /** The pinned blocks, before any has gone home and at any time. */
  lemma {:induction false} PinsAre(m: Machine)
    requires PinsOk(m.logged, m.pinned, AtHome(m))
    ensures m.pinned <= SetOf(m.logged) && (AtHome(m) == 0 ==> m.pinned == SetOf(m.logged))
    ensures AtHome(m) == |m.logged| ==> m.pinned == {}
  {
    forall b | b in m.pinned ensures b in m.logged { assert IsLogged(m.logged, b); }
    forall i | 0 <= i < |m.logged|
      ensures m.logged[i] in m.pinned <==> i >= AtHome(m)
    {
      assert PinnedAt(m.logged, m.pinned, i) || !PinnedAt(m.logged, m.pinned, i);
    }
  }

  /** With the new header the transaction is committed. */
  lemma {:induction false} HeaderWritten(L: Layout, v: View, m: Machine, v': View)
    requires OnDisk(L, v, m) && m.phase == ToHeader && RestAtHome(v) && SameHome(L, v.latest, m.blocks)
    requires v.pins.Keys <= SetOf(m.logged)
    requires var h := PutHeader(v.latest[L.start], m.logged);
      v' == v.(disk := v.disk[L.start := h], latest := v.latest[L.start := h])
    ensures OnDisk(L, v', Advanced(m))
  {
    NewHeader(L, v.disk, v.latest[L.start], m.logged);
    SlotsKept(L, m.logged, v.latest, PutHeader(v.latest[L.start], m.logged));
    SameHomeTransitive(L, v'.latest, v.latest, m.blocks);
    HoldsLatest(L, v', m.logged, m.blocks);
  }

  /** Putting blocks home leaves what recovery would give. */
  lemma {:induction false} HomeWritten(L: Layout, v: View, m: Machine, v': View, k: nat)
    requires OnDisk(L, v, m) && m.phase == ToHome(k) && k < |m.logged| && RestAtHome(v) &&
      v.pins.Keys <= SetOf(m.logged)
    requires var b := m.logged[k];
      v' == v.(disk := v.disk[b := v.latest[b]], latest := v.latest[b := v.latest[b]], pins := v.pins - {b})
    ensures OnDisk(L, v', Advanced(m))
  {
    assert L.IsHome(m.logged[k]);
    assert v'.latest == v.latest;
    HoldsLatest(L, v, m.logged, m.saved);
    HoldsLatest(L, v', m.logged, m.saved);
  }

  lemma {:induction false} HeaderCleared(L: Layout, v: View, m: Machine, v': View)
    requires OnDisk(L, v, m) && m.phase == ToClear && RestAtHome(v) && v.pins.Keys == {}
    requires var h := PutHeader(v.latest[L.start], []);
      v' == v.(disk := v.disk[L.start := h], latest := v.latest[L.start := h])
    ensures OnDisk(L, v', Advanced(m))
  {
    HoldsLatest(L, v, m.logged, m.saved);
    NewHeader(L, v.disk, v.latest[L.start], []);
    HoldsIdle(L, v'.disk, m.saved);
  }

  /** What a write of a commit does to the machine's memory. */
  lemma {:induction false} AdvanceKeeps(m: Machine)
    requires InOrder(m) && PinsOk(m.logged, m.pinned, AtHome(m)) && m.phase != NoCommit && Distinct(m.logged)
    ensures var m' := Advanced(m);
      && InOrder(m') && PinsOk(m'.logged, m'.pinned, AtHome(m')) && m'.held == m.held && m'.dirty == m.dirty == {} &&
          m'.blocks == m.blocks && m'.ops == m.ops == 0
      && m'.logged == (if m.phase.ToClear? then [] else m.logged) && (m'.phase == NoCommit <==> m.phase.ToClear?)
      && m'.pinned == m.pinned - (if m.phase.ToHome? then Wanted(m) else {})
      && m'.saved == (if m.phase.ToHeader? then m.blocks else m.saved)
      && (m.phase.ToHeader? || m.phase.ToHome? ==> SlotsDone(m') == |m.logged| && HeaderOf(m') == m.logged)
  {
    var m' := Advanced(m);
    PinsAre(m);
    forall b {:trigger IsLogged(m'.logged, b)} | b in m'.pinned
      ensures IsLogged(m'.logged, b)
    {
      assert IsLogged(m.logged, b);
    }
    forall i {:trigger PinnedAt(m'.logged, m'.pinned, i)} | 0 <= i < |m'.logged|
      ensures PinnedAt(m'.logged, m'.pinned, i) <==> i >= AtHome(m')
    {
      assert PinnedAt(m.logged, m.pinned, i) <==> i >= AtHome(m);
      if m.phase.ToHome? && i != m.phase.k { assert Differ(m.logged, i, m.phase.k) || Differ(m.logged, m.phase.k, i); }
    }
  }

  /** The blocks a write of a commit must find unlocked. */
  function Wanted(m: Machine): set<nat> {
    if (m.phase.ToLog? || m.phase.ToHome?) && m.phase.k < |m.logged| then {m.logged[m.phase.k]} else {}
  }

  predicate Blocked(m: Machine) {
    (m.phase.ToLog? || m.phase.ToHome?) && m.phase.k < |m.logged| && m.logged[m.phase.k] in m.held
  }

  /** A write of a commit gets through exactly if its block is free and there is a buffer. */
  lemma {:induction false} BeforeWrite(L: Layout, maxop: nat, bufs: seq<Buf>, v: View, m: Machine)
    requires Coherent(bufs, v) && InBuffers(L, bufs, v, m) && InOrder(m) && m.phase != NoCommit
    requires GoodTransaction(L, m.logged)
    ensures Stops(Config(L, maxop, |bufs|), m, Commit) <==> !HasUnused(bufs) || Blocked(m)
    ensures v.dirty == {} && (!Blocked(m) ==> Quiet(bufs, v, L, Wanted(m)))
    ensures forall b :: b in v.pins ==> L.IsHome(b)
    ensures forall b :: b in Wanted(m) ==> b in v.pins && L.IsHome(b)
  {
    UsedIsInUse(L, bufs, v, m);
    forall i | 0 <= i < |bufs| ensures i !in v.dirty {
      assert CleanAt(bufs[i], i, v) && BufOk(bufs[i], v.users[i], i, v, m.held, m.dirty);
    }
    forall i | 0 <= i < |bufs| && bufs[i].dev == v.dev && bufs[i].locked ensures bufs[i].blockno in m.held {
      assert BufOk(bufs[i], v.users[i], i, v, m.held, m.dirty);
    }
    forall b | b in v.pins ensures L.IsHome(b) { assert IsLogged(m.logged, b); }
    assert m.phase.ToLog? || m.phase.ToHome? ==> PinnedAt(m.logged, m.pinned, m.phase.k);
  }

  /** A write of a commit leaves locked buffers to their holders. */
  lemma {:induction false} AfterWrite(L: Layout, bufs: seq<Buf>, v: View, m: Machine, bufs': seq<Buf>, v': View)
    requires InBuffers(L, bufs, v, m) && InOrder(m) && m.phase != NoCommit && GoodTransaction(L, m.logged)
    requires Undisturbed(bufs, bufs') && v'.users == v.users && |v.users| == |bufs|
    requires Quiet(bufs', v', L, {}) && v'.dev == v.dev && v'.dirty == v.dirty == {} && SameHome(L, v'.latest, v.latest)
    requires v'.pins == v.pins - (if m.phase.ToHome? then Wanted(m) else {})
    ensures InBuffers(L, bufs', v', Advanced(m)) && InOrder(Advanced(m))
  {
    AdvanceKeeps(m);
    assert v'.pins.Keys == v.pins.Keys - (if m.phase.ToHome? then Wanted(m) else {});
    var held := m.held;
    forall j {:trigger BufOk(bufs'[j], v'.users[j], j, v', held, {})} | 0 <= j < |bufs'|
      ensures BufOk(bufs'[j], v'.users[j], j, v', held, {})
    {
      assert BufOk(bufs[j], v.users[j], j, v, held, {});
    }
    forall x {:trigger HeldAt(L, bufs', v'.dev, x)} | x in held ensures HeldAt(L, bufs', v'.dev, x) {
      assert HeldAt(L, bufs, v.dev, x);
      SameHeld(L, bufs, bufs', v.dev, x);
    }
    SameHomeTransitive(L, v'.latest, v.latest, m.blocks);
  }

  /** One block written, and what readers see of the log's own blocks. */
  ghost predicate Wrote(w: seq<Write>, w': seq<Write>, v: View, v': View, b: nat, data: Block) {
    && b < |v.disk| == |v.latest| && w' == w + [Write(b, data)]
    && v' == v.(disk := v.disk[b := data], latest := v.latest[b := data], pins := v'.pins)
  }

  ghost predicate Appended(w: seq<Write>, w': seq<Write>) {
    exists x :: w' == w + [x]
  }

  lemma {:induction false} OneWrite(boot: Disk, w: seq<Write>, v: View, v': View, b: nat, data: Block)
    requires v.disk == ApplyAll(boot, w) && v'.disk == ApplyAll(boot, w + [Write(b, data)]) && b < |boot| == |v.latest|
    requires v' == v.(disk := v'.disk, latest := v.latest[b := data], pins := v'.pins)
    ensures Wrote(w, w + [Write(b, data)], v, v', b, data)
  {
    assert (w + [Write(b, data)])[..|w|] == w;
  }

  /** What the three kinds of write in a commit have in common. */
  ghost predicate WroteQuietly(L: Layout, w: seq<Write>, bufs: seq<Buf>, v: View, w': seq<Write>, bufs': seq<Buf>,
                               v': View,
                               b: nat, data: Block)
  {
    && Wrote(w, w', v, v', b, data) && Undisturbed(bufs, bufs') && |v'.users| == |bufs'| && Quiet(bufs', v', L, {})
  }

  method WriteSlot(log: Log, lb: nat, b: nat) returns (ok: bool)
    requires log.Core() && log.PinsAtHome() && log.v.dirty == {} && log.L.InLog(lb) && b in log.v.pins && lb != b
    requires Quiet(log.bufs, log.v, log.L, {b}) && b < |log.v.latest|
    modifies log`v, log`disk, log`writes, log`bufs
    ensures log.Core() && (ok <==> HasUnused(old(log.bufs)))
    ensures !ok ==> log.writes == old(log.writes)
    ensures ok ==>
      && log.v.pins == old(log.v.pins)
      && WroteQuietly(log.L, old(log.writes), old(log.bufs), old(log.v), log.writes, log.bufs, log.v, lb,
                      old(log.v.latest)[b])
  {
    ok := log.LogOne(lb, b, {b});
    if ok { OneWrite(log.boot, old(log.writes), old(log.v), log.v, lb, old(log.v.latest)[b]); }
  }

  method WriteHeader(log: Log) returns (ok: bool)
    requires log.Core() && log.PinsAtHome() && log.v.dirty == {} && Quiet(log.bufs, log.v, log.L, {})
    requires forall i :: 0 <= i < |log.lh| ==> log.lh[i] < log.L.blocks
    modifies log`v, log`disk, log`writes, log`bufs
    ensures log.Core() && (ok <==> HasUnused(old(log.bufs)))
    ensures !ok ==> log.writes == old(log.writes)
    ensures ok ==>
      && log.v.pins == old(log.v.pins)
      && WroteQuietly(log.L, old(log.writes), old(log.bufs), old(log.v), log.writes, log.bufs, log.v, log.L.start,
                      PutHeader(old(log.v.latest)[log.L.start], log.lh))
  {
    ok := log.WriteHead({});
    if ok {
      OneWrite(log.boot, old(log.writes), old(log.v), log.v, log.L.start,
               PutHeader(old(log.v.latest)[log.L.start], log.lh));
    }
  }

  method WriteNoHeader(log: Log) returns (ok: bool)
    requires log.Core() && log.PinsAtHome() && log.v.dirty == {} && Quiet(log.bufs, log.v, log.L, {})
    modifies log`v, log`disk, log`writes, log`bufs, log`lh
    ensures log.Core() && (ok <==> HasUnused(old(log.bufs))) && log.lh == []
    ensures !ok ==> log.writes == old(log.writes)
    ensures ok ==>
      && log.v.pins == old(log.v.pins)
      && WroteQuietly(log.L, old(log.writes), old(log.bufs), old(log.v), log.writes, log.bufs, log.v, log.L.start,
                      PutHeader(old(log.v.latest)[log.L.start], []))
  {
    log.lh := [];
    ok := WriteHeader(log);
  }

  method WriteHome(log: Log, k: nat, ghost m: Machine) returns (ok: bool)
    requires log.Core() && log.PinsAtHome() && log.v.dirty == {} && log.lh == m.logged && OnDisk(log.L, log.v, m)
    requires m.phase == ToHome(k) && k < |log.lh| && log.lh[k] in log.v.pins
    requires Quiet(log.bufs, log.v, log.L, {log.lh[k]})
    modifies log`v, log`disk, log`writes, log`bufs
    ensures log.Core() && (ok <==> HasUnused(old(log.bufs)))
    ensures !ok ==> log.writes == old(log.writes)
    ensures log.lh[k] < |old(log.v.latest)|
    ensures ok ==>
      && log.v.pins == old(log.v.pins) - {log.lh[k]}
      && WroteQuietly(log.L, old(log.writes), old(log.bufs), old(log.v), log.writes, log.bufs, log.v, log.lh[k],
                      old(log.v.latest)[log.lh[k]])
  {
    var b := log.lh[k];
    assert SlotHolds(log.L, log.lh, k, log.v.latest);
    ok := log.InstallOne(log.L.Slot(k), b, {b});
    if ok {
      ghost var latest := old(log.v.latest);
      assert latest[b := latest[b]] == latest;
      OneWrite(log.boot, old(log.writes), old(log.v), log.v, b, latest[b]);
    }
  }

  method StepToLog(log: Log, k: nat, ghost m: Machine) returns (ok: bool)
    requires Stands(log, m) && m.phase == ToLog(k)
    modifies log
    ensures ok <==> !Stops(old(ConfigOf(log)), m, Commit)
    ensures !ok ==> log.writes == old(log.writes)
    ensures ok ==> Stands(log, Advanced(m)) && |log.bufs| == |old(log.bufs)| && Appended(old(log.writes), log.writes)
  {
    var b := log.lh[k];
    BeforeWrite(log.L, log.MAXOPBLOCKS, log.bufs, log.v, m);
    var held := FindHeld(log, b, m);
    if held.Some? { return false; }
    ok := WriteSlot(log, log.L.Slot(k), b);
    if ok { SlotStands(log.L, old(log.writes), old(log.bufs), old(log.v), m, log.writes, log.bufs, log.v, k); }
  }

  lemma {:induction false} SlotStands(L: Layout, w: seq<Write>, bufs: seq<Buf>, v: View, m: Machine, w': seq<Write>,
                                      bufs': seq<Buf>, v': View, k: nat)
    requires InBuffers(L, bufs, v, m) && OnDisk(L, v, m) && InOrder(m) && m.phase == ToLog(k) && |v.users| == |bufs|
    requires v.dirty == {} && v'.pins == v.pins
    requires WroteQuietly(L, w, bufs, v, w', bufs', v', L.Slot(k), v.latest[m.logged[k]])
    ensures InBuffers(L, bufs', v', Advanced(m)) && InOrder(Advanced(m)) && OnDisk(L, v', Advanced(m))
    ensures Advanced(m).logged == m.logged && Advanced(m).ops == m.ops && Advanced(m).phase != NoCommit
  {
    AdvanceKeeps(m);
    SlotWritten(L, v, m, v', k);
    AfterWrite(L, bufs, v, m, bufs', v');
  }

  method StepToHeader(log: Log, ghost m: Machine) returns (ok: bool)
    requires Stands(log, m) && m.phase == ToHeader
    modifies log
    ensures ok <==> !Stops(old(ConfigOf(log)), m, Commit)
    ensures !ok ==> log.writes == old(log.writes)
    ensures ok ==> Stands(log, Advanced(m)) && |log.bufs| == |old(log.bufs)| && Appended(old(log.writes), log.writes)
  {
    BeforeWrite(log.L, log.MAXOPBLOCKS, log.bufs, log.v, m);
    ok := WriteHeader(log);
    if ok { HeaderStands(log.L, old(log.writes), old(log.bufs), old(log.v), m, log.writes, log.bufs, log.v); }
  }

  lemma {:induction false} HeaderStands(L: Layout, w: seq<Write>, bufs: seq<Buf>, v: View, m: Machine, w': seq<Write>,
                                        bufs': seq<Buf>, v': View)
    requires InBuffers(L, bufs, v, m) && OnDisk(L, v, m) && InOrder(m) && m.phase == ToHeader && |v.users| == |bufs|
    requires v.dirty == {} && v'.pins == v.pins && RestAtHome(v)
    requires WroteQuietly(L, w, bufs, v, w', bufs', v', L.start, PutHeader(v.latest[L.start], m.logged))
    ensures InBuffers(L, bufs', v', Advanced(m)) && InOrder(Advanced(m)) && OnDisk(L, v', Advanced(m))
    ensures Advanced(m).logged == m.logged && Advanced(m).ops == m.ops && Advanced(m).phase != NoCommit
  {
    AdvanceKeeps(m);
    PinsAre(m);
    HeaderWritten(L, v, m, v');
    AfterWrite(L, bufs, v, m, bufs', v');
  }

  method StepToHome(log: Log, k: nat, ghost m: Machine) returns (ok: bool)
    requires Stands(log, m) && m.phase == ToHome(k)
    modifies log
    ensures ok <==> !Stops(old(ConfigOf(log)), m, Commit)
    ensures !ok ==> log.writes == old(log.writes)
    ensures ok ==> Stands(log, Advanced(m)) && |log.bufs| == |old(log.bufs)| && Appended(old(log.writes), log.writes)
  {
    BeforeWrite(log.L, log.MAXOPBLOCKS, log.bufs, log.v, m);
    var held := FindHeld(log, log.lh[k], m);
    assert held.Some? <==> Blocked(m);
    if held.Some? { return false; }
    ok := WriteHome(log, k, m);
    if ok { HomeStands(log.L, old(log.writes), old(log.bufs), old(log.v), m, log.writes, log.bufs, log.v, k); }
  }

  lemma {:induction false} HomeStands(L: Layout, w: seq<Write>, bufs: seq<Buf>, v: View, m: Machine, w': seq<Write>,
                                      bufs': seq<Buf>, v': View, k: nat)
    requires InBuffers(L, bufs, v, m) && OnDisk(L, v, m) && InOrder(m) && m.phase == ToHome(k) && |v.users| == |bufs|
    requires v.dirty == {} && v'.pins == v.pins - {m.logged[k]} && RestAtHome(v)
    requires WroteQuietly(L, w, bufs, v, w', bufs', v', m.logged[k], v.latest[m.logged[k]])
    ensures InBuffers(L, bufs', v', Advanced(m)) && InOrder(Advanced(m)) && OnDisk(L, v', Advanced(m))
    ensures Advanced(m).logged == m.logged && Advanced(m).ops == m.ops && Advanced(m).phase != NoCommit
  {
    AdvanceKeeps(m);
    PinsAre(m);
    HomeWritten(L, v, m, v', k);
    AfterWrite(L, bufs, v, m, bufs', v');
  }

  /** The last write of a commit, and the rest of end_op(). */
  method StepToClear(log: Log, ghost m: Machine) returns (ok: bool)
    requires Stands(log, m) && m.phase == ToClear
    modifies log
    ensures ok <==> !Stops(old(ConfigOf(log)), m, Commit)
    ensures !ok ==> log.writes == old(log.writes)
    ensures ok ==> Stands(log, Advanced(m)) && |log.bufs| == |old(log.bufs)| && Appended(old(log.writes), log.writes)
  {
    ok := Clear(log, m);
    if ok { log.CommitDone(); }
  }

  method Clear(log: Log, ghost m: Machine) returns (ok: bool)
    requires Stands(log, m) && m.phase == ToClear
    modifies log`v, log`disk, log`writes, log`bufs, log`lh
    ensures ok <==> !Stops(old(ConfigOf(log)), m, Commit)
    ensures !ok ==> log.writes == old(log.writes)
    ensures ok ==> log.Core() && log.lh == Advanced(m).logged == [] && Advanced(m).phase == NoCommit
    ensures ok ==> Advanced(m).ops == m.ops && InOrder(Advanced(m))
    ensures ok ==> InBuffers(log.L, log.bufs, log.v, Advanced(m)) && OnDisk(log.L, log.v, Advanced(m))
    ensures ok ==> |log.bufs| == |old(log.bufs)| && Appended(old(log.writes), log.writes)
  {
    BeforeWrite(log.L, log.MAXOPBLOCKS, log.bufs, log.v, m);
    ok := WriteNoHeader(log);
    if ok { ClearStands(log.L, old(log.writes), old(log.bufs), old(log.v), m, log.writes, log.bufs, log.v); }
  }

  lemma {:induction false} ClearStands(L: Layout, w: seq<Write>, bufs: seq<Buf>, v: View, m: Machine, w': seq<Write>,
                                       bufs': seq<Buf>, v': View)
    requires InBuffers(L, bufs, v, m) && OnDisk(L, v, m) && InOrder(m) && m.phase == ToClear && |v.users| == |bufs|
    requires v.dirty == {} && v'.pins == v.pins && RestAtHome(v)
    requires WroteQuietly(L, w, bufs, v, w', bufs', v', L.start, PutHeader(v.latest[L.start], []))
    ensures InBuffers(L, bufs', v', Advanced(m)) && InOrder(Advanced(m)) && OnDisk(L, v', Advanced(m))
    ensures Advanced(m).logged == [] && Advanced(m).ops == m.ops && Advanced(m).phase == NoCommit
  {
    AdvanceKeeps(m);
    PinsAre(m);
    HeaderCleared(L, v, m, v');
    AfterWrite(L, bufs, v, m, bufs', v');
  }

  /** The next write of a commit; pc is where the process that commits has come to. */
  method StepCommit(log: Log, pc: Phase, ghost m: Machine) returns (ok: bool, pc': Phase)
    requires Stands(log, m) && pc == m.phase
    modifies log
    ensures ok <==> !Stops(old(ConfigOf(log)), m, Commit)
    ensures !ok ==> log.writes == old(log.writes)
    ensures ok ==> Stands(log, Advanced(m)) && |log.bufs| == |old(log.bufs)| && pc' == Advanced(m).phase
    ensures ok ==> Appended(old(log.writes), log.writes)
  {
    pc' := pc;
    match pc
    case NoCommit => ok := false;
    case ToLog(k) =>
      pc' := if k + 1 < |log.lh| then ToLog(k + 1) else ToHeader;
      ok := StepToLog(log, k, m);
    case ToHeader =>
      pc' := ToHome(0);
      ok := StepToHeader(log, m);
    case ToHome(k) =>
      pc' := if k + 1 < |log.lh| then ToHome(k + 1) else ToClear;
      ok := StepToHome(log, k, m);
    case ToClear =>
      pc' := NoCommit;
      ok := StepToClear(log, m);
  }

  // ---------------------------------------------------------------- crashes

  /** A crash after any number of the writes since w0 leaves what the machine says. */
  ghost predicate Durable(L: Layout, boot: Disk, w0: seq<Write>, w: seq<Write>, m: Machine, calls: seq<Call>) {
    && w0 <= w && |w| == |w0| + Costs(m, calls)
    && forall k {:trigger Survives(m, calls, k)} :: 0 <= k <= Costs(m, calls) ==>
         Holds(L, ApplyAll(boot, w[..|w0| + k]), Survives(m, calls, k))
  }

  lemma {:induction false} DurableAtFirst(L: Layout, boot: Disk, w: seq<Write>, m: Machine)
    requires Holds(L, ApplyAll(boot, w), m.saved)
    ensures Durable(L, boot, w, w, m, [])
  {
    assert w[..|w|] == w;
  }

  lemma {:induction false} DurableMore(L: Layout, boot: Disk, w0: seq<Write>, w: seq<Write>, w': seq<Write>, m: Machine,
                                       calls: seq<Call>, c: Call)
    requires Durable(L, boot, w0, w, m, calls)
    requires if Cost(AfterCalls(m, calls), c) == 0 then w' == w else Appended(w, w')
    requires Holds(L, ApplyAll(boot, w'), Next(AfterCalls(m, calls), c).saved)
    ensures Durable(L, boot, w0, w', m, calls + [c])
  {
    OneMore(m, calls, c);
    forall k {:trigger Survives(m, calls + [c], k)} | 0 <= k <= Costs(m, calls + [c])
      ensures Holds(L, ApplyAll(boot, w'[..|w0| + k]), Survives(m, calls + [c], k))
    {
      if k == Costs(m, calls + [c]) {
        assert w'[..|w0| + k] == w';
      } else {
        assert w'[..|w0| + k] == w[..|w0| + k];
        assert Survives(m, calls + [c], k) == Survives(m, calls, k);
      }
    }
  }

  /** A crash at any time: after the last write, it leaves what the last write left. */
  lemma {:induction false} DurableAt(L: Layout, boot: Disk, w0: seq<Write>, w: seq<Write>, m: Machine, calls: seq<Call>,
                                     k: nat)
    requires Durable(L, boot, w0, w, m, calls)
    ensures Holds(L, ApplyAll(boot, w[..|w0| + Min(k, |w| - |w0|)]), Survives(m, calls, k))
  {
    assert Survives(m, calls, k) == Survives(m, calls, Min(k, Costs(m, calls)));
  }

  // ---------------------------------------------------------------- runs

  /** A run so far: the stack stands for the machine, and a crash leaves what the machine says. */
  ghost predicate Running(log: Log, g: Config, w0: seq<Write>, m: Machine, calls: seq<Call>)
    reads log
  {
    && ConfigOf(log) == g && Stands(log, AfterCalls(m, calls)) && GetsThrough(g, m, calls)
    && Durable(log.L, log.boot, w0, log.writes, m, calls)
  }

  lemma {:induction false} OneLonger(calls: seq<Call>, done: nat)
    requires done < |calls|
    ensures calls[..done + 1] == calls[..done] + [calls[done]]
  {
  }

  /** One call of a run, the one after the first done; more is what a bread() returned. */
  method Step(log: Log, pc: Phase, calls: seq<Call>, done: nat, ghost g: Config, ghost w0: seq<Write>, ghost m: Machine)
    returns (ok: bool, more: seq<Block>, pc': Phase)
    requires done < |calls| && Running(log, g, w0, m, calls[..done]) && pc == AfterCalls(m, calls[..done]).phase
    requires !Misuse(AfterCalls(m, calls[..done]), calls[done])
    modifies log
    ensures ok <==> !Stops(g, AfterCalls(m, calls[..done]), calls[done])
    ensures ok ==> Running(log, g, w0, m, calls[..done + 1]) && pc' == AfterCalls(m, calls[..done + 1]).phase
    ensures ok ==> Reads(m, calls[..done + 1]) == Reads(m, calls[..done]) + more
    ensures !ok ==> Durable(log.L, log.boot, w0, log.writes, m, calls[..done])
  {
    OneLonger(calls, done);
    ok, more, pc' := StepAfter(log, pc, calls[done], g, w0, m, calls[..done]);
  }

  method StepAfter(log: Log, pc: Phase, c: Call, ghost g: Config, ghost w0: seq<Write>, ghost m: Machine,
                   ghost calls: seq<Call>)
    returns (ok: bool, more: seq<Block>, pc': Phase)
    requires Running(log, g, w0, m, calls) && pc == AfterCalls(m, calls).phase && !Misuse(AfterCalls(m, calls), c)
    modifies log
    ensures ok <==> !Stops(g, AfterCalls(m, calls), c)
    ensures ok ==> Running(log, g, w0, m, calls + [c]) && pc' == AfterCalls(m, calls + [c]).phase
    ensures ok ==> Reads(m, calls + [c]) == Reads(m, calls) + more
    ensures !ok ==> Durable(log.L, log.boot, w0, log.writes, m, calls)
  {
    OneMore(m, calls, c);
    ok, more, pc' := StepAny(log, pc, c, AfterCalls(m, calls));
    if ok {
      OneMoreThrough(g, m, calls, c);
      DurableMore(log.L, log.boot, w0, old(log.writes), log.writes, m, calls, c);
    }
  }

  method StepAny(log: Log, pc: Phase, c: Call, ghost m: Machine) returns (ok: bool, read: seq<Block>, pc': Phase)
    requires Stands(log, m) && pc == m.phase && !Misuse(m, c)
    modifies log
    ensures ok <==> !Stops(old(ConfigOf(log)), m, c)
    ensures !ok ==> log.writes == old(log.writes)
    ensures ok ==> if Cost(m, c) == 0 then log.writes == old(log.writes) else Appended(old(log.writes), log.writes)
    ensures ok ==> Stands(log, Next(m, c)) && |log.bufs| == |old(log.bufs)| && pc' == Next(m, c).phase
    ensures ok ==> read == if c.Bread? && c.b < |m.blocks| then [m.blocks[c.b]] else []
  {
    read := [];
    if c.Commit? {
      ok, pc' := StepCommit(log, pc, m);
    } else {
      ghost var v := log.v;
      QuietValid(log, m);
      ok, read := StepQuiet(log, c, m);
      if ok { OnDiskStill(log.L, v, m, c, log.v); }
      pc' := if log.committing && pc == NoCommit then ToLog(0) else pc;
    }
  }

  /** Between commits the log is as it was left. */
  lemma {:induction false} QuietValid(log: Log, m: Machine)
    requires Stands(log, m)
    ensures m.ops > 0 ==> log.Valid()
  {
    PinsAre(m);
  }

  /** Other calls leave the disk alone. */
  lemma {:induction false} OnDiskStill(L: Layout, v: View, m: Machine, c: Call, v': View)
    requires OnDisk(L, v, m) && InOrder(m) && SameDisk(m, v, v') && !c.Commit? && (c.LogWrite? || c.End? ==> m.ops > 0)
    requires GoodTransaction(L, Next(m, c).logged) && |v'.latest| == L.blocks
    ensures OnDisk(L, v', Next(m, c))
  {
  }

  /** A call that writes nothing. */
  method StepQuiet(log: Log, c: Call, ghost m: Machine) returns (ok: bool, read: seq<Block>)
    requires InMemory(log, m) && !Misuse(m, c) && !c.Commit? && (m.ops > 0 ==> log.Valid())
    modifies log`v, log`bufs, log`lh, log`outstanding, log`committing, log`ncommit
    ensures ok <==> !Stops(old(ConfigOf(log)), m, c)
    ensures |log.bufs| == |old(log.bufs)| && SameDisk(m, old(log.v), log.v)
    ensures ok ==> InMemory(log, Next(m, c)) && read == if c.Bread? && c.b < |m.blocks| then [m.blocks[c.b]] else []
  {
    read := [];
    match c
    case Bread(b) =>
      var data;
      ok, data := StepBread(log, b, m);
      if ok { read := [data]; }
    case Store(b, data) => ok := StepStore(log, b, data, m);
    case LogWrite(b) => ok := StepLogWrite(log, b, m);
    case Brelse(b) => ok := StepBrelse(log, b, m);
    case Begin => ok := StepBegin(log, m);
    case End => ok := StepEnd(log, m);
  }

  /**
   Every run.  It gets through as many calls as the machine does and stops where the machine stops; its reads return
   what the machine's do; and a crash after any number of its disk writes, or none, leaves the blocks as they were at
   the last commit whose header was written.
   */
  method Run(log: Log, calls: seq<Call>, pc0: Phase, ghost m: Machine) returns (done: nat, read: seq<Block>, pc: Phase)
    requires Stands(log, m) && pc0 == m.phase && Proper(ConfigOf(log), m, calls)
    modifies log
    ensures done <= |calls| && GetsThrough(old(ConfigOf(log)), m, calls[..done])
    ensures done < |calls| ==> Stops(old(ConfigOf(log)), AfterCalls(m, calls[..done]), calls[done])
    ensures read == Reads(m, calls[..done])
    ensures done == |calls| ==> Stands(log, AfterCalls(m, calls)) && pc == AfterCalls(m, calls).phase
    ensures Durable(log.L, log.boot, old(log.writes), log.writes, m, calls[..done])
  {
    ghost var g, w0 := ConfigOf(log), log.writes;
    DurableAtFirst(log.L, log.boot, w0, m);
    done, read, pc := 0, [], pc0;
    while done < |calls|
      invariant done <= |calls| && Running(log, g, w0, m, calls[..done]) && read == Reads(m, calls[..done])
      invariant pc == AfterCalls(m, calls[..done]).phase
    {
      assert !Misused(m, calls, done);
      var ok, more;
      ok, more, pc := Step(log, pc, calls, done, g, w0, m);
      if !ok { return; }
      read := read + more;
      done := done + 1;
    }
    assert calls[..done] == calls;
  }

  // ---------------------------------------------------------------- booting

  lemma {:induction false} IdleOk(L: Layout, bufs: seq<Buf>, v: View)
    requires Idle(bufs, v)
    ensures BufsOk(L, bufs, v, map[], {})
  {
  }

  /** recover_from_log(), at boot: the stack then stands for a machine with the committed blocks. */
  method BootLog(log: Log, ghost home: Disk) returns (ok: bool)
    requires log.Core() && Idle(log.bufs, log.v) && Recoverable(log.L, log.disk) && log.outstanding == 0 &&
      !log.committing
    requires Holds(log.L, log.disk, home)
    modifies log
    ensures ok <==> |old(log.bufs)| >= (if HeaderCount(old(log.disk)[log.L.start]) == 0 then 1 else 2)
    ensures ok ==> Stands(log, Fresh(home)) && |log.bufs| == |old(log.bufs)|
  {
    ok := log.RecoverAll();
    if ok {
      IdleOk(log.L, log.bufs, log.v);
      HoldsReplay(log.L, old(log.disk), home);
      SameHomeTransitive(log.L, log.disk, Replay(log.L, old(log.disk)), home);
      HoldsIdle(log.L, log.disk, home);
    }
  }

  /** Booting on a disk, crashed or not.  None is a panic. */
  method Boot(layout: Layout, device: nat, maxop: nat, nbuf: nat, d: Disk, ghost home: Disk) returns (r: Option<Log>)
    requires Holds(layout, d, home) && device != 0
    ensures r.Some? <==> nbuf >= (if HeaderCount(d[layout.start]) == 0 then 1 else 2)
    ensures r.Some? ==>
      && fresh(r.value) && r.value.boot == d && ConfigOf(r.value) == Config(layout, maxop, nbuf)
      && Stands(r.value, Fresh(home))
  {
    var log := new Log(layout, device, maxop, nbuf, d);
    var ok := BootLog(log, home);
    r := if ok then Some(log) else None;
  }

  /** The operations that fill the log, run on a machine that comes up on disk d: see FullLogStops. */
  method FillLog(layout: Layout, device: nat, maxop: nat, nbuf: nat, d: Disk, bs: seq<nat>, n: nat)
    returns (done: Option<nat>, ghost calls: seq<Call>)
    requires Recoverable(layout, d) && device != 0 && GoodTransaction(layout, bs)
    requires |bs| == layout.size == n * maxop <= nbuf && 0 < n && bs != []
    ensures calls == FillingEnded(Replay(layout, d), bs, n) + Commits(CommitCost(bs))
    ensures done.Some? <==> nbuf >= (if HeaderCount(d[layout.start]) == 0 then 1 else 2)
    ensures done.Some? ==> done.value == |calls| - if nbuf == layout.size then CommitCost(bs) else 0
  {
    var home := Replay(layout, d);
    var todo := FillingEnded(home, bs, n) + Commits(CommitCost(bs));
    calls := todo;
    HoldsReplay(layout, d, home);
    var log := Boot(layout, device, maxop, nbuf, d, home);
    if log.None? { return None, calls; }
    ghost var g, m := Config(layout, maxop, nbuf), Fresh(home);
    FullLogStops(g, home, bs, n);
    var k, _, _ := Run(log.value, todo, NoCommit, m);
    ReachIs(g, m, todo, k);
    FillReaches(g, home, bs, n);
    done := Some(k);
  }

  lemma {:induction false} FillReaches(g: Config, d: Disk, bs: seq<nat>, n: nat)
    requires GoodTransaction(g.L, bs) && |bs| == g.L.size == n * g.maxop <= g.nbuf && 0 < n && bs != [] &&
      |d| == g.L.blocks
    ensures var calls := FillingEnded(d, bs, n) + Commits(CommitCost(bs));
      Reach(g, Fresh(d), calls) == |calls| - if g.nbuf == g.L.size then CommitCost(bs) else 0
  {
    var first := FillingEnded(d, bs, n);
    var calls := first + Commits(CommitCost(bs));
    FullLogStops(g, d, bs, n);
    if g.nbuf == g.L.size {
      assert calls[..|first|] == first && calls[|first|] == Commit;
      ReachIs(g, Fresh(d), calls, |first|);
    } else {
      assert calls[..|calls|] == calls;
      ReachIs(g, Fresh(d), calls, |calls|);
    }
  }

  // ---------------------------------------------------------------- sessions

  /** Boots that are cut short, each after so many writes; then a boot, some calls, and a crash after so many writes. */
  datatype Session = Session(cuts: seq<nat>, calls: seq<Call>, crash: nat)

  /** What the reads of a session return, on a machine that comes up with the blocks of home. */
  ghost function SessionReads(g: Config, home: Disk, s: Session): seq<Block> {
    Reads(Fresh(home), s.calls[..Reach(g, Fresh(home), s.calls)])
  }

  /** The blocks the next session begins with. */
  ghost function HomeAfter(g: Config, home: Disk, s: Session): Disk {
    Survives(Fresh(home), s.calls[..Reach(g, Fresh(home), s.calls)], s.crash)
  }

  ghost function AllReads(g: Config, home: Disk, plan: seq<Session>): seq<seq<Block>>
    decreases |plan|
  {
    if plan == [] then [] else [SessionReads(g, home, plan[0])] + AllReads(g, HomeAfter(g, home, plan[0]), plan[1..])
  }

  ghost function HomeAtEnd(g: Config, home: Disk, plan: seq<Session>): Disk
    decreases |plan|
  {
    if plan == [] then home else HomeAtEnd(g, HomeAfter(g, home, plan[0]), plan[1..])
  }

  ghost predicate AllProper(g: Config, home: Disk, plan: seq<Session>)
    decreases |plan|
  {
    plan == [] ||
    (Proper(g, Fresh(home), plan[0].calls) && AllProper(g, HomeAfter(g, home, plan[0]), plan[1..]))
  }

  /** A boot that is cut short when cut of its writes have been made. */
  method CutBoot(layout: Layout, device: nat, maxop: nat, nbuf: nat, d: Disk, cut: nat, ghost home: Disk)
    returns (d': Disk)
    requires Holds(layout, d, home) && device != 0
    ensures Holds(layout, d', home)
  {
    var log := new Log(layout, device, maxop, nbuf, d);
    var _ := log.Recover();
    var k := Min(cut, |log.writes|);
    assert AllOrNothing(layout, d, log.writes[..k], Replay(layout, d), Replay(layout, d), true);
    d' := ApplyAll(d, log.writes[..k]);
    HoldsReplay(layout, d, home);
    SameHomeTransitive(layout, Replay(layout, d'), Replay(layout, d), home);
    HoldsReplay(layout, d', home);
  }

  method OneSession(layout: Layout, device: nat, maxop: nat, nbuf: nat, d: Disk, s: Session, ghost home: Disk)
    returns (read: seq<Block>, d': Disk)
    requires Holds(layout, d, home) && device != 0 && nbuf >= 2
    requires Proper(Config(layout, maxop, nbuf), Fresh(home), s.calls)
    ensures read == SessionReads(Config(layout, maxop, nbuf), home, s)
    ensures Holds(layout, d', HomeAfter(Config(layout, maxop, nbuf), home, s))
  {
    d' := d;
    for i := 0 to |s.cuts|
      invariant Holds(layout, d', home)
    {
      d' := CutBoot(layout, device, maxop, nbuf, d', s.cuts[i], home);
    }
    read, d' := RunToCrash(layout, device, maxop, nbuf, d', s.calls, s.crash, home);
  }

  /** A boot, some calls, and a crash when so many writes have been made, if there are as many. */
  method RunToCrash(layout: Layout, device: nat, maxop: nat, nbuf: nat, d: Disk, calls: seq<Call>, crash: nat,
                    ghost home: Disk)
    returns (read: seq<Block>, d': Disk)
    requires Holds(layout, d, home) && device != 0 && nbuf >= 2
    requires Proper(Config(layout, maxop, nbuf), Fresh(home), calls)
    ensures var g, m := Config(layout, maxop, nbuf), Fresh(home);
      read == Reads(m, calls[..Reach(g, m, calls)]) &&
        Holds(layout, d', Survives(m, calls[..Reach(g, m, calls)], crash))
  {
    var r := Boot(layout, device, maxop, nbuf, d, home);
    var log := r.value;
    var w0 := |log.writes|;
    ghost var booted := log.writes;
    ghost var g, m := Config(layout, maxop, nbuf), Fresh(home);
    var done, pc;
    done, read, pc := Run(log, calls, NoCommit, m);
    ReachIs(g, m, calls, done);
    var k := Min(crash, |log.writes| - w0);
    DurableAt(layout, d, booted, log.writes, m, calls[..done], crash);
    d' := ApplyAll(d, log.writes[..w0 + k]);
  }

  /**
   Any number of sessions, each begun on the disk the crash of the one before has left, with boots cut short in
   between: every session reads what a machine would that starts with what survived the one before.
   */
  method Sessions(layout: Layout, device: nat, maxop: nat, nbuf: nat, d: Disk, plan: seq<Session>, ghost home: Disk)
    returns (got: seq<seq<Block>>, d': Disk)
    requires Holds(layout, d, home) && device != 0 && nbuf >= 2
    requires AllProper(Config(layout, maxop, nbuf), home, plan)
    ensures got == AllReads(Config(layout, maxop, nbuf), home, plan)
    ensures Holds(layout, d', HomeAtEnd(Config(layout, maxop, nbuf), home, plan))
    decreases |plan|
  {
    if plan == [] { return [], d; }
    var read, d1 := OneSession(layout, device, maxop, nbuf, d, plan[0], home);
    var more;
    more, d' := Sessions(layout, device, maxop, nbuf, d1, plan[1..],
                         HomeAfter(Config(layout, maxop, nbuf), home, plan[0]));
    got := [read] + more;
  }
}
