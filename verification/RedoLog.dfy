/**
 The on-disk redo log (kernel/log.c) as sequences of single-block writes.

 The log occupies the header block `start` and the `size` blocks after it.  The
 header's word 0 is the number n of committed blocks, words 1..n their home
 block numbers.  `Replay` is the disk a crash leads to once recovery is done;
 every statement about crashes is a statement about `Replay` of a disk reached
 by a prefix of the writes of commit() or of recover_from_log().
 */
module RedoLog {
  import opened Blocks

  datatype Write = Write(blockno: nat, data: Block)

  /** Where the log lives, on a disk of `blocks` blocks. */
  datatype Layout = Layout(start: nat, size: nat, blocks: nat) {
    /** initlog() panics unless the header, one word longer than the log, is smaller than a block. */
    ghost predicate Valid() {
      size + 1 < WORDS && start + size < blocks && blocks < U32_LIMIT
    }

    predicate InLog(b: nat) {
      start <= b <= start + size
    }

    /** The log block for the i-th logged block. */
    function Slot(i: nat): nat {
      start + 1 + i
    }

    predicate IsHome(b: nat) {
      b < blocks && !InLog(b)
    }
  }

  function ApplyWrite(d: Disk, w: Write): (r: Disk)
    ensures |r| == |d|
  {
    if w.blockno < |d| then d[w.blockno := w.data] else d
  }

  function ApplyAll(d: Disk, ws: seq<Write>): (r: Disk)
    ensures |r| == |d|
  {
    if ws == [] then d else ApplyWrite(ApplyAll(d, ws[..|ws| - 1]), ws[|ws| - 1])
  }

  // ---------------------------------------------------------------- the header

  function HeaderCount(h: Block): nat {
    Word(h, 0)
  }

  function HeaderBlock(h: Block, i: nat): nat
    requires i + 1 < WORDS
  {
    Word(h, i + 1)
  }

  /** write_head()'s in-place update of the header block: words past the new count stay as they were. */
  function PutHeader(h: Block, lh: seq<nat>): (r: Block)
    requires |lh| + 1 < WORDS
    requires forall i :: 0 <= i < |lh| ==> lh[i] < U32_LIMIT
  {
    PutHomes(PutWord(h, 0, |lh|), lh)
  }

  function PutHomes(h: Block, lh: seq<nat>): (r: Block)
    requires |lh| + 1 < WORDS
    requires forall i :: 0 <= i < |lh| ==> lh[i] < U32_LIMIT
  {
    if lh == [] then h
    else PutWord(PutHomes(h, lh[..|lh| - 1]), |lh|, lh[|lh| - 1])
  }

  lemma {:induction false} HomesOfPut(h: Block, lh: seq<nat>, k: nat)
    requires |lh| + 1 < WORDS && k < WORDS
    requires forall i :: 0 <= i < |lh| ==> lh[i] < U32_LIMIT
    ensures Word(PutHomes(h, lh), k) == if 1 <= k <= |lh| then lh[k - 1] else Word(h, k)
  {
    if lh != [] {
      WordOfPut(PutHomes(h, lh[..|lh| - 1]), |lh|, lh[|lh| - 1], k);
      HomesOfPut(h, lh[..|lh| - 1], k);
    }
  }

  /** What write_head() stored is what read_head() reads back. */
  lemma {:induction false} HeaderRoundTrip(h: Block, lh: seq<nat>)
    requires |lh| + 1 < WORDS
    requires forall i :: 0 <= i < |lh| ==> lh[i] < U32_LIMIT
    ensures HeaderCount(PutHeader(h, lh)) == |lh|
    ensures forall i :: 0 <= i < |lh| ==> HeaderBlock(PutHeader(h, lh), i) == lh[i]
  {
    var h0 := PutWord(h, 0, |lh|);
    HomesOfPut(h0, lh, 0);
    WordOfPut(h, 0, |lh|, 0);
    forall i | 0 <= i < |lh| ensures HeaderBlock(PutHeader(h, lh), i) == lh[i] {
      HomesOfPut(h0, lh, i + 1);
    }
  }

  // ---------------------------------------------------------------- recovery

  /** The header names at most a log-full of home blocks. */
  ghost predicate Recoverable(L: Layout, d: Disk) {
    && L.Valid() && |d| == L.blocks
    && HeaderCount(d[L.start]) <= L.size
    && forall i :: 0 <= i < HeaderCount(d[L.start]) ==> L.IsHome(HeaderBlock(d[L.start], i))
  }

  /** The block numbers a recoverable header holds. */
  function Homes(L: Layout, d: Disk): (hs: seq<nat>)
    requires Recoverable(L, d)
    ensures |hs| == HeaderCount(d[L.start])
    ensures forall i :: 0 <= i < |hs| ==> L.IsHome(hs[i]) && hs[i] == HeaderBlock(d[L.start], i)
  {
    seq(HeaderCount(d[L.start]),
        i requires 0 <= i < HeaderCount(d[L.start]) => HeaderBlock(d[L.start], i))
  }

  /** The home writes of install_trans(): log slot i goes to hs[i]. */
  function InstallWrites(L: Layout, d: Disk, hs: seq<nat>): (ws: seq<Write>)
    requires L.Valid() && |d| == L.blocks && |hs| <= L.size
    ensures |ws| == |hs|
    ensures forall i :: 0 <= i < |hs| ==> ws[i] == Write(hs[i], d[L.Slot(i)])
  {
    seq(|hs|, i requires 0 <= i < |hs| => Write(hs[i], d[L.Slot(i)]))
  }

  /** The home blocks after a crash and a completed recovery. */
  function Replay(L: Layout, d: Disk): (r: Disk)
    requires Recoverable(L, d)
    ensures |r| == |d|
  {
    ApplyAll(d, InstallWrites(L, d, Homes(L, d)))
  }

  /** All the block writes recover_from_log() issues on disk d, in order. */
  function RecoveryWrites(L: Layout, d: Disk): (ws: seq<Write>)
    requires Recoverable(L, d)
    ensures |ws| == HeaderCount(d[L.start]) + 1
  {
    InstallWrites(L, d, Homes(L, d)) + [Write(L.start, PutHeader(d[L.start], []))]
  }

  ghost predicate SameHome(L: Layout, d: Disk, e: Disk) {
    |d| == |e| == L.blocks && forall b: nat :: L.IsHome(b) ==> d[b] == e[b]
  }

  ghost predicate SameLog(L: Layout, d: Disk, e: Disk) {
    |d| == |e| == L.blocks && forall b: nat :: b < L.blocks && L.InLog(b) ==> d[b] == e[b]
  }

  lemma {:induction false} ApplyAllConcat(d: Disk, us: seq<Write>, ws: seq<Write>)
    ensures ApplyAll(d, us + ws) == ApplyAll(ApplyAll(d, us), ws)
  {
    if ws == [] {
      assert us + ws == us;
    } else {
      assert (us + ws)[..|us + ws| - 1] == us + ws[..|ws| - 1];
      ApplyAllConcat(d, us, ws[..|ws| - 1]);
    }
  }

  /** A run of writes leaves every block it does not name alone. */
  lemma {:induction false} ApplyAllElsewhere(d: Disk, ws: seq<Write>, b: nat)
    requires b < |d|
    requires forall i :: 0 <= i < |ws| ==> ws[i].blockno != b
    ensures ApplyAll(d, ws)[b] == d[b]
  {
    if ws != [] { ApplyAllElsewhere(d, ws[..|ws| - 1], b); }
  }

  /** On a named block the last write wins, whatever the block held before. */
  lemma {:induction false} ApplyAllOverwrites(d: Disk, e: Disk, ws: seq<Write>, b: nat)
    requires |d| == |e| && b < |d|
    requires d[b] == e[b] || exists i :: 0 <= i < |ws| && ws[i].blockno == b
    ensures ApplyAll(d, ws)[b] == ApplyAll(e, ws)[b]
  {
    if ws != [] && ws[|ws| - 1].blockno != b {
      ApplyAllOverwrites(d, e, ws[..|ws| - 1], b);
    }
  }

  ghost predicate HomeWrites(L: Layout, ws: seq<Write>) {
    forall i :: 0 <= i < |ws| ==> L.IsHome(ws[i].blockno)
  }

  lemma {:induction false} HomeWritesKeepLog(L: Layout, d: Disk, ws: seq<Write>)
    requires |d| == L.blocks && HomeWrites(L, ws)
    ensures SameLog(L, ApplyAll(d, ws), d)
  {
    forall b: nat | b < L.blocks && L.InLog(b) ensures ApplyAll(d, ws)[b] == d[b] {
      ApplyAllElsewhere(d, ws, b);
    }
  }

  /** Disks with the same log replay the same writes. */
  lemma {:induction false} ReplayReadsLogOnly(L: Layout, d: Disk, e: Disk)
    requires Recoverable(L, d) && SameLog(L, d, e)
    ensures Recoverable(L, e) && Homes(L, e) == Homes(L, d)
    ensures InstallWrites(L, e, Homes(L, e)) == InstallWrites(L, d, Homes(L, d))
  {
    assert L.InLog(L.start) && e[L.start] == d[L.start];
    forall i | 0 <= i < |Homes(L, d)|
      ensures InstallWrites(L, e, Homes(L, e))[i] == InstallWrites(L, d, Homes(L, d))[i]
    {
      assert L.InLog(L.Slot(i));
    }
  }

  lemma {:induction false} ReplayIdle(L: Layout, d: Disk)
    requires Recoverable(L, d) && HeaderCount(d[L.start]) == 0
    ensures Replay(L, d) == d
  {
  }

  /** Replaying again, on top of part of the installation, changes nothing. */
  lemma {:induction false} PartialInstall(L: Layout, d: Disk, k: nat)
    requires Recoverable(L, d) && k <= HeaderCount(d[L.start])
    ensures var e := ApplyAll(d, InstallWrites(L, d, Homes(L, d))[..k]);
            Recoverable(L, e) && SameLog(L, e, d) && SameHome(L, Replay(L, e), Replay(L, d))
  {
    var ws := InstallWrites(L, d, Homes(L, d));
    var e := ApplyAll(d, ws[..k]);
    HomeWritesKeepLog(L, d, ws[..k]);
    ReplayReadsLogOnly(L, d, e);
    forall b: nat | L.IsHome(b) ensures ApplyAll(e, ws)[b] == ApplyAll(d, ws)[b] {
      if forall i :: 0 <= i < |ws| ==> ws[i].blockno != b {
        ApplyAllElsewhere(d, ws[..k], b);
      }
      ApplyAllOverwrites(e, d, ws, b);
    }
  }

  /** Once the header is cleared nothing is replayed any more. */
  lemma {:induction false} ClearHeader(L: Layout, d: Disk, h: Block)
    requires L.Valid() && |d| == L.blocks
    ensures var e := d[L.start := PutHeader(h, [])];
            Recoverable(L, e) && HeaderCount(e[L.start]) == 0 && Replay(L, e) == e && SameHome(L, e, d)
  {
    HeaderRoundTrip(h, []);
  }

  /**
   A crash after any k of recovery's writes leaves a disk whose own recovery
   gives the same home blocks; all the writes give those blocks outright, with
   an empty log.
   */
  lemma {:induction false} RecoveryCrashSafe(L: Layout, d: Disk, k: nat)
    requires Recoverable(L, d) && k <= |RecoveryWrites(L, d)|
    ensures var e := ApplyAll(d, RecoveryWrites(L, d)[..k]);
            && Recoverable(L, e) && SameHome(L, Replay(L, e), Replay(L, d))
            && (k == |RecoveryWrites(L, d)| ==> HeaderCount(e[L.start]) == 0 && SameHome(L, e, Replay(L, d)))
  {
    var ws := InstallWrites(L, d, Homes(L, d));
    if k <= |ws| {
      assert RecoveryWrites(L, d)[..k] == ws[..k];
      PartialInstall(L, d, k);
    } else {
      assert RecoveryWrites(L, d)[..k] == RecoveryWrites(L, d);
      assert ws[..|ws|] == ws;
      PartialInstall(L, d, |ws|);
      ApplyAllConcat(d, ws, [Write(L.start, PutHeader(d[L.start], []))]);
      ClearHeader(L, ApplyAll(d, ws), d[L.start]);
    }
  }

  // ---------------------------------------------------------------- commit

  ghost predicate Differ(s: seq<nat>, i: nat, j: nat)
    requires i < |s| && j < |s|
  {
    s[i] != s[j]
  }

  ghost predicate Distinct(s: seq<nat>) {
    forall i, j {:trigger Differ(s, i, j)} :: 0 <= i < j < |s| ==> Differ(s, i, j)
  }

  /** The in-memory header: distinct home blocks, no more than the log holds. */
  ghost predicate GoodTransaction(L: Layout, lh: seq<nat>) {
    && L.Valid() && |lh| <= L.size
    && (forall i :: 0 <= i < |lh| ==> L.IsHome(lh[i]))
    && Distinct(lh)
  }

  /** write_log(): the new contents go to the log slots. */
  function LogWrites(L: Layout, data: seq<Block>): (ws: seq<Write>)
    ensures |ws| == |data|
    ensures forall i :: 0 <= i < |data| ==> ws[i] == Write(L.Slot(i), data[i])
  {
    seq(|data|, i requires 0 <= i < |data| => Write(L.Slot(i), data[i]))
  }

  lemma {:induction false} OneMoreLogWrite(L: Layout, us: seq<Write>, data: seq<Block>, k: nat, before: seq<Write>,
                                           now: seq<Write>)
    requires k < |data| && before == us + LogWrites(L, data[..k])
    requires |now| == |before| + 1 && now[..|before|] == before && now[|before|] == Write(L.Slot(k), data[k])
    ensures now == us + LogWrites(L, data[..k + 1])
  {
    assert LogWrites(L, data[..k + 1]) == LogWrites(L, data[..k]) + [Write(L.Slot(k), data[k])];
  }

  /** The updates of a transaction, as writes of the home blocks. */
  function TransactionWrites(lh: seq<nat>, data: seq<Block>): (ws: seq<Write>)
    requires |lh| == |data|
    ensures |ws| == |lh|
    ensures forall i :: 0 <= i < |lh| ==> ws[i] == Write(lh[i], data[i])
  {
    seq(|lh|, i requires 0 <= i < |lh| => Write(lh[i], data[i]))
  }

  lemma {:induction false} OneMoreHomeWrite(us: seq<Write>, lh: seq<nat>, data: seq<Block>, k: nat, before: seq<Write>,
                                            now: seq<Write>)
    requires k < |lh| == |data| && before == us + TransactionWrites(lh[..k], data[..k])
    requires |now| == |before| + 1 && now[..|before|] == before && now[|before|] == Write(lh[k], data[k])
    ensures now == us + TransactionWrites(lh[..k + 1], data[..k + 1])
  {
    assert TransactionWrites(lh[..k + 1], data[..k + 1])
        == TransactionWrites(lh[..k], data[..k]) + [Write(lh[k], data[k])];
  }

  /** All the block writes commit() issues, in order; header is the header block's cached contents. */
  function CommitWrites(L: Layout, header: Block, lh: seq<nat>, data: seq<Block>): (ws: seq<Write>)
    requires GoodTransaction(L, lh) && |data| == |lh|
    ensures |ws| == if lh == [] then 0 else 2 * |lh| + 2
  {
    if lh == [] then []
    else LogWrites(L, data)
         + [Write(L.start, PutHeader(header, lh))]
         + TransactionWrites(lh, data)
         + [Write(L.start, PutHeader(PutHeader(header, lh), []))]
  }

  /** Writing log slots behind an empty header is invisible. */
  lemma {:induction false} LoggingInvisible(L: Layout, d: Disk, data: seq<Block>, k: nat)
    requires Recoverable(L, d) && HeaderCount(d[L.start]) == 0 && k <= |data| <= L.size
    ensures var e := ApplyAll(d, LogWrites(L, data)[..k]);
            Recoverable(L, e) && e[L.start] == d[L.start] && SameHome(L, e, d) && Replay(L, e) == e
  {
    var ws := LogWrites(L, data)[..k];
    var e := ApplyAll(d, ws);
    forall b: nat | b < L.blocks && (L.IsHome(b) || b == L.start) ensures e[b] == d[b] {
      ApplyAllElsewhere(d, ws, b);
    }
    assert e[L.start] == d[L.start];
  }

  lemma {:induction false} LogSlotsHold(L: Layout, d: Disk, data: seq<Block>, i: nat)
    requires L.Valid() && |d| == L.blocks && i < |data| <= L.size
    ensures ApplyAll(d, LogWrites(L, data))[L.Slot(i)] == data[i]
    decreases |data|
  {
    var ws := LogWrites(L, data);
    var n := |data| - 1;
    assert ws[..n] == LogWrites(L, data[..n]);
    if i < n { LogSlotsHold(L, d, data[..n], i); }
  }

  /** The header write commits: from here on Replay performs exactly the transaction. */
  lemma {:induction false} HeaderWriteCommits(L: Layout, d: Disk, header: Block, lh: seq<nat>, data: seq<Block>)
    requires Recoverable(L, d) && GoodTransaction(L, lh) && |data| == |lh|
    requires forall i :: 0 <= i < |lh| ==> d[L.Slot(i)] == data[i]
    ensures var e := d[L.start := PutHeader(header, lh)];
            && Recoverable(L, e) && Homes(L, e) == lh
            && InstallWrites(L, e, Homes(L, e)) == TransactionWrites(lh, data)
  {
    HeaderRoundTrip(header, lh);
    var e := d[L.start := PutHeader(header, lh)];
    assert forall i :: 0 <= i < |lh| ==> HeaderBlock(e[L.start], i) == lh[i];
    assert Homes(L, e) == lh;
    assert InstallWrites(L, e, lh) == TransactionWrites(lh, data);
  }

  /** Writes of home blocks give the same home blocks from the same home blocks. */
  lemma {:induction false} SameHomeWrites(L: Layout, d: Disk, e: Disk, ws: seq<Write>)
    requires SameHome(L, d, e)
    ensures SameHome(L, ApplyAll(d, ws), ApplyAll(e, ws))
  {
    forall b: nat | L.IsHome(b) ensures ApplyAll(d, ws)[b] == ApplyAll(e, ws)[b] {
      ApplyAllOverwrites(d, e, ws, b);
    }
  }

  /** The state after the first |lh| + 1 writes, and what its replay does. */
  lemma {:induction false} CommitPoint(L: Layout, d: Disk, header: Block, lh: seq<nat>, data: seq<Block>)
    returns (e: Disk)
    requires Recoverable(L, d) && HeaderCount(d[L.start]) == 0
    requires GoodTransaction(L, lh) && |data| == |lh| > 0
    ensures e == ApplyAll(d, LogWrites(L, data) + [Write(L.start, PutHeader(header, lh))])
    ensures Recoverable(L, e) && e[L.start] == PutHeader(header, lh) && SameHome(L, e, d)
    ensures Homes(L, e) == lh && InstallWrites(L, e, Homes(L, e)) == TransactionWrites(lh, data)
    ensures SameHome(L, Replay(L, e), ApplyAll(d, TransactionWrites(lh, data)))
  {
    var lw := LogWrites(L, data);
    var c := ApplyAll(d, lw);
    assert lw[..|lw|] == lw;
    LoggingInvisible(L, d, data, |data|);
    forall i | 0 <= i < |lh| ensures c[L.Slot(i)] == data[i] { LogSlotsHold(L, d, data, i); }
    HeaderWriteCommits(L, c, header, lh, data);
    ApplyAllConcat(d, lw, [Write(L.start, PutHeader(header, lh))]);
    e := c[L.start := PutHeader(header, lh)];
    SameHomeWrites(L, e, d, TransactionWrites(lh, data));
  }

  /**
   What a commit has put on the disk when its header is written: in the header block the number of blocks and then their
   numbers, and in the blocks after it their contents, in the same order.
   */
  lemma {:induction false} LogOnDisk(L: Layout, d: Disk, header: Block, lh: seq<nat>, data: seq<Block>, i: nat)
    requires Recoverable(L, d) && HeaderCount(d[L.start]) == 0 && GoodTransaction(L, lh) && |data| == |lh| && i < |lh|
    ensures var e := ApplyAll(d, CommitWrites(L, header, lh, data)[..|lh| + 1]);
      && Word(e[L.start], 0) == |lh| && Word(e[L.start], i + 1) == lh[i] && e[L.start + 1 + i] == data[i]
  {
    var ws := CommitWrites(L, header, lh, data)[..|lh| + 1];
    var e := CommitPoint(L, d, header, lh, data);
    assert ws == LogWrites(L, data) + [Write(L.start, PutHeader(header, lh))];
    HeaderRoundTrip(header, lh);
    assert HeaderBlock(PutHeader(header, lh), i) == lh[i];
    LogSlotsHold(L, d, data, i);
    ApplyAllConcat(d, LogWrites(L, data), [Write(L.start, PutHeader(header, lh))]);
  }

  /**
   Crash atomicity.  After any k of commit()'s writes the disk recovers to the
   full pre-state while the non-empty header is not yet on disk (k <= |lh|), and
   to the full post-state from that write on.
   */
  lemma {:induction false} CommitCrashAtomic(L: Layout, d: Disk, header: Block, lh: seq<nat>, data: seq<Block>, k: nat)
    requires Recoverable(L, d) && HeaderCount(d[L.start]) == 0
    requires GoodTransaction(L, lh) && |data| == |lh| && k <= |CommitWrites(L, header, lh, data)|
    ensures var ws := CommitWrites(L, header, lh, data);
            var e := ApplyAll(d, ws[..k]);
            var post := ApplyAll(d, TransactionWrites(lh, data));
            && Recoverable(L, e)
            && SameHome(L, Replay(L, e), if k <= |lh| then d else post)
            && (k == |ws| ==> HeaderCount(e[L.start]) == 0 && SameHome(L, e, post))
  {
    var n := |lh|;
    var ws := CommitWrites(L, header, lh, data);
    if lh == [] {
      ReplayIdle(L, d);
    } else if k <= n {
      assert ws[..k] == LogWrites(L, data)[..k];
      LoggingInvisible(L, d, data, k);
    } else if k <= 2 * n + 1 {
      assert ws[..k] == LogWrites(L, data) + [Write(L.start, PutHeader(header, lh))]
                        + TransactionWrites(lh, data)[..k - n - 1];
      CommitInstalling(L, d, header, lh, data, k - n - 1);
    } else {
      assert ws[..k] == ws;
      CommitDone(L, d, header, lh, data);
    }
  }

  /** Crashing after the header write, with j blocks installed. */
  lemma {:induction false} CommitInstalling(L: Layout, d: Disk, header: Block, lh: seq<nat>, data: seq<Block>, j: nat)
    requires Recoverable(L, d) && HeaderCount(d[L.start]) == 0
    requires GoodTransaction(L, lh) && |data| == |lh| && lh != [] && j <= |lh|
    ensures var tw := TransactionWrites(lh, data);
            var e := ApplyAll(d, LogWrites(L, data) + [Write(L.start, PutHeader(header, lh))] + tw[..j]);
            Recoverable(L, e) && SameHome(L, Replay(L, e), ApplyAll(d, tw))
  {
    var e := CommitPoint(L, d, header, lh, data);
    ApplyAllConcat(d, LogWrites(L, data) + [Write(L.start, PutHeader(header, lh))], TransactionWrites(lh, data)[..j]);
    PartialInstall(L, e, j);
  }

  lemma {:induction false} CommitDone(L: Layout, d: Disk, header: Block, lh: seq<nat>, data: seq<Block>)
    requires Recoverable(L, d) && HeaderCount(d[L.start]) == 0
    requires GoodTransaction(L, lh) && |data| == |lh| && lh != []
    ensures var e := ApplyAll(d, CommitWrites(L, header, lh, data));
            && Recoverable(L, e) && HeaderCount(e[L.start]) == 0 && Replay(L, e) == e
            && SameHome(L, e, ApplyAll(d, TransactionWrites(lh, data)))
  {
    var e := CommitPoint(L, d, header, lh, data);
    var tw := TransactionWrites(lh, data);
    var us := LogWrites(L, data) + [Write(L.start, PutHeader(header, lh))];
    var last := Write(L.start, PutHeader(PutHeader(header, lh), []));
    ApplyAllConcat(d, us, tw);
    ApplyAllConcat(d, us + tw, [last]);
    ClearHeader(L, ApplyAll(e, tw), PutHeader(header, lh));
  }

  // ---------------------------------------------------------------- whole histories

  /**
   One event of a disk's life.  A commit may be cut short by a crash after
   `done` of its writes; then come boots whose recoveries are themselves cut
   short after the given numbers of writes, and a last boot that recovers fully.
   */
  datatype Event = Committed(lh: seq<nat>, data: seq<Block>)
                 | Crashed(lh: seq<nat>, data: seq<Block>, done: nat, boots: seq<nat>)

  ghost predicate GoodEvent(L: Layout, ev: Event) {
    GoodTransaction(L, ev.lh) && |ev.data| == |ev.lh|
  }

  /** The disk after a series of boots whose recoveries crash after boots[i] writes. */
  ghost function CutBoots(L: Layout, d: Disk, boots: seq<nat>): (r: Disk)
    requires Recoverable(L, d)
    ensures Recoverable(L, r) && SameHome(L, Replay(L, r), Replay(L, d))
    decreases |boots|
  {
    if boots == [] then d
    else
      var ws := RecoveryWrites(L, d);
      var k := if boots[0] <= |ws| then boots[0] else |ws|;
      RecoveryCrashSafe(L, d, k);
      CutBoots(L, ApplyAll(d, ws[..k]), boots[1..])
  }

  ghost function Boot(L: Layout, d: Disk): (r: Disk)
    requires Recoverable(L, d)
  {
    ApplyAll(d, RecoveryWrites(L, d))
  }

  lemma {:induction false} BootCompletes(L: Layout, d: Disk)
    requires Recoverable(L, d)
    ensures var e := Boot(L, d);
            Recoverable(L, e) && HeaderCount(e[L.start]) == 0 && SameHome(L, e, Replay(L, d))
  {
    var ws := RecoveryWrites(L, d);
    assert ws[..|ws|] == ws;
    RecoveryCrashSafe(L, d, |ws|);
  }

  /** The disk after an event, crash and recovery included. */
  ghost function After(L: Layout, d: Disk, ev: Event): (r: Disk)
    requires Recoverable(L, d) && HeaderCount(d[L.start]) == 0 && GoodEvent(L, ev)
  {
    var ws := CommitWrites(L, d[L.start], ev.lh, ev.data);
    match ev
    case Committed(_, _) => ApplyAll(d, ws)
    case Crashed(_, _, done, boots) =>
      var k := if done <= |ws| then done else |ws|;
      CommitCrashAtomic(L, d, d[L.start], ev.lh, ev.data, k);
      Boot(L, CutBoots(L, ApplyAll(d, ws[..k]), boots))
  }

  /** What the event means to the file system: its transaction, or nothing. */
  function Effect(d: Disk, ev: Event): (r: Disk)
    requires |ev.data| == |ev.lh|
    ensures |r| == |d|
  {
    if ev.Committed? || ev.done > |ev.lh| then ApplyAll(d, TransactionWrites(ev.lh, ev.data)) else d
  }

  lemma {:induction false} AfterIsEffect(L: Layout, d: Disk, ev: Event)
    requires Recoverable(L, d) && HeaderCount(d[L.start]) == 0 && GoodEvent(L, ev)
    ensures var e := After(L, d, ev);
            Recoverable(L, e) && HeaderCount(e[L.start]) == 0 && SameHome(L, e, Effect(d, ev))
  {
    var ws := CommitWrites(L, d[L.start], ev.lh, ev.data);
    if ev.Committed? {
      assert ws[..|ws|] == ws;
      CommitCrashAtomic(L, d, d[L.start], ev.lh, ev.data, |ws|);
    } else {
      CrashedIsEffect(L, d, ev);
    }
  }

  lemma {:induction false} CrashedIsEffect(L: Layout, d: Disk, ev: Event)
    requires Recoverable(L, d) && HeaderCount(d[L.start]) == 0 && GoodEvent(L, ev) && ev.Crashed?
    ensures var e := After(L, d, ev);
            Recoverable(L, e) && HeaderCount(e[L.start]) == 0 && SameHome(L, e, Effect(d, ev))
  {
    var ws := CommitWrites(L, d[L.start], ev.lh, ev.data);
    var k := if ev.done <= |ws| then ev.done else |ws|;
    CommitCrashAtomic(L, d, d[L.start], ev.lh, ev.data, k);
    BootCompletes(L, CutBoots(L, ApplyAll(d, ws[..k]), ev.boots));
  }

  ghost function History(L: Layout, d: Disk, evs: seq<Event>): (r: Disk)
    requires Recoverable(L, d) && HeaderCount(d[L.start]) == 0
    requires forall i :: 0 <= i < |evs| ==> GoodEvent(L, evs[i])
    ensures Recoverable(L, r) && HeaderCount(r[L.start]) == 0
  {
    if evs == [] then d
    else
      var e := History(L, d, evs[..|evs| - 1]);
      AfterIsEffect(L, e, evs[|evs| - 1]);
      After(L, e, evs[|evs| - 1])
  }

  function Effects(d: Disk, evs: seq<Event>): (r: Disk)
    requires forall i :: 0 <= i < |evs| ==> |evs[i].data| == |evs[i].lh|
    ensures |r| == |d|
  {
    if evs == [] then d else Effect(Effects(d, evs[..|evs| - 1]), evs[|evs| - 1])
  }

  /**
   Over every history of commits, crashes between any two writes, and crashes
   inside recovery, the home blocks are those of the transactions whose header
   write reached the disk, each applied in full and in order, and of no others.
   */
  lemma {:induction false} HistoryIsAtomic(L: Layout, d: Disk, evs: seq<Event>)
    requires Recoverable(L, d) && HeaderCount(d[L.start]) == 0
    requires forall i :: 0 <= i < |evs| ==> GoodEvent(L, evs[i])
    ensures SameHome(L, History(L, d, evs), Effects(d, evs))
  {
    if evs != [] {
      var n := |evs| - 1;
      HistoryIsAtomic(L, d, evs[..n]);
      AfterIsEffect(L, History(L, d, evs[..n]), evs[n]);
      SameHomeWrites(L, History(L, d, evs[..n]), Effects(d, evs[..n]), TransactionWrites(evs[n].lh, evs[n].data));
    }
  }
}
