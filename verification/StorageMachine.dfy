/**
 The machine that the storage stack (kernel/bio.c, kernel/log.c) implements: an array of
 blocks, private copies of the blocks that are held, the list of blocks logged, what a
 crash would leave, and how far a commit has come.  Its steps are bread(), stores into a
 held buffer, log_write(), brelse(), begin_op(), end_op() and the single disk writes of
 commit(), by any number of processes and in any order.
 */
module StorageMachine {
  import opened Basics
  import opened Blocks
  import opened RedoLog
  import opened LogLayer

  /** What a commit does next: a slot of the log, the header, a home block, the header again. */
  datatype Phase = NoCommit | ToLog(k: nat) | ToHeader | ToHome(k: nat) | ToClear

  /** Commit is the next disk write of the process that commits. */
  datatype Call =
    Bread(b: nat) | Store(b: nat, data: Block) | LogWrite(b: nat) | Brelse(b: nat) | Begin | End | Commit

  /** Where the log is, MAXOPBLOCKS and NBUF. */
  datatype Config = Config(L: Layout, maxop: nat, nbuf: nat)

  /**
   The blocks, what a crash would leave, the copies that are held, those of them changed and not logged, the logged
   blocks, those of them that are not at home yet, the operations under way, the commit under way.
   */
  datatype Machine = Machine(blocks: Disk, saved: Disk, held: map<nat, Block>, dirty: set<nat>, logged: seq<nat>,
                             pinned: set<nat>, ops: nat, phase: Phase)

  function Fresh(d: Disk): Machine {
    Machine(d, d, map[], {}, [], {}, 0, NoCommit)
  }

  /** The blocks that must be in a buffer. */
  ghost function InUse(m: Machine): (r: set<nat>)
    ensures forall b :: b in r <==> b in m.held || b in m.pinned
  {
    set b | b in m.held.Keys + m.pinned
  }

  /**
   The calls that do not get through: a read of no home block, of one that is held (it waits), or without a buffer to
   spare (a panic); the use of a block that is not held; a log_write() with the log full or outside an operation (a
   panic); a begin_op() during a commit or whose reservation does not fit (it waits); an end_op() of no operation; a
   step of a commit with its block held (it waits) or without a buffer to spare (a panic).
   */
  ghost predicate Stops(g: Config, m: Machine, c: Call) {
    match c
    case Bread(b) => !g.L.IsHome(b) || b in m.held || (b !in m.pinned && |InUse(m)| >= g.nbuf)
    case Store(b, _) => b !in m.held
    case LogWrite(b) => b !in m.held || |m.logged| >= g.L.size || m.ops == 0
    case Brelse(b) => b !in m.held
    case Begin => m.phase != NoCommit || |m.logged| + (m.ops + 1) * g.maxop > g.L.size
    case End => m.ops == 0
    case Commit =>
      || m.phase == NoCommit || |InUse(m)| >= g.nbuf
      || ((m.phase.ToLog? || m.phase.ToHome?) && (m.phase.k >= |m.logged| || m.logged[m.phase.k] in m.held))
  }

  /**
   What callers must not do: change a block outside an operation, or not log a change before giving up the buffer or
   ending.
   */
  ghost predicate Misuse(m: Machine, c: Call) {
    match c
    case Store(_, _) => m.ops == 0
    case Brelse(b) => b in m.dirty
    case End => m.ops == 1 && m.dirty != {}
    case _ => false
  }

  /** The header write commits: from then on a crash leaves the blocks as they are. */
  function Next(m: Machine, c: Call): (r: Machine)
    ensures |r.blocks| == |m.blocks|
  {
    match c
    case Bread(b) => if b < |m.blocks| then m.(held := m.held[b := m.blocks[b]]) else m
    case Store(b, data) => m.(held := m.held[b := data], dirty := m.dirty + {b})
    case LogWrite(b) =>
      if b in m.held && b < |m.blocks| then
        m.(blocks := m.blocks[b := m.held[b]], dirty := m.dirty - {b},
           logged := if b in m.logged then m.logged else m.logged + [b], pinned := m.pinned + {b})
      else m
    case Brelse(b) => m.(held := m.held - {b})
    case Begin => m.(ops := m.ops + 1)
    case End =>
      if m.ops > 1 then m.(ops := m.ops - 1) else m.(ops := 0, phase := if m.logged == [] then NoCommit else ToLog(0))
    case Commit => Advanced(m)
  }

  function Advanced(m: Machine): (r: Machine)
    ensures r.blocks == m.blocks
  {
    match m.phase
    case NoCommit => m
    case ToLog(k) => m.(phase := if k + 1 < |m.logged| then ToLog(k + 1) else ToHeader)
    case ToHeader => m.(saved := m.blocks, phase := ToHome(0))
    case ToHome(k) =>
      m.(pinned := if k < |m.logged| then m.pinned - {m.logged[k]} else m.pinned,
         phase := if k + 1 < |m.logged| then ToHome(k + 1) else ToClear)
    case ToClear => m.(logged := [], phase := NoCommit)
  }

  function AfterCalls(m: Machine, calls: seq<Call>): (r: Machine)
    ensures |r.blocks| == |m.blocks|
  {
    if calls == [] then m else Next(AfterCalls(m, calls[..|calls| - 1]), calls[|calls| - 1])
  }

  /** What the reads among some calls return. */
  function Reads(m: Machine, calls: seq<Call>): seq<Block> {
    if calls == [] then []
    else
      var n := |calls| - 1;
      Reads(m, calls[..n])
      + (if calls[n].Bread? && calls[n].b < |m.blocks| then [AfterCalls(m, calls[..n]).blocks[calls[n].b]] else [])
  }

  ghost predicate GetsThrough(g: Config, m: Machine, calls: seq<Call>) {
    forall k {:trigger Passes(g, m, calls, k)} :: 0 <= k < |calls| ==> Passes(g, m, calls, k)
  }

  /** Call k gets through, after those before it. */
  ghost predicate Passes(g: Config, m: Machine, calls: seq<Call>, k: nat)
    requires k < |calls|
  {
    !Stops(g, AfterCalls(m, calls[..k]), calls[k])
  }

  /** None of the calls that are reached is a misuse. */
  ghost predicate Proper(g: Config, m: Machine, calls: seq<Call>) {
    forall k {:trigger Misused(m, calls, k)} :: 0 <= k < |calls| && GetsThrough(g, m, calls[..k]) ==>
      !Misused(m, calls, k)
  }

  ghost predicate Misused(m: Machine, calls: seq<Call>, k: nat)
    requires k < |calls|
  {
    Misuse(AfterCalls(m, calls[..k]), calls[k])
  }

  /** None of the calls is a misuse. */
  ghost predicate Tidy(m: Machine, calls: seq<Call>) {
    forall k {:trigger Misused(m, calls, k)} :: 0 <= k < |calls| ==> !Misused(m, calls, k)
  }

  /** How many disk writes a call makes. */
  function Cost(m: Machine, c: Call): nat {
    if c.Commit? && m.phase != NoCommit then 1 else 0
  }

  function Costs(m: Machine, calls: seq<Call>): nat {
    if calls == [] then 0
      else Costs(m, calls[..|calls| - 1]) + Cost(AfterCalls(m, calls[..|calls| - 1]), calls[|calls| - 1])
  }

  /** What a crash leaves, when the first k of the disk writes have been made. */
  function Survives(m: Machine, calls: seq<Call>, k: nat): Disk {
    if calls == [] || k >= Costs(m, calls) then AfterCalls(m, calls).saved else Survives(m, calls[..|calls| - 1], k)
  }

  lemma {:induction false} OneMore(m: Machine, calls: seq<Call>, c: Call)
    ensures AfterCalls(m, calls + [c]) == Next(AfterCalls(m, calls), c)
    ensures Reads(m, calls + [c]) ==
            Reads(m, calls) + if c.Bread? && c.b < |m.blocks| then [AfterCalls(m, calls).blocks[c.b]] else []
    ensures Costs(m, calls + [c]) == Costs(m, calls) + Cost(AfterCalls(m, calls), c)
    ensures forall k {:trigger Survives(m, calls + [c], k)} :: 0 <= k ==>
              Survives(m, calls + [c], k) ==
                if k >= Costs(m, calls + [c]) then Next(AfterCalls(m, calls), c).saved else Survives(m, calls, k)
  {
    assert (calls + [c])[..|calls|] == calls;
  }

  lemma {:induction false} OneMoreThrough(g: Config, m: Machine, calls: seq<Call>, c: Call)
    requires GetsThrough(g, m, calls) && !Stops(g, AfterCalls(m, calls), c)
    ensures GetsThrough(g, m, calls + [c])
  {
    var all := calls + [c];
    forall k {:trigger Passes(g, m, all, k)} | 0 <= k < |all| ensures Passes(g, m, all, k) {
      if k < |calls| {
        assert all[..k] == calls[..k] && all[k] == calls[k] && Passes(g, m, calls, k);
      } else {
        assert all[..k] == calls;
      }
    }
  }

  lemma {:induction false} OneMoreTidy(m: Machine, calls: seq<Call>, c: Call)
    requires Tidy(m, calls) && !Misuse(AfterCalls(m, calls), c)
    ensures Tidy(m, calls + [c])
  {
    var all := calls + [c];
    forall k {:trigger Misused(m, all, k)} | 0 <= k < |all| ensures !Misused(m, all, k) {
      if k < |calls| {
        assert all[..k] == calls[..k] && all[k] == calls[k] && !Misused(m, calls, k);
      } else {
        assert all[..k] == calls;
      }
    }
  }

  /** How many calls get through. */
  ghost function Reach(g: Config, m: Machine, calls: seq<Call>): (r: nat)
    ensures r <= |calls|
  {
    if calls == [] then 0
    else
      var n := |calls| - 1;
      var r := Reach(g, m, calls[..n]);
      if r == n && !Stops(g, AfterCalls(m, calls[..n]), calls[n]) then n + 1 else r
  }

  lemma {:induction false} ReachIs(g: Config, m: Machine, calls: seq<Call>, done: nat)
    requires done <= |calls| && GetsThrough(g, m, calls[..done])
    requires done < |calls| ==> Stops(g, AfterCalls(m, calls[..done]), calls[done])
    ensures Reach(g, m, calls) == done
  {
    if calls != [] {
      var n := |calls| - 1;
      var init := calls[..n];
      assert calls[..|calls|] == calls;
      forall k {:trigger Passes(g, m, init[..Min(done, n)], k)} | 0 <= k < Min(done, n)
        ensures Passes(g, m, init[..Min(done, n)], k)
      {
        assert init[..Min(done, n)][..k] == calls[..done][..k] && Passes(g, m, calls[..done], k);
      }
      assert done < n ==> init[..done] == calls[..done];
      ReachIs(g, m, init, Min(done, n));
      assert init[..n] == init;
      if done > n { assert Passes(g, m, calls, n); }
    }
  }

  // ---------------------------------------------------------------- what the machine does

  /** The calls all get through, none is a misuse, and they lead from one state to another. */
  ghost predicate Leads(g: Config, m: Machine, calls: seq<Call>, m': Machine) {
    GetsThrough(g, m, calls) && Tidy(m, calls) && AfterCalls(m, calls) == m'
  }

  lemma {:induction false} LeadsOne(g: Config, m: Machine, c: Call)
    requires !Stops(g, m, c) && !Misuse(m, c)
    ensures Leads(g, m, [c], Next(m, c))
  {
    OneMore(m, [], c);
    OneMoreThrough(g, m, [], c);
    OneMoreTidy(m, [], c);
    assert [] + [c] == [c];
  }

  /** A run that gets through does so up to its last call. */
  lemma {:induction false} LeadsBefore(g: Config, m: Machine, calls: seq<Call>, m': Machine)
    requires Leads(g, m, calls, m') && calls != []
    ensures var n := |calls| - 1;
      && Leads(g, m, calls[..n], AfterCalls(m, calls[..n]))
      && !Stops(g, AfterCalls(m, calls[..n]), calls[n]) && !Misuse(AfterCalls(m, calls[..n]), calls[n])
  {
    var n := |calls| - 1;
    var init := calls[..n];
    forall k {:trigger Passes(g, m, init, k)} | 0 <= k < n ensures Passes(g, m, init, k) {
      assert init[..k] == calls[..k] && init[k] == calls[k] && Passes(g, m, calls, k);
    }
    forall k {:trigger Misused(m, init, k)} | 0 <= k < n ensures !Misused(m, init, k) {
      assert init[..k] == calls[..k] && init[k] == calls[k] && !Misused(m, calls, k);
    }
    assert Passes(g, m, calls, n) && !Misused(m, calls, n);
  }

  /** One run after another. */
  lemma {:induction false} LeadsOn(g: Config, m: Machine, a: seq<Call>, m1: Machine, b: seq<Call>, m2: Machine)
    requires Leads(g, m, a, m1) && Leads(g, m1, b, m2)
    ensures Leads(g, m, a + b, m2)
    decreases |b|
  {
    if b == [] {
      assert a + b == a;
    } else {
      var n := |b| - 1;
      var b' := b[..n];
      assert a + b == (a + b') + [b[n]];
      LeadsBefore(g, m1, b, m2);
      LeadsOn(g, m, a, m1, b', AfterCalls(m1, b'));
      OneMore(m, a + b', b[n]);
      OneMoreThrough(g, m, a + b', b[n]);
      OneMoreTidy(m, a + b', b[n]);
    }
  }

  function Rewrite(b: nat, data: Block): seq<Call> {
    [Bread(b), Store(b, data)] + [LogWrite(b), Brelse(b)]
  }

  /** The machine once b has been written and logged. */
  function Written(m: Machine, b: nat, data: Block): Machine
    requires b < |m.blocks|
  {
    m.(blocks := m.blocks[b := data], logged := if b in m.logged then m.logged else m.logged + [b],
       pinned := m.pinned + {b})
  }

  /** A whole logged write changes one block, and adds it to the log if it is not there. */
  lemma {:induction false} WriteBlock(g: Config, m: Machine, b: nat, data: Block)
    requires !Stops(g, m, Bread(b)) && b < |m.blocks| && b !in m.dirty && m.ops > 0 && |m.logged| < g.L.size
    ensures Leads(g, m, Rewrite(b, data), Written(m, b, data))
  {
    var m2 := m.(held := m.held[b := data], dirty := m.dirty + {b});
    ReadAndStore(g, m, b, data);
    LogAndRelease(g, m2, b);
    assert m2.held - {b} == m.held && m2.dirty - {b} == m.dirty;
    LeadsOn(g, m, [Bread(b), Store(b, data)], m2, [LogWrite(b), Brelse(b)], Written(m, b, data));
  }

  lemma {:induction false} ReadAndStore(g: Config, m: Machine, b: nat, data: Block)
    requires !Stops(g, m, Bread(b)) && b < |m.blocks| && m.ops > 0
    ensures Leads(g, m, [Bread(b), Store(b, data)], m.(held := m.held[b := data], dirty := m.dirty + {b}))
  {
    var m1 := Next(m, Bread(b));
    LeadsOne(g, m, Bread(b));
    LeadsOne(g, m1, Store(b, data));
    assert m1.held[b := data] == m.held[b := data];
    LeadsOn(g, m, [Bread(b)], m1, [Store(b, data)], Next(m1, Store(b, data)));
    assert [Bread(b)] + [Store(b, data)] == [Bread(b), Store(b, data)];
  }

  lemma {:induction false} LogAndRelease(g: Config, m: Machine, b: nat)
    requires !Stops(g, m, LogWrite(b)) && b < |m.blocks|
    ensures Leads(g, m, [LogWrite(b), Brelse(b)],
      Written(m, b, m.held[b]).(held := m.held - {b}, dirty := m.dirty - {b}))
  {
    var m1 := Next(m, LogWrite(b));
    LeadsOne(g, m, LogWrite(b));
    LeadsOne(g, m1, Brelse(b));
    LeadsOn(g, m, [LogWrite(b)], m1, [Brelse(b)], Next(m1, Brelse(b)));
    assert [LogWrite(b)] + [Brelse(b)] == [LogWrite(b), Brelse(b)];
  }

  // ---------------------------------------------------------------- a commit that nothing stops

  function Commits(n: nat): seq<Call> {
    seq(n, _ => Commit)
  }

  lemma {:induction false} OneCommitMore(g: Config, m: Machine, n: nat, m1: Machine)
    requires Leads(g, m, Commits(n), m1) && !Stops(g, m1, Commit)
    ensures Leads(g, m, Commits(n + 1), Advanced(m1))
  {
    LeadsOne(g, m1, Commit);
    LeadsOn(g, m, Commits(n), m1, [Commit], Advanced(m1));
    assert Commits(n) + [Commit] == Commits(n + 1);
  }

  /** Nobody holds a block that is being committed, and there is a buffer to spare. */
  ghost predicate Alone(g: Config, m: Machine) {
    |InUse(m)| < g.nbuf && forall i :: 0 <= i < |m.logged| ==> m.logged[i] !in m.held
  }

  /** A commit that has come so far, from m on. */
  lemma {:induction false} CommitGoes(g: Config, m: Machine, m': Machine)
    requires Alone(g, m) && m'.held == m.held && m'.logged == m.logged && m'.pinned <= m.pinned
    requires m'.phase != NoCommit && (m'.phase.ToLog? || m'.phase.ToHome? ==> m'.phase.k < |m.logged|)
    ensures !Stops(g, m', Commit)
  {
    assert InUse(m') <= InUse(m);
    SubsetSize(InUse(m'), InUse(m));
  }

  lemma {:induction false} Logs(g: Config, m: Machine, k: nat)
    requires Alone(g, m) && m.phase == ToLog(0) && k <= |m.logged| && m.logged != []
    ensures Leads(g, m, Commits(k), m.(phase := if k < |m.logged| then ToLog(k) else ToHeader))
  {
    if k > 0 {
      var m1 := m.(phase := ToLog(k - 1));
      Logs(g, m, k - 1);
      CommitGoes(g, m, m1);
      OneCommitMore(g, m, k - 1, m1);
    }
  }

  lemma {:induction false} Installs(g: Config, m: Machine, k: nat)
    requires Alone(g, m) && m.phase == ToHome(0) && k <= |m.logged| && m.logged != []
    ensures Leads(g, m, Commits(k),
                  m.(pinned := m.pinned - SetOf(m.logged[..k]), phase := if k < |m.logged| then ToHome(k) else ToClear))
  {
    if k > 0 {
      var m1 := m.(pinned := m.pinned - SetOf(m.logged[..k - 1]), phase := ToHome(k - 1));
      Installs(g, m, k - 1);
      CommitGoes(g, m, m1);
      OneCommitMore(g, m, k - 1, m1);
      assert m.logged[..k] == m.logged[..k - 1] + [m.logged[k - 1]];
      assert m1.pinned - {m.logged[k - 1]} == m.pinned - SetOf(m.logged[..k]);
    } else {
      assert m.pinned - SetOf(m.logged[..0]) == m.pinned;
    }
  }

  /** Its slots, its header, its home blocks and the empty header: 2n + 2 writes, and a crash leaves the transaction. */
  lemma {:induction false} CommitAlone(g: Config, m: Machine)
    requires Alone(g, m) && m.phase == ToLog(0) && m.logged != [] && m.pinned == SetOf(m.logged)
    ensures Leads(g, m, Commits(CommitCost(m.logged)),
                  m.(saved := m.blocks, logged := [], pinned := {}, phase := NoCommit))
  {
    var n, m1, m2 := |m.logged|, m.(phase := ToHeader), m.(saved := m.blocks, phase := ToHome(0));
    Logs(g, m, n);
    CommitGoes(g, m, m1);
    OneCommitMore(g, m, n, m1);
    assert InUse(m2) == InUse(m);
    Installs(g, m2, n);
    var m3 := m2.(pinned := {}, phase := ToClear);
    assert m.logged[..n] == m.logged;
    assert m2.pinned - SetOf(m.logged[..n]) == {};
    CommitGoes(g, m, m3);
    OneCommitMore(g, m2, n, m3);
    LeadsOn(g, m, Commits(n + 1), m2, Commits(n + 1), Advanced(m3));
    assert Commits(n + 1) + Commits(n + 1) == Commits(CommitCost(m.logged));
  }

  /** A reader that takes the last buffer stops a commit wherever it is. */
  lemma {:induction false} ReaderStopsCommit(g: Config, m: Machine, b: nat)
    requires m.phase != NoCommit && !Stops(g, m, Bread(b)) && b < |m.blocks| && b !in m.pinned
    requires |InUse(m)| + 1 == g.nbuf
    ensures Stops(g, Next(m, Bread(b)), Commit)
  {
    var m1 := Next(m, Bread(b));
    assert InUse(m1) == InUse(m) + {b};
  }

  // ---------------------------------------------------------------- a log that is full

  function Begins(n: nat): seq<Call> {
    if n == 0 then [] else Begins(n - 1) + [Begin]
  }

  function Ends(n: nat): seq<Call> {
    if n == 0 then [] else Ends(n - 1) + [End]
  }

  /** Each of some blocks is written as it was. */
  function Rewrites(d: Disk, bs: seq<nat>): seq<Call>
    requires forall i :: 0 <= i < |bs| ==> bs[i] < |d|
  {
    if bs == [] then [] else Rewrites(d, bs[..|bs| - 1]) + Rewrite(bs[|bs| - 1], d[bs[|bs| - 1]])
  }

  /** One more operation may begin, when k have. */
  ghost predicate Fits(g: Config, m: Machine, k: nat) {
    !Stops(g, m.(ops := m.ops + k), Begin)
  }

  ghost predicate AllFit(g: Config, m: Machine, n: nat) {
    forall k {:trigger Fits(g, m, k)} :: 0 <= k < n ==> Fits(g, m, k)
  }

  lemma {:induction false} Reserved(g: Config, m: Machine, n: nat)
    requires |m.logged| + (m.ops + n) * g.maxop <= g.L.size && m.phase == NoCommit
    ensures AllFit(g, m, n)
  {
    forall k {:trigger Fits(g, m, k)} | 0 <= k < n ensures Fits(g, m, k) {
      FewerFit(m.ops + k + 1, m.ops + n, g.maxop);
    }
  }

  lemma {:induction false} FewerFit(a: nat, b: nat, c: nat)
    requires a <= b
    ensures a * c <= b * c
  {
    assert b * c == a * c + (b - a) * c;
  }

  lemma {:induction false} AllBegin(g: Config, m: Machine, n: nat)
    requires AllFit(g, m, n) && m.phase == NoCommit
    ensures Leads(g, m, Begins(n), m.(ops := m.ops + n))
  {
    if n > 0 {
      AllBegin(g, m, n - 1);
      var m1 := m.(ops := m.ops + (n - 1));
      assert Fits(g, m, n - 1);
      LeadsOne(g, m1, Begin);
      LeadsOn(g, m, Begins(n - 1), m1, [Begin], m.(ops := m.ops + n));
    }
  }

  lemma {:induction false} SizeOfSet(bs: seq<nat>)
    requires Distinct(bs)
    ensures |SetOf(bs)| == |bs|
  {
    if bs != [] {
      var n := |bs| - 1;
      LastApart(bs);
      SizeOfSet(bs[..n]);
      assert bs == bs[..n] + [bs[n]];
      assert SetOf(bs) == SetOf(bs[..n]) + {bs[n]};
    } else {
      assert SetOf(bs) == {};
    }
  }

  lemma {:induction false} LastApart(bs: seq<nat>)
    requires Distinct(bs) && bs != []
    ensures Distinct(bs[..|bs| - 1]) && bs[|bs| - 1] !in bs[..|bs| - 1]
  {
    var n := |bs| - 1;
    var init := bs[..n];
    forall i, j {:trigger Differ(init, i, j)} | 0 <= i < j < n ensures Differ(init, i, j) { assert Differ(bs, i, j); }
    forall i | 0 <= i < n ensures init[i] != bs[n] { assert Differ(bs, i, n); }
  }

  /** Rewriting one block more, with so many others logged. */
  lemma {:induction false} OneRewritten(g: Config, d: Disk, ops: nat, bs: seq<nat>, b: nat)
    requires Distinct(bs) && b !in bs && g.L.IsHome(b) && |bs| < g.nbuf && |bs| < g.L.size && |d| == g.L.blocks &&
      ops > 0
    ensures Leads(g, Machine(d, d, map[], {}, bs, SetOf(bs), ops, NoCommit), Rewrite(b, d[b]),
      Machine(d, d, map[], {}, bs + [b], SetOf(bs + [b]), ops, NoCommit))
  {
    var m := Machine(d, d, map[], {}, bs, SetOf(bs), ops, NoCommit);
    SizeOfSet(bs);
    assert InUse(m) == SetOf(bs);
    WriteBlock(g, m, b, d[b]);
    assert d[b := d[b]] == d;
  }

  lemma {:induction false} AllRewritten(g: Config, d: Disk, ops: nat, bs: seq<nat>)
    requires GoodTransaction(g.L, bs) && |bs| <= g.nbuf && |d| == g.L.blocks && ops > 0
    ensures Leads(g, Machine(d, d, map[], {}, [], {}, ops, NoCommit), Rewrites(d, bs),
      Machine(d, d, map[], {}, bs, SetOf(bs), ops, NoCommit))
  {
    var m := Machine(d, d, map[], {}, [], {}, ops, NoCommit);
    if bs != [] {
      var n, b := |bs| - 1, bs[|bs| - 1];
      var init := bs[..n];
      LastApart(bs);
      AllRewritten(g, d, ops, init);
      OneRewritten(g, d, ops, init, b);
      assert init + [b] == bs;
      LeadsOn(g, m, Rewrites(d, init), Machine(d, d, map[], {}, init, SetOf(init), ops, NoCommit), Rewrite(b, d[b]),
        Machine(d, d, map[], {}, bs, SetOf(bs), ops, NoCommit));
    }
  }

  lemma {:induction false} AllButOneEnd(g: Config, m: Machine, n: nat)
    requires n < m.ops
    ensures Leads(g, m, Ends(n), m.(ops := m.ops - n))
  {
    if n > 0 {
      var m1 := m.(ops := m.ops - (n - 1));
      AllButOneEnd(g, m, n - 1);
      LeadsOne(g, m1, End);
      LeadsOn(g, m, Ends(n - 1), m1, [End], m.(ops := m.ops - n));
    }
  }

  /** The operations that fill the log together, up to the last end_op(). */
  function Filling(d: Disk, bs: seq<nat>, n: nat): seq<Call>
    requires 0 < n && forall i :: 0 <= i < |bs| ==> bs[i] < |d|
  {
    Begins(n) + (Rewrites(d, bs) + Ends(n - 1))
  }

  lemma {:induction false} Filled(g: Config, d: Disk, bs: seq<nat>, n: nat)
    requires GoodTransaction(g.L, bs) && |bs| <= g.nbuf && AllFit(g, Fresh(d), n) && 0 < n && |d| == g.L.blocks
    ensures Leads(g, Fresh(d), Filling(d, bs, n), Machine(d, d, map[], {}, bs, SetOf(bs), 1, NoCommit))
  {
    AllBegin(g, Fresh(d), n);
    FilledThen(g, d, bs, n);
    LeadsOn(g, Fresh(d), Begins(n), Machine(d, d, map[], {}, [], {}, n, NoCommit), Rewrites(d, bs) + Ends(n - 1),
      Machine(d, d, map[], {}, bs, SetOf(bs), 1, NoCommit));
  }

  lemma {:induction false} FilledThen(g: Config, d: Disk, bs: seq<nat>, n: nat)
    requires GoodTransaction(g.L, bs) && |bs| <= g.nbuf && 0 < n && |d| == g.L.blocks
    ensures Leads(g, Machine(d, d, map[], {}, [], {}, n, NoCommit), Rewrites(d, bs) + Ends(n - 1),
      Machine(d, d, map[], {}, bs, SetOf(bs), 1, NoCommit))
  {
    var m' := Machine(d, d, map[], {}, bs, SetOf(bs), n, NoCommit);
    AllRewritten(g, d, n, bs);
    AllButOneEnd(g, m', n - 1);
    LeadsOn(g, Machine(d, d, map[], {}, [], {}, n, NoCommit), Rewrites(d, bs), m', Ends(n - 1),
      Machine(d, d, map[], {}, bs, SetOf(bs), 1, NoCommit));
  }

  /** Steps of a commit are no misuse, wherever they come. */
  lemma {:induction false} CommitsTidy(m: Machine, calls: seq<Call>, n: nat)
    requires Tidy(m, calls)
    ensures Tidy(m, calls + Commits(n))
  {
    if n == 0 {
      assert calls + Commits(0) == calls;
    } else {
      CommitsTidy(m, calls, n - 1);
      OneMoreTidy(m, calls + Commits(n - 1), Commit);
      assert calls + Commits(n) == (calls + Commits(n - 1)) + [Commit];
    }
  }

  /** The operations that fill the log together, with their last end_op(). */
  function FillingEnded(d: Disk, bs: seq<nat>, n: nat): seq<Call>
    requires 0 < n && forall i :: 0 <= i < |bs| ==> bs[i] < |d|
  {
    Filling(d, bs, n) + [End]
  }

  lemma {:induction false} FilledEnded(g: Config, d: Disk, bs: seq<nat>, n: nat)
    requires GoodTransaction(g.L, bs) && |bs| == n * g.maxop <= g.nbuf && 0 < n && bs != [] && |d| == g.L.blocks
    ensures Leads(g, Fresh(d), FillingEnded(d, bs, n), Machine(d, d, map[], {}, bs, SetOf(bs), 0, ToLog(0)))
  {
    Reserved(g, Fresh(d), n);
    Filled(g, d, bs, n);
    var last := Machine(d, d, map[], {}, bs, SetOf(bs), 1, NoCommit);
    LeadsOne(g, last, End);
    LeadsOn(g, Fresh(d), Filling(d, bs, n), last, [End], Next(last, End));
  }

  /**
   With no more buffers than log blocks, n operations that fill the log together, each within its reservation, get as
   far as the last end_op(), whose commit then panics at once: the transaction has pinned every buffer.  One buffer
   more, and it goes through.
   */
  lemma {:induction false} FullLogStops(g: Config, d: Disk, bs: seq<nat>, n: nat)
    requires GoodTransaction(g.L, bs) && |bs| == g.L.size == n * g.maxop <= g.nbuf && 0 < n && bs != [] &&
      |d| == g.L.blocks
    ensures var calls := FillingEnded(d, bs, n);
      && GetsThrough(g, Fresh(d), calls) && Tidy(Fresh(d), calls + Commits(CommitCost(bs)))
      && (g.nbuf == g.L.size ==> Stops(g, AfterCalls(Fresh(d), calls), Commit))
      && (g.nbuf > g.L.size ==> Leads(g, Fresh(d), calls + Commits(CommitCost(bs)), Fresh(d)))
  {
    var calls, m := FillingEnded(d, bs, n), Machine(d, d, map[], {}, bs, SetOf(bs), 0, ToLog(0));
    FilledEnded(g, d, bs, n);
    CommitsTidy(Fresh(d), calls, CommitCost(bs));
    SizeOfSet(bs);
    assert InUse(m) == SetOf(bs);
    if g.nbuf > g.L.size {
      CommitAlone(g, m);
      LeadsOn(g, Fresh(d), calls, m, Commits(CommitCost(bs)), Fresh(d));
    }
  }
}
