/**
 Log space reservation (begin_op(), log_write() and end_op() in kernel/log.c): any number
 of processes, each in at most one operation, in any interleaving.  One step is what
 happens under one acquisition of log.lock.  M is MAXOPBLOCKS and N is LOGBLOCKS.
 */
module LogSpace {

  /** A process is in no operation, in one that has added so many blocks to the log, or committing for all. */
  datatype Op = Out | In(used: nat) | Committing

  datatype S = S(lh: seq<nat>, outstanding: nat, committing: bool, ops: seq<Op>)

  datatype Action = Begin | Write(b: nat) | End | Commit

  /**
   What a process may do: begin_op() waits while the log is committing or might overflow.  An operation adds at most K
   blocks to the log; it may write those again as often as it likes.
   */
  ghost predicate Enabled(s: S, p: nat, a: Action, K: nat, M: nat, N: nat) {
    && p < |s.ops|
    && match a
       case Begin => s.ops[p] == Out && !s.committing && |s.lh| + (s.outstanding + 1) * M <= N
       case Write(b) => s.ops[p].In? && (b in s.lh || s.ops[p].used < K)
       case End => s.ops[p].In?
       case Commit => s.ops[p] == Committing
  }

  /** log_write() panics before it looks for the block in the log. */
  ghost predicate Panics(s: S, a: Action, N: nat) {
    match a
    case Write(_) => |s.lh| >= N || s.outstanding < 1
    case End => s.committing
    case _ => false
  }

  ghost function Do(s: S, p: nat, a: Action): S
    requires p < |s.ops|
  {
    match a
    case Begin => s.(outstanding := s.outstanding + 1, ops := s.ops[p := In(0)])
    case Write(b) =>
      if b in s.lh || !s.ops[p].In? then s     // absorbed
      else s.(lh := s.lh + [b], ops := s.ops[p := In(s.ops[p].used + 1)])
    case End =>
      if s.outstanding <= 1 then s.(outstanding := 0, committing := true, ops := s.ops[p := Committing])
      else s.(outstanding := s.outstanding - 1, ops := s.ops[p := Out])
    case Commit => s.(lh := [], committing := false, ops := s.ops[p := Out])
  }

  // ---------------------------------------------------------------- what is reserved

  function Reserve(op: Op, M: nat): int {
    if op.In? then M - op.used else 0
  }

  function Busy(op: Op): nat {
    if op.In? then 1 else 0
  }

  /** The blocks that operations under way may still add. */
  function Reserved(ops: seq<Op>, M: nat): int {
    if ops == [] then 0 else Reserve(ops[0], M) + Reserved(ops[1..], M)
  }

  function InProgress(ops: seq<Op>): nat {
    if ops == [] then 0 else Busy(ops[0]) + InProgress(ops[1..])
  }

  lemma {:induction false} SumsAfter(ops: seq<Op>, p: nat, op: Op, M: nat)
    requires p < |ops|
    ensures Reserved(ops[p := op], M) == Reserved(ops, M) - Reserve(ops[p], M) + Reserve(op, M)
    ensures InProgress(ops[p := op]) == InProgress(ops) - Busy(ops[p]) + Busy(op)
  {
    if p == 0 {
      assert ops[p := op][1..] == ops[1..];
    } else {
      SumsAfter(ops[1..], p - 1, op, M);
      assert ops[p := op][1..] == ops[1..][p - 1 := op];
    }
  }

  lemma {:induction false} ReservedBound(ops: seq<Op>, M: nat)
    ensures Reserved(ops, M) <= InProgress(ops) * M
  {
    if ops != [] {
      ReservedBound(ops[1..], M);
      assert (Busy(ops[0]) + InProgress(ops[1..])) * M == Busy(ops[0]) * M + InProgress(ops[1..]) * M;
    }
  }

  /** If no operation has gone over its limit, a reservation is as large as that of any one of them. */
  lemma {:induction false} ReservedAtLeast(ops: seq<Op>, p: nat, M: nat)
    requires p < |ops| && forall q {:trigger ops[q]} :: 0 <= q < |ops| && ops[q].In? ==> ops[q].used <= M
    ensures Reserve(ops[p], M) <= Reserved(ops, M)
  {
    ReservedNonNegative(ops[1..], M);
    if p > 0 { ReservedAtLeast(ops[1..], p - 1, M); }
  }

  lemma {:induction false} ReservedNonNegative(ops: seq<Op>, M: nat)
    requires forall q {:trigger ops[q]} :: 0 <= q < |ops| && ops[q].In? ==> ops[q].used <= M
    ensures 0 <= Reserved(ops, M)
  {
    if ops != [] { ReservedNonNegative(ops[1..], M); }
  }

  // ---------------------------------------------------------------- every step

  /**
   The log and what may still be added to it fit; a commit has the log to itself; one process at most commits; and no
   operation has added more than K.
   */
  ghost predicate Inv(s: S, K: nat, M: nat, N: nat) {
    && s.outstanding == InProgress(s.ops) && |s.lh| + Reserved(s.ops, M) <= N
    && (s.committing ==> s.outstanding == 0 && SomeCommits(s.ops)) &&
        (s.outstanding == 0 && !s.committing ==> s.lh == [])
    && (forall p {:trigger s.ops[p]} :: 0 <= p < |s.ops| ==>
          (s.ops[p].In? ==> s.ops[p].used <= K) && (s.ops[p] == Committing ==> s.committing))
    && (forall p, q {:trigger s.ops[p], s.ops[q]} :: 0 <= p < q < |s.ops| ==>
        !(s.ops[p] == Committing && s.ops[q] == Committing))
  }

  /** Some process is committing. */
  ghost predicate SomeCommits(ops: seq<Op>) {
    exists p :: 0 <= p < |ops| && ops[p] == Committing
  }

  /** If any are counted, one has begun. */
  lemma {:induction false} SomeBegun(ops: seq<Op>) returns (p: nat)
    requires InProgress(ops) > 0
    ensures p < |ops| && ops[p].In?
  {
    if ops[0].In? {
      p := 0;
    } else {
      var q := SomeBegun(ops[1..]);
      p := q + 1;
    }
  }

  /** An operation that has begun is counted. */
  lemma {:induction false} Counted(ops: seq<Op>, p: nat)
    requires p < |ops| && ops[p].In?
    ensures InProgress(ops) >= 1
  {
    if p > 0 { Counted(ops[1..], p - 1); }
  }

  lemma {:induction false} BeginKeeps(s: S, p: nat, K: nat, M: nat, N: nat)
    requires Inv(s, K, M, N) && Enabled(s, p, Begin, K, M, N)
    ensures Inv(Do(s, p, Begin), K, M, N)
  {
    SumsAfter(s.ops, p, In(0), M);
    ReservedBound(s.ops, M);
    assert (s.outstanding + 1) * M == s.outstanding * M + M;
  }

  lemma {:induction false} EndKeeps(s: S, p: nat, K: nat, M: nat, N: nat)
    requires Inv(s, K, M, N) && Enabled(s, p, End, K, M, N) && K <= M
    ensures Inv(Do(s, p, End), K, M, N)
  {
    Counted(s.ops, p);
    if s.outstanding <= 1 {
      SumsAfter(s.ops, p, Committing, M);
      assert Do(s, p, End).ops[p] == Committing;
    } else {
      SumsAfter(s.ops, p, Out, M);
    }
  }

  lemma {:induction false} StepKeeps(s: S, p: nat, a: Action, K: nat, M: nat, N: nat)
    requires Inv(s, K, M, N) && Enabled(s, p, a, K, M, N) && K <= M
    ensures Inv(Do(s, p, a), K, M, N)
  {
    match a
    case Begin => BeginKeeps(s, p, K, M, N);
    case Write(b) =>
      Counted(s.ops, p);
      SumsAfter(s.ops, p, In(s.ops[p].used + 1), M);
    case End => EndKeeps(s, p, K, M, N);
    case Commit => SumsAfter(s.ops, p, Out, M);
  }

  /** No step panics, if operations keep one block below what they have reserved. */
  lemma {:induction false} NoPanic(s: S, p: nat, a: Action, K: nat, M: nat, N: nat)
    requires Inv(s, K, M, N) && Enabled(s, p, a, K, M, N) && K < M
    ensures !Panics(s, a, N)
  {
    if s.ops[p].In? {
      Counted(s.ops, p);
      ReservedAtLeast(s.ops, p, M);
    }
  }

  // ---------------------------------------------------------------- every run

  datatype Move = Move(p: nat, a: Action)

  /** s' is reached from s by the moves, in order, without a panic. */
  ghost predicate Leads(s: S, moves: seq<Move>, s': S, K: nat, M: nat, N: nat)
    decreases |moves|
  {
    if moves == [] then s' == s
    else Enabled(s, moves[0].p, moves[0].a, K, M, N) && !Panics(s, moves[0].a, N) &&
         Leads(Do(s, moves[0].p, moves[0].a), moves[1..], s', K, M, N)
  }

  function Idle(procs: nat): (s: S) {
    S([], 0, false, seq(procs, _ => Out))
  }

  lemma {:induction false} IdleInv(procs: nat, K: nat, M: nat, N: nat)
    ensures Inv(Idle(procs), K, M, N)
  {
    IdleSums(procs, M);
  }

  lemma {:induction false} IdleSums(procs: nat, M: nat)
    ensures Reserved(seq(procs, _ => Out), M) == 0 && InProgress(seq(procs, _ => Out)) == 0
  {
    if procs > 0 {
      IdleSums(procs - 1, M);
      assert seq(procs, _ => Out)[1..] == seq(procs - 1, _ => Out);
    }
  }

  lemma {:induction false} RunKeeps(s: S, moves: seq<Move>, s': S, K: nat, M: nat, N: nat)
    requires Inv(s, K, M, N) && Leads(s, moves, s', K, M, N) && K <= M
    ensures Inv(s', K, M, N)
    decreases |moves|
  {
    if moves != [] {
      StepKeeps(s, moves[0].p, moves[0].a, K, M, N);
      RunKeeps(Do(s, moves[0].p, moves[0].a), moves[1..], s', K, M, N);
    }
  }

  /** Some run comes to a panic. */
  ghost predicate CanPanic(procs: nat, K: nat, M: nat, N: nat) {
    exists moves, s, p, a :: Leads(Idle(procs), moves, s, K, M, N) && Enabled(s, p, a, K, M, N) && Panics(s, a, N)
  }

  lemma {:induction false} Append(s: S, moves: seq<Move>, s': S, m: Move, K: nat, M: nat, N: nat)
    requires Leads(s, moves, s', K, M, N) && Enabled(s', m.p, m.a, K, M, N) && !Panics(s', m.a, N)
    ensures Leads(s, moves + [m], Do(s', m.p, m.a), K, M, N)
    decreases |moves|
  {
    if moves == [] {
      assert moves + [m] == [m];
    } else {
      Append(Do(s, moves[0].p, moves[0].a), moves[1..], s', m, K, M, N);
      assert (moves + [m])[1..] == moves[1..] + [m];
    }
  }

  /** The first n processes have begun an operation. */
  function Begun(procs: nat, n: nat): S {
    S([], n, false, seq(procs, p => if p < n then In(0) else Out))
  }

  lemma {:induction false} BeginAll(procs: nat, n: nat, K: nat, M: nat, N: nat) returns (moves: seq<Move>)
    requires n <= procs && n * M <= N
    ensures Leads(Idle(procs), moves, Begun(procs, n), K, M, N)
  {
    if n == 0 {
      moves := [];
      assert Begun(procs, 0).ops == Idle(procs).ops;
    } else {
      assert n * M == (n - 1) * M + M;
      var before := BeginAll(procs, n - 1, K, M, N);
      moves := before + [Move(n - 1, Begin)];
      Append(Idle(procs), before, Begun(procs, n - 1), Move(n - 1, Begin), K, M, N);
      assert Do(Begun(procs, n - 1), n - 1, Begin).ops == Begun(procs, n).ops;
    }
  }

  /** How much process p has added when t blocks have been added in all, M by each process in turn. */
  function Share(t: nat, p: nat, M: nat): nat {
    if t <= p * M then 0 else if t >= p * M + M then M else t - p * M
  }

  function Filled(procs: nat, c: nat, t: nat, M: nat): S {
    S(seq(t, i => i), c, false, seq(procs, p requires 0 <= p => if p < c then In(Share(t, p, M)) else Out))
  }

  /** t is in process t / M's share. */
  lemma {:induction false} WhoseTurn(t: nat, c: nat, M: nat) returns (p: nat)
    requires t < c * M
    ensures p < c && p * M <= t < p * M + M
  {
    if c > 0 {
      assert c * M == (c - 1) * M + M;
      if t >= (c - 1) * M { p := c - 1; } else { p := WhoseTurn(t, c - 1, M); }
    }
  }

  lemma {:induction false} OthersApart(p: nat, q: nat, M: nat)
    requires p < q
    ensures p * M + M <= q * M
  {
    assert q * M == p * M + M + (q - p - 1) * M;
    assert 0 <= (q - p - 1) * M;
  }

  lemma {:induction false} FillStep(procs: nat, c: nat, t: nat, K: nat, M: nat, p: nat)
    requires c <= procs && t < c * M && p < c && p * M <= t < p * M + M && M <= K
    ensures Enabled(Filled(procs, c, t, M), p, Write(t), K, M, c * M) &&
      !Panics(Filled(procs, c, t, M), Write(t), c * M)
    ensures Do(Filled(procs, c, t, M), p, Write(t)) == Filled(procs, c, t + 1, M)
  {
    var s, s' := Filled(procs, c, t, M), Filled(procs, c, t + 1, M);
    assert s.lh + [t] == s'.lh;
    forall q | 0 <= q < procs ensures s.ops[p := In(s.ops[p].used + 1)][q] == s'.ops[q] {
      if q < p { OthersApart(q, p, M); }
      if p < q { OthersApart(p, q, M); }
    }
    assert s.ops[p := In(s.ops[p].used + 1)] == s'.ops;
  }

  lemma {:induction false} FillAll(procs: nat, c: nat, t: nat, K: nat, M: nat) returns (moves: seq<Move>)
    requires c <= procs && t <= c * M && M <= K
    ensures Leads(Idle(procs), moves, Filled(procs, c, t, M), K, M, c * M)
  {
    if t == 0 {
      moves := BeginAll(procs, c, K, M, c * M);
      assert Filled(procs, c, 0, M).ops == Begun(procs, c).ops;
      assert Filled(procs, c, 0, M).lh == [];
    } else {
      var before := FillAll(procs, c, t - 1, K, M);
      var p := WhoseTurn(t - 1, c, M);
      FillStep(procs, c, t - 1, K, M, p);
      moves := before + [Move(p, Write(t - 1))];
      Append(Idle(procs), before, Filled(procs, c, t - 1, M), Move(p, Write(t - 1)), K, M, c * M);
    }
  }

  /**
   With a log of c times MAXOPBLOCKS blocks, and processes enough to fill it, some run panics exactly when operations
   may add as much as they reserve: log_write() gives up on a full log even if the block is in it already.
   */
  lemma {:induction false} PanicsExactlyWhen(procs: nat, c: nat, K: nat, M: nat)
    requires 0 < c <= procs && 0 < M
    ensures CanPanic(procs, K, M, c * M) <==> M <= K
  {
    if M <= K {
      var moves := FillAll(procs, c, c * M, K, M);
      var s := Filled(procs, c, c * M, M);
      assert c * M >= 1 by { assert c * M == (c - 1) * M + M; assert (c - 1) * M >= 0; }
      assert s.lh[0] == 0;
      assert Enabled(s, 0, Write(0), K, M, c * M) && Panics(s, Write(0), c * M);
    } else {
      forall moves, s, p, a | Leads(Idle(procs), moves, s, K, M, c * M) && Enabled(s, p, a, K, M, c * M)
        ensures !Panics(s, a, c * M)
      {
        IdleInv(procs, K, M, c * M);
        RunKeeps(Idle(procs), moves, s, K, M, c * M);
        NoPanic(s, p, a, K, M, c * M);
      }
    }
  }

  /** In every run the log never overflows, and no operation is under way while the log is being committed. */
  lemma {:induction false} SpaceIsReserved(procs: nat, moves: seq<Move>, s: S, K: nat, M: nat, N: nat)
    requires Leads(Idle(procs), moves, s, K, M, N) && K <= M
    ensures |s.lh| + Reserved(s.ops, M) <= N && 0 <= Reserved(s.ops, M)
    ensures s.committing ==> forall p :: 0 <= p < |s.ops| ==> !s.ops[p].In?
  {
    IdleInv(procs, K, M, N);
    RunKeeps(Idle(procs), moves, s, K, M, N);
    ReservedNonNegative(s.ops, M);
    if s.committing {
      forall p | 0 <= p < |s.ops| ensures !s.ops[p].In? {
        if s.ops[p].In? { Counted(s.ops, p); }
      }
    }
  }

  /**
   In no run does begin_op() wait for nothing: if an operation may not begin, there is one under way, which may end, or
   a commit, which may finish; and with neither the log is empty.
   */
  lemma {:induction false} WaitsForSomeone(procs: nat, moves: seq<Move>, s: S, p: nat, K: nat, M: nat, N: nat)
    requires Leads(Idle(procs), moves, s, K, M, N) && K <= M <= N && p < |s.ops| && s.ops[p] == Out
    ensures Enabled(s, p, Begin, K, M, N) || exists q: nat ::
      Enabled(s, q, End, K, M, N) || Enabled(s, q, Commit, K, M, N)
    ensures s.outstanding == 0 && !s.committing ==> s.lh == []
  {
    IdleInv(procs, K, M, N);
    RunKeeps(Idle(procs), moves, s, K, M, N);
    if s.committing {
      var q: nat :| q < |s.ops| && s.ops[q] == Committing;
      assert Enabled(s, q, Commit, K, M, N);
    } else if s.outstanding > 0 {
      var q := SomeBegun(s.ops);
      assert Enabled(s, q, End, K, M, N);
    }
  }
}
