/**
 Sleep locks (kernel/sleeplock.c) over sleep_prepare(), sleep() and wakeup()
 (kernel/proc.c), as a state machine: any number of processes and locks, any
 interleaving.  One step is what happens under one acquisition of a process's own
 lock or of a spin lock, so wakeup() takes a step for each process it looks at.
 Processes may also sleep on other channels, be killed and give up the CPU.
 */
module SleepLocks {

  import opened Basics

  datatype RunState = Running | Runnable | Sleeping

  datatype Chan = NoChan | LockChan(lock: nat) | OtherChan(c: nat)

  /** Where a process is: in acquiresleep(l), in releasesleep(l), about to sleep elsewhere, or in none of them. */
  datatype Pc =
    | Idle
    | AcqSpin(l: nat)       // about to acquire the spin lock, the first time or after sleeping
    | AcqTest(l: nat)       // has it; about to look at locked
    | AcqPrepare(l: nat)    // about to call sleep_prepare
    | AcqLeave(l: nat)      // about to release the spin lock and sleep
    | AcqSleep(l: nat)      // about to call sleep
    | AcqTake(l: nat)       // about to set locked
    | AcqDone(l: nat)       // about to release the spin lock and return
    | RelSpin(l: nat)
    | RelClear(l: nat)      // about to clear locked
    | RelWake(l: nat, i: nat)  // about to look at process i
    | RelDone(l: nat)       // about to release the spin lock and return
    | OtherSleep            // prepared to sleep on another channel

  /** owns: the locks the process has acquired and not begun to give up. */
  datatype Proc = Proc(state: RunState, chan: Chan, pc: Pc, owns: set<nat>)

  datatype Lock = Lock(spin: Option<nat>, locked: bool, pid: nat)

  datatype State = State(procs: seq<Proc>, locks: seq<Lock>)

  datatype Action =
    | CallAcquire(l: nat) | CallRelease(l: nat) | Step
    | PrepareOther(c: nat) | WakeOther(c: nat, j: nat) | Kill(j: nat) | Yield | Schedule

  // ---------------------------------------------------------------- the machine

  /** The spin lock a process holds. */
  function SpinHeld(pc: Pc): Option<nat> {
    match pc
    case AcqTest(l) => Some(l)
    case AcqPrepare(l) => Some(l)
    case AcqLeave(l) => Some(l)
    case AcqTake(l) => Some(l)
    case AcqDone(l) => Some(l)
    case RelClear(l) => Some(l)
    case RelWake(l, _) => Some(l)
    case RelDone(l) => Some(l)
    case _ => None
  }

  ghost predicate Enabled(s: State, p: nat, a: Action) {
    && p < |s.procs|
    && (if a.Schedule? then s.procs[p].state == Runnable else s.procs[p].state == Running)
    && match a
       case CallAcquire(l) => s.procs[p].pc == Idle && l < |s.locks|
       case CallRelease(l) => s.procs[p].pc == Idle && l in s.procs[p].owns
       case Step => CanStep(s, s.procs[p].pc)
       case PrepareOther(_) => s.procs[p].pc == Idle
       case WakeOther(_, j) => s.procs[p].pc == Idle && j < |s.procs|
       case Kill(j) => s.procs[p].pc == Idle && j < |s.procs|
       case Yield => SpinHeld(s.procs[p].pc) == None
       case Schedule => true
  }

  /** A spin lock is waited for; nothing else is. */
  ghost predicate CanStep(s: State, pc: Pc) {
    match pc
    case Idle => false
    case AcqSpin(l) => l < |s.locks| && s.locks[l].spin == None
    case RelSpin(l) => l < |s.locks| && s.locks[l].spin == None
    case OtherSleep => true
    case _ => pc.l < |s.locks|
  }

  function At(s: State, p: nat, pr: Proc): State
    requires p < |s.procs|
  {
    s.(procs := s.procs[p := pr])
  }

  function LockSet(s: State, l: nat, lk: Lock): State
    requires l < |s.locks|
  {
    s.(locks := s.locks[l := lk])
  }

  /** sleep(): only if the wakeup has not come already. */
  function Slept(pr: Proc, pc: Pc): Proc {
    if pr.chan != NoChan then pr.(state := Sleeping, pc := pc) else pr.(pc := pc)
  }

  /** What wakeup(c) does to one process. */
  function Woken(pr: Proc, c: Chan): Proc {
    if pr.chan == c then pr.(chan := NoChan, state := if pr.state == Sleeping then Runnable else pr.state) else pr
  }

  ghost function Do(s: State, p: nat, a: Action): State
    requires Enabled(s, p, a)
  {
    var pr := s.procs[p];
    match a
    case CallAcquire(l) => At(s, p, pr.(pc := AcqSpin(l)))
    case CallRelease(l) => At(s, p, pr.(pc := RelSpin(l)))
    case PrepareOther(c) => At(s, p, pr.(chan := OtherChan(c), pc := OtherSleep))
    case WakeOther(c, j) => At(s, j, Woken(s.procs[j], OtherChan(c)))
    case Kill(j) => At(s, j, s.procs[j].(state := if s.procs[j].state == Sleeping then Runnable else s.procs[j].state))
    case Yield => At(s, p, pr.(state := Runnable))
    case Schedule => At(s, p, pr.(state := Running))
    case Step => Stepped(s, p)
  }

  /** The next step of acquiresleep() or releasesleep(). */
  ghost function Stepped(s: State, p: nat): State
    requires p < |s.procs| && CanStep(s, s.procs[p].pc)
  {
    var pr := s.procs[p];
    match pr.pc
    case AcqSpin(l) => At(LockSet(s, l, s.locks[l].(spin := Some(p))), p, pr.(pc := AcqTest(l)))
    case AcqTest(l) => At(s, p, pr.(pc := if s.locks[l].locked then AcqPrepare(l) else AcqTake(l)))
    case AcqPrepare(l) => At(s, p, pr.(chan := LockChan(l), pc := AcqLeave(l)))
    case AcqLeave(l) => At(LockSet(s, l, s.locks[l].(spin := None)), p, pr.(pc := AcqSleep(l)))
    case AcqSleep(l) => At(s, p, Slept(pr, AcqSpin(l)))
    case AcqTake(l) => At(LockSet(s, l, s.locks[l].(locked := true, pid := p)), p, pr.(pc := AcqDone(l)))
    case AcqDone(l) => At(LockSet(s, l, s.locks[l].(spin := None)), p, pr.(pc := Idle, owns := pr.owns + {l}))
    case RelSpin(l) => At(LockSet(s, l, s.locks[l].(spin := Some(p))), p, pr.(pc := RelClear(l)))
    case RelClear(l) =>
      At(LockSet(s, l, s.locks[l].(locked := false, pid := 0)), p, pr.(pc := RelWake(l, 0), owns := pr.owns - {l}))
    case RelWake(l, i) =>
      if i < |s.procs| then
        var t := At(s, i, Woken(s.procs[i], LockChan(l)));
        At(t, p, t.procs[p].(pc := RelWake(l, i + 1)))
      else At(s, p, pr.(pc := RelDone(l)))
    case RelDone(l) => At(LockSet(s, l, s.locks[l].(spin := None)), p, pr.(pc := Idle))
    case OtherSleep => At(s, p, Slept(pr, Idle))
    case Idle => s
  }

  // ---------------------------------------------------------------- the invariant

  /** A spin lock is held by the one process that is where it holds it. */
  ghost predicate SpinOk(s: State, p: nat, l: nat) {
    p < |s.procs| && l < |s.locks| ==> (SpinHeld(s.procs[p].pc) == Some(l) <==> s.locks[l].spin == Some(p))
  }

  ghost predicate SpinHolder(s: State, l: nat) {
    l < |s.locks| && s.locks[l].spin.Some? ==> s.locks[l].spin.value < |s.procs|
  }

  /** What a process relies on where it is. */
  ghost predicate PcOk(s: State, p: nat) {
    p < |s.procs| ==>
      var pr := s.procs[p];
      match pr.pc
      case Idle => true
      case OtherSleep => !pr.chan.LockChan?
      case AcqPrepare(l) => l < |s.locks| && s.locks[l].locked
      case AcqLeave(l) => l < |s.locks| && s.locks[l].locked && (pr.chan == NoChan || pr.chan == LockChan(l))
      case AcqSleep(l) => l < |s.locks| && (pr.chan == NoChan || pr.chan == LockChan(l))
      case AcqTake(l) => l < |s.locks| && !s.locks[l].locked
      case AcqDone(l) => l < |s.locks| && s.locks[l].locked && s.locks[l].pid == p
      case RelSpin(l) => l in pr.owns && l < |s.locks|
      case RelClear(l) => l in pr.owns && l < |s.locks|
      case RelWake(l, i) => l < |s.locks| && !s.locks[l].locked && i <= |s.procs|
      case RelDone(l) => l < |s.locks| && !s.locks[l].locked
      case _ => pr.pc.l < |s.locks|
  }

  /** A lock that a process owns is locked, in its name. */
  ghost predicate OwnsOk(s: State, p: nat, l: nat) {
    p < |s.procs| && l in s.procs[p].owns ==> l < |s.locks| && s.locks[l].locked && s.locks[l].pid == p
  }

  /** A lock that is locked is owned by the process it names, or that process has just locked it. */
  ghost predicate LockedOk(s: State, l: nat) {
    l < |s.locks| && s.locks[l].locked ==>
      var p := s.locks[l].pid;
      p < |s.procs| && (l in s.procs[p].owns || s.procs[p].pc == AcqDone(l))
  }

  /** A process that waits for a lock that is not locked is one that a wakeup in progress has yet to look at. */
  ghost predicate WaitOk(s: State, p: nat, l: nat) {
    p < |s.procs| && l < |s.locks| && s.procs[p].chan == LockChan(l) && !s.locks[l].locked ==>
      s.locks[l].spin.Some? && s.locks[l].spin.value < |s.procs| && StillToWake(s.procs[s.locks[l].spin.value].pc, l, p)
  }

  predicate StillToWake(pc: Pc, l: nat, p: nat) {
    pc.RelWake? && pc.l == l && pc.i <= p
  }

  /** A sleeping process sleeps on the channel it went to sleep on. */
  ghost predicate SleepOk(s: State, p: nat) {
    p < |s.procs| && s.procs[p].state == Sleeping ==>
      || (s.procs[p].pc.AcqSpin? && s.procs[p].chan == LockChan(s.procs[p].pc.l))
      || (s.procs[p].pc.Idle? && s.procs[p].chan.OtherChan?)
  }

  ghost predicate Inv(s: State) {
    && (forall p: nat, l: nat {:trigger SpinOk(s, p, l)} :: SpinOk(s, p, l))
    && (forall l: nat {:trigger SpinHolder(s, l)} :: SpinHolder(s, l))
    && (forall p: nat {:trigger PcOk(s, p)} :: PcOk(s, p))
    && (forall p: nat, l: nat {:trigger OwnsOk(s, p, l)} :: OwnsOk(s, p, l))
    && (forall l: nat {:trigger LockedOk(s, l)} :: LockedOk(s, l))
    && (forall p: nat, l: nat {:trigger WaitOk(s, p, l)} :: WaitOk(s, p, l))
    && (forall p: nat {:trigger SleepOk(s, p)} :: SleepOk(s, p))
  }

  // ---------------------------------------------------------------- every step keeps it

  lemma {:induction false} SpinKept(s: State, p: nat, a: Action, q: nat, l: nat)
    requires Inv(s) && Enabled(s, p, a)
    ensures SpinOk(Do(s, p, a), q, l) && SpinHolder(Do(s, p, a), l)
  {
    assert SpinOk(s, q, l) && SpinHolder(s, l);
    if a.Step? {
      assert SpinOk(s, p, l) && PcOk(s, p);
      SteppedPc(s, p, q);
      if l < |s.locks| { SteppedSpin(s, p, l); }
    }
  }

  /** A step moves its own process, and no other, on. */
  lemma {:induction false} SteppedPc(s: State, p: nat, q: nat)
    requires p < |s.procs| && CanStep(s, s.procs[p].pc)
    ensures |Stepped(s, p).procs| == |s.procs| && |Stepped(s, p).locks| == |s.locks|
    ensures q < |s.procs| && q != p ==> Stepped(s, p).procs[q].pc == s.procs[q].pc
    ensures var pc, pc' := s.procs[p].pc, Stepped(s, p).procs[p].pc;
      SpinHeld(pc') == if pc.AcqSpin? || pc.RelSpin? then Some(pc.l)
                       else if pc.AcqLeave? || pc.AcqDone? || pc.RelDone? then None else SpinHeld(pc)
  {
  }

  lemma {:induction false} SteppedSpin(s: State, p: nat, l: nat)
    requires p < |s.procs| && CanStep(s, s.procs[p].pc) && l < |s.locks|
    ensures |Stepped(s, p).locks| == |s.locks|
    ensures var pc := s.procs[p].pc;
      Stepped(s, p).locks[l].spin ==
        if (pc.AcqSpin? || pc.RelSpin?) && pc.l == l then Some(p)
        else if (pc.AcqLeave? || pc.AcqDone? || pc.RelDone?) && pc.l == l then None else s.locks[l].spin
  {
  }

  lemma {:induction false} OwnsKept(s: State, p: nat, a: Action, q: nat, l: nat)
    requires Inv(s) && Enabled(s, p, a)
    ensures OwnsOk(Do(s, p, a), q, l)
  {
    assert PcOk(s, p) && OwnsOk(s, q, l) && OwnsOk(s, p, l);
  }

  lemma {:induction false} LockedKept(s: State, p: nat, a: Action, l: nat)
    requires Inv(s) && Enabled(s, p, a)
    ensures LockedOk(Do(s, p, a), l)
  {
    assert LockedOk(s, l) && PcOk(s, p);
    if a.Step? && l < |s.locks| {
      assert SpinOk(s, p, l);
      if s.locks[l].locked {
        var q := s.locks[l].pid;
        assert SpinOk(s, q, l);
        if q != p { SteppedOther(s, p, q, l); SteppedPc(s, p, q); }
      }
    }
  }

  lemma {:induction false} PcKept(s: State, p: nat, a: Action, q: nat)
    requires Inv(s) && Enabled(s, p, a)
    ensures PcOk(Do(s, p, a), q)
  {
    assert PcOk(s, p) && PcOk(s, q);
    if a.Step? {
      if q == p { OwnPcKept(s, p); } else { OtherPcKept(s, p, q); }
    } else if a.CallRelease? {
      assert OwnsOk(s, p, a.l);
    }
  }

  lemma {:induction false} OwnPcKept(s: State, p: nat)
    requires Inv(s) && Enabled(s, p, Step)
    ensures PcOk(Stepped(s, p), p)
  {
    assert PcOk(s, p);
    if s.procs[p].pc != OtherSleep {
      assert OwnsOk(s, p, s.procs[p].pc.l);
    }
  }

  /** Another process relies on locked only where it has the spin lock, and there no one else changes it. */
  lemma {:induction false} OtherPcKept(s: State, p: nat, q: nat)
    requires Inv(s) && Enabled(s, p, Step) && q != p
    ensures PcOk(Stepped(s, p), q)
  {
    assert PcOk(s, p) && PcOk(s, q);
    SteppedPc(s, p, q);
    if q < |s.procs| && s.procs[q].pc != Idle && s.procs[q].pc != OtherSleep {
      var l := s.procs[q].pc.l;
      assert SpinOk(s, q, l) && SpinOk(s, p, l);
      SteppedOther(s, p, q, l);
    }
  }

  lemma {:induction false} SteppedOther(s: State, p: nat, q: nat, l: nat)
    requires p < |s.procs| && CanStep(s, s.procs[p].pc) && q < |s.procs| && q != p && l < |s.locks|
    ensures |Stepped(s, p).procs| == |s.procs| && |Stepped(s, p).locks| == |s.locks|
    ensures Stepped(s, p).procs[q].owns == s.procs[q].owns
    ensures Stepped(s, p).procs[q].chan == s.procs[q].chan || Stepped(s, p).procs[q].chan == NoChan
    ensures SpinHeld(s.procs[p].pc) != Some(l) ==>
      Stepped(s, p).locks[l].locked == s.locks[l].locked && Stepped(s, p).locks[l].pid == s.locks[l].pid
  {
  }

  /**
   The heart of it: a waiter registers while the lock is locked, and clearing it wakes every waiter before the spin
   lock is free.
   */
  lemma {:induction false} WaitKept(s: State, p: nat, a: Action, q: nat, l: nat)
    requires Inv(s) && Enabled(s, p, a)
    ensures WaitOk(Do(s, p, a), q, l)
  {
    assert PcOk(s, p) && WaitOk(s, q, l) && SpinOk(s, p, l) && SpinHolder(s, l);
  }

  lemma {:induction false} SleepKept(s: State, p: nat, a: Action, q: nat)
    requires Inv(s) && Enabled(s, p, a)
    ensures SleepOk(Do(s, p, a), q)
  {
    assert PcOk(s, p) && SleepOk(s, q);
  }

  lemma {:induction false} StepKeeps(s: State, p: nat, a: Action)
    requires Inv(s) && Enabled(s, p, a)
    ensures Inv(Do(s, p, a))
  {
    var s' := Do(s, p, a);
    forall q: nat, l: nat {:trigger SpinOk(s', q, l)} ensures SpinOk(s', q, l) { SpinKept(s, p, a, q, l); }
    forall l: nat {:trigger SpinHolder(s', l)} ensures SpinHolder(s', l) { SpinKept(s, p, a, p, l); }
    forall q: nat {:trigger PcOk(s', q)} ensures PcOk(s', q) { PcKept(s, p, a, q); }
    forall q: nat, l: nat {:trigger OwnsOk(s', q, l)} ensures OwnsOk(s', q, l) { OwnsKept(s, p, a, q, l); }
    forall l: nat {:trigger LockedOk(s', l)} ensures LockedOk(s', l) { LockedKept(s, p, a, l); }
    forall q: nat, l: nat {:trigger WaitOk(s', q, l)} ensures WaitOk(s', q, l) { WaitKept(s, p, a, q, l); }
    forall q: nat {:trigger SleepOk(s', q)} ensures SleepOk(s', q) { SleepKept(s, p, a, q); }
  }

  // ---------------------------------------------------------------- every run

  /** Every process outside the sleep locks, every lock free. */
  ghost predicate Init(s: State) {
    && (forall p {:trigger s.procs[p]} :: 0 <= p < |s.procs| ==>
          s.procs[p].state != Sleeping && s.procs[p].chan == NoChan && s.procs[p].pc == Idle && s.procs[p].owns == {})
    && (forall l {:trigger s.locks[l]} :: 0 <= l < |s.locks| ==> s.locks[l].spin == None && !s.locks[l].locked)
  }

  lemma {:induction false} InitInv(s: State)
    requires Init(s)
    ensures Inv(s)
  {
    forall p: nat, l: nat {:trigger SpinOk(s, p, l)} ensures SpinOk(s, p, l) {}
    forall p: nat {:trigger PcOk(s, p)} ensures PcOk(s, p) {}
    forall p: nat, l: nat {:trigger OwnsOk(s, p, l)} ensures OwnsOk(s, p, l) {}
    forall p: nat, l: nat {:trigger WaitOk(s, p, l)} ensures WaitOk(s, p, l) {}
    forall p: nat {:trigger SleepOk(s, p)} ensures SleepOk(s, p) {}
  }

  datatype Move = Move(p: nat, a: Action)

  /** s' is reached from s by the moves, in order. */
  ghost predicate Leads(s: State, moves: seq<Move>, s': State)
    decreases |moves|
  {
    if moves == [] then s' == s
    else Enabled(s, moves[0].p, moves[0].a) && Leads(Do(s, moves[0].p, moves[0].a), moves[1..], s')
  }

  lemma {:induction false} RunKeeps(s: State, moves: seq<Move>, s': State)
    requires Inv(s) && Leads(s, moves, s')
    ensures Inv(s')
    decreases |moves|
  {
    if moves != [] {
      StepKeeps(s, moves[0].p, moves[0].a);
      RunKeeps(Do(s, moves[0].p, moves[0].a), moves[1..], s');
    }
  }

  /** In no run do two processes have the same sleep lock. */
  lemma {:induction false} MutualExclusion(s: State, moves: seq<Move>, s': State, p: nat, q: nat, l: nat)
    requires Init(s) && Leads(s, moves, s') && p < |s'.procs| && q < |s'.procs|
    requires l in s'.procs[p].owns && l in s'.procs[q].owns
    ensures p == q
  {
    InitInv(s);
    RunKeeps(s, moves, s');
    assert OwnsOk(s', p, l) && OwnsOk(s', q, l);
  }

  /** In no run is a wakeup lost: when a lock is free and no one is changing it, no process is asleep waiting for it. */
  lemma {:induction false} NoLostWakeup(s: State, moves: seq<Move>, s': State, p: nat, l: nat)
    requires Init(s) && Leads(s, moves, s') && p < |s'.procs| && l < |s'.locks|
    requires !s'.locks[l].locked && s'.locks[l].spin == None
    ensures s'.procs[p].chan != LockChan(l)
    ensures s'.procs[p].pc == AcqSpin(l) ==> s'.procs[p].state != Sleeping
  {
    InitInv(s);
    RunKeeps(s, moves, s');
    assert WaitOk(s', p, l) && SleepOk(s', p);
  }

  /**
   And a process asleep waiting for a lock has someone who will wake it: whoever has it locked, or is part way through
   waking.
   */
  lemma {:induction false} WaiterHasWaker(s: State, moves: seq<Move>, s': State, p: nat, l: nat)
    requires Init(s) && Leads(s, moves, s') && p < |s'.procs| && l < |s'.locks|
    requires s'.procs[p].state == Sleeping && s'.procs[p].pc == AcqSpin(l)
    ensures s'.locks[l].locked ||
      (s'.locks[l].spin.Some? && s'.locks[l].spin.value < |s'.procs| &&
        StillToWake(s'.procs[s'.locks[l].spin.value].pc, l, p))
  {
    InitInv(s);
    RunKeeps(s, moves, s');
    assert WaitOk(s', p, l) && SleepOk(s', p);
  }

  predicate InAcquire(pc: Pc) {
    pc.AcqSpin? || pc.AcqTest? || pc.AcqPrepare? || pc.AcqLeave? || pc.AcqSleep? || pc.AcqTake? || pc.AcqDone?
  }

  predicate InRelease(pc: Pc) {
    pc.RelSpin? || pc.RelClear? || pc.RelWake? || pc.RelDone?
  }

  /** In every run acquiresleep() returns with the lock, and in no other way; releasesleep() returns without it. */
  lemma {:induction false} ReturnsWithLock(s: State, moves: seq<Move>, s': State, p: nat, a: Action)
    requires Init(s) && Leads(s, moves, s') && Enabled(s', p, a)
    ensures var pc, t := s'.procs[p].pc, Do(s', p, a);
      && (InAcquire(pc) && !InAcquire(t.procs[p].pc) ==>
            t.procs[p].pc == Idle && t.procs[p].owns == s'.procs[p].owns + {pc.l} && pc.l < |t.locks|
            && t.locks[pc.l].locked && t.locks[pc.l].pid == p)
      && (InRelease(pc) && !InRelease(t.procs[p].pc) ==>
            t.procs[p].pc == Idle && pc.l !in t.procs[p].owns && pc.l < |t.locks| && !t.locks[pc.l].locked)
  {
    InitInv(s);
    RunKeeps(s, moves, s');
    ReturnsSo(s', p, a);
  }

  lemma {:induction false} ReturnsSo(s: State, p: nat, a: Action)
    requires Inv(s) && Enabled(s, p, a)
    ensures var pc, t := s.procs[p].pc, Do(s, p, a);
      && (InAcquire(pc) && !InAcquire(t.procs[p].pc) ==>
            t.procs[p].pc == Idle && t.procs[p].owns == s.procs[p].owns + {pc.l} && pc.l < |t.locks|
            && t.locks[pc.l].locked && t.locks[pc.l].pid == p)
      && (InRelease(pc) && !InRelease(t.procs[p].pc) ==>
            t.procs[p].pc == Idle && pc.l !in t.procs[p].owns && pc.l < |t.locks| && !t.locks[pc.l].locked)
  {
    assert PcOk(s, p);
    if InRelease(s.procs[p].pc) { assert OwnsOk(s, p, s.procs[p].pc.l); }
  }

  /** In every run a lock that is locked is some process's, which has acquired it or is about to return with it. */
  lemma {:induction false} LockedByOne(s: State, moves: seq<Move>, s': State, l: nat)
    requires Init(s) && Leads(s, moves, s') && l < |s'.locks| && s'.locks[l].locked
    ensures var p := s'.locks[l].pid; p < |s'.procs| && (l in s'.procs[p].owns || s'.procs[p].pc == AcqDone(l))
  {
    InitInv(s);
    RunKeeps(s, moves, s');
    assert LockedOk(s', l);
  }

  /**
   In no run do the processes in these calls hold each other up for good: as long as there is one that is not asleep,
   one of them can take a step or be scheduled to.
   */
  lemma {:induction false} SomeoneMoves(s: State, moves: seq<Move>, s': State, p: nat)
    requires Init(s) && Leads(s, moves, s') && p < |s'.procs| && s'.procs[p].pc != Idle && s'.procs[p].state != Sleeping
    ensures exists q: nat :: Enabled(s', q, Step) || Enabled(s', q, Schedule)
  {
    InitInv(s);
    RunKeeps(s, moves, s');
    Moves(s', p);
  }

  lemma {:induction false} Moves(s: State, p: nat)
    requires Inv(s) && p < |s.procs| && s.procs[p].pc != Idle && s.procs[p].state != Sleeping
    ensures exists q: nat :: Enabled(s, q, Step) || Enabled(s, q, Schedule)
  {
    assert PcOk(s, p);
    var q := p;
    if s.procs[p].pc.AcqSpin? || s.procs[p].pc.RelSpin? {
      var l := s.procs[p].pc.l;
      if s.locks[l].spin.Some? {
        q := s.locks[l].spin.value;
        assert SpinHolder(s, l) && SpinOk(s, q, l) && PcOk(s, q) && SleepOk(s, q);
      }
    }
    assert Enabled(s, q, Step) || Enabled(s, q, Schedule);
  }

  /** A lock that is free can be had at once. */
  lemma {:induction false} FreeLockIsTaken(s: State, p: nat, l: nat)
    requires p < |s.procs| && s.procs[p].state == Running && s.procs[p].pc == Idle
    requires l < |s.locks| && s.locks[l].spin == None && !s.locks[l].locked
    ensures var step := Move(p, Step);
      exists t :: Leads(s, [Move(p, CallAcquire(l)), step, step, step, step], t)
                  && p < |t.procs| && l in t.procs[p].owns && t.procs[p].pc == Idle
  {
    var step := Move(p, Step);
    var s1 := Do(s, p, CallAcquire(l));
    var s2 := Do(s1, p, Step);
    var s3 := Do(s2, p, Step);
    var s4 := Do(s3, p, Step);
    var s5 := Do(s4, p, Step);
    LeadsFirst(s4, step, [], s5);
    LeadsFirst(s3, step, [step], s5);
    LeadsFirst(s2, step, [step, step], s5);
    LeadsFirst(s1, step, [step, step, step], s5);
    LeadsFirst(s, Move(p, CallAcquire(l)), [step, step, step, step], s5);
    assert [Move(p, CallAcquire(l))] + [step, step, step, step] == [Move(p, CallAcquire(l)), step, step, step, step];
  }

  lemma {:induction false} LeadsFirst(s: State, m: Move, moves: seq<Move>, s': State)
    requires Enabled(s, m.p, m.a) && Leads(Do(s, m.p, m.a), moves, s')
    ensures Leads(s, [m] + moves, s')
  {
    assert ([m] + moves)[1..] == moves;
  }

  /** A kill wakes its victim, whatever it sleeps for. */
  lemma {:induction false} KillWakes(s: State, p: nat, j: nat)
    requires Enabled(s, p, Kill(j))
    ensures Do(s, p, Kill(j)).procs[j].state != Sleeping
  {
  }
}
