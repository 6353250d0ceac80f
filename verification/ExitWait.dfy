/**
 fork, exit and wait (kernel/proc.c) as a state machine: any number of processes, any
 interleaving.  One step is what happens under one acquisition of a process's lock, or
 of wait_lock where that is taken and released at once; while a process holds wait_lock
 for longer it takes several steps, one for each process that reparent(), wakeup() or
 the scan in kwait() looks at, and others may run in between.
 */
module ExitWait {

  import opened Basics

  datatype RunState = Unused | Used | Sleeping | Runnable | Running | Zombie

  datatype Chan = NoChan | ProcChan(p: nat) | OtherChan(c: nat)

  /** Where a process is, in the kernel code this is about. */
  datatype Pc =
    | Free                        // the slot is not in use
    | Newborn(maker: nat)          // being made by kfork() of another process
    | Idle
    | ForkLink(np: nat) | ForkRun(np: nat)
    | ExitLock(status: int)       // about to acquire wait_lock
    | ExitScan(i: nat, status: int)            // reparent(), at process i
    | ExitWakeInit(i: nat, j: nat, status: int)  // process i has been given to init; wakeup(initproc), at process j
    | ExitWakeParent(j: nat, status: int)
    | ExitZombie(status: int)     // about to become a zombie
    | ExitUnlock                  // about to release wait_lock, with its own lock held
    | ExitSwitch                  // on its way to the scheduler, with its own lock held
    | Dead
    | WaitLock                    // about to acquire wait_lock, the first time or after sleeping
    | WaitScan(i: nat, kids: bool)
    | WaitPrepare | WaitLeave | WaitSleep
    | WaitReturn                  // about to release wait_lock and return
    | OtherSleep

  datatype Proc = Proc(state: RunState, parent: Option<nat>, pid: nat, chan: Chan, killed: bool, xstate: int, pc: Pc)

  /** reaped and exits are the history of the run: who has been waited for, and with what status each process exited. */
  datatype Reap = Reap(pid: nat, status: int)

  datatype State = State(procs: seq<Proc>, waitLock: Option<nat>, nextpid: nat, reaped: seq<Reap>, exits: map<nat, int>)

  const INIT: nat := 0

  datatype Action =
    | CallFork(np: nat) | ForkFail | CallExit(status: int) | CallWait | CopyFail | Step
    | PrepareOther(c: nat) | WakeOther(c: nat, j: nat) | Kill(j: nat) | Yield | Schedule

  // ---------------------------------------------------------------- the machine

  predicate HoldsWaitLock(pc: Pc) {
    || pc.ExitScan? || pc.ExitWakeInit? || pc.ExitWakeParent? || pc.ExitZombie? || pc.ExitUnlock?
    || pc.WaitScan? || pc.WaitPrepare? || pc.WaitLeave? || pc.WaitReturn?
  }

  /** Past becoming a zombie. */
  predicate Gone(pc: Pc) {
    pc.ExitUnlock? || pc.ExitSwitch? || pc.Dead?
  }

  predicate Alive(pr: Proc) {
    pr.state == Running || pr.state == Runnable || pr.state == Sleeping
  }

  ghost predicate Enabled(s: State, p: nat, a: Action) {
    && p < |s.procs|
    && (if a.Schedule? then s.procs[p].state == Runnable
        else s.procs[p].state == Running || (a.Step? && (s.procs[p].pc == ExitUnlock || s.procs[p].pc == ExitSwitch)))
    && match a
       case CallFork(np) => s.procs[p].pc == Idle && np < |s.procs| && s.procs[np].state == Unused
       case ForkFail => s.procs[p].pc.ForkLink? && s.procs[p].pc.np < |s.procs|
       case CallExit(_) => s.procs[p].pc == Idle && p != INIT
       case CallWait => s.procs[p].pc == Idle
       case CopyFail => CanReap(s, p)
       case Step => CanStep(s, p)
       case PrepareOther(_) => s.procs[p].pc == Idle
       case WakeOther(_, j) => s.procs[p].pc == Idle && j < |s.procs|
       case Kill(j) => s.procs[p].pc == Idle && j < |s.procs|
       case Yield => !HoldsWaitLock(s.procs[p].pc)
       case Schedule => true
  }

  /** The scan in kwait() is at a child that is a zombie and has let go of its own lock. */
  ghost predicate CanReap(s: State, p: nat)
    requires p < |s.procs|
  {
    var pc := s.procs[p].pc;
    pc.WaitScan? && pc.i < |s.procs| && s.procs[pc.i].parent == Some(p) && s.procs[pc.i].pc == Dead
  }

  ghost predicate CanStep(s: State, p: nat)
    requires p < |s.procs|
  {
    match s.procs[p].pc
    case Free => false
    case Newborn(_) => false
    case Idle => false
    case Dead => false
    case ForkLink(np) => np < |s.procs| && s.waitLock == None
    case ForkRun(np) => np < |s.procs|
    case ExitLock(_) => s.waitLock == None
    case WaitLock => s.waitLock == None
    case WaitScan(i, _) =>     // waits for a child's own lock
      i < |s.procs| && s.procs[i].parent == Some(p) ==> s.procs[i].pc != ExitUnlock && s.procs[i].pc != ExitSwitch
    case _ => true
  }

  /** sleep(): only if the wakeup has not come already. */
  function Slept(pr: Proc, pc: Pc): Proc {
    if pr.chan != NoChan then pr.(state := Sleeping, pc := pc) else pr.(pc := pc)
  }

  /** What wakeup(c) does to a process. */
  function Woken(pr: Proc, c: Chan): Proc {
    if pr.chan == c then pr.(chan := NoChan, state := if pr.state == Sleeping then Runnable else pr.state) else pr
  }

  function Killed(pr: Proc): Proc {
    pr.(killed := true, state := if pr.state == Sleeping then Runnable else pr.state)
  }

  /** What a step does to a process other than the one that takes it. */
  datatype Change = Same | Wake(c: Chan) | KillIt | Born(pid: nat) | FreeIt | ReapIt | Link | Start | Adopt

  function Changed(pr: Proc, p: nat, ch: Change): Proc {
    match ch
    case Same => pr
    case Wake(c) => Woken(pr, c)
    case KillIt => Killed(pr)
    case Born(pid) => Proc(Used, pr.parent, pid, NoChan, false, 0, Newborn(p))
    case FreeIt => Proc(Unused, pr.parent, 0, NoChan, false, 0, Free)   // freeproc()
    case ReapIt => Proc(Unused, None, 0, NoChan, false, 0, Free)
    case Link => pr.(parent := Some(p))
    case Start => pr.(state := Runnable, pc := Idle)
    case Adopt => pr.(parent := Some(INIT))
  }

  ghost function ChangeOf(s: State, p: nat, a: Action, q: nat): Change
    requires Enabled(s, p, a) && q < |s.procs|
  {
    match a
    case CallFork(np) => if q == np then Born(s.nextpid) else Same
    case ForkFail => if q == s.procs[p].pc.np then FreeIt else Same
    case WakeOther(c, j) => if q == j then Wake(OtherChan(c)) else Same
    case Kill(j) => if q == j then KillIt else Same
    case Step => ChangeByStep(s, p, q)
    case _ => Same
  }

  ghost function ChangeByStep(s: State, p: nat, q: nat): Change
    requires p < |s.procs| && q < |s.procs|
  {
    match s.procs[p].pc
    case ForkLink(np) => if q == np then Link else Same
    case ForkRun(np) => if q == np then Start else Same
    case ExitScan(i, _) => if q == i && s.procs[q].parent == Some(p) then Adopt else Same
    case ExitWakeInit(_, j, _) => if q == j then Wake(ProcChan(INIT)) else Same
    case ExitWakeParent(j, _) => if q == j && s.procs[p].parent.Some? then Wake(ProcChan(s.procs[p].parent.value))
      else Same
    case WaitScan(i, _) => if q == i && s.procs[q].parent == Some(p) && s.procs[q].state == Zombie then ReapIt else Same
    case _ => Same
  }

  /** What a step does to the process that takes it. */
  ghost function Own(s: State, p: nat, a: Action): Proc
    requires Enabled(s, p, a)
  {
    var pr := s.procs[p];
    match a
    case CallFork(np) => pr.(pc := ForkLink(np))
    case ForkFail => pr.(pc := Idle)
    case CallExit(status) => pr.(pc := ExitLock(status))
    case CallWait => pr.(pc := WaitLock)
    case CopyFail => pr.(pc := WaitReturn)
    case Step => OwnStep(s, p)
    case PrepareOther(c) => pr.(chan := OtherChan(c), pc := OtherSleep)
    case WakeOther(c, j) => if j == p then Woken(pr, OtherChan(c)) else pr
    case Kill(j) => if j == p then Killed(pr) else pr
    case Yield => pr.(state := Runnable)
    case Schedule => pr.(state := Running)
  }

  ghost function OwnStep(s: State, p: nat): Proc
    requires p < |s.procs| && CanStep(s, p)
  {
    var pr, n := s.procs[p], |s.procs|;
    match pr.pc
    case ForkLink(np) => pr.(pc := ForkRun(np))
    case ForkRun(np) => pr.(pc := Idle)
    case ExitLock(status) => pr.(pc := ExitScan(0, status))
    case ExitScan(i, status) =>
      if i >= n then pr.(pc := ExitWakeParent(0, status))
      else if s.procs[i].parent == Some(p) then pr.(pc := ExitWakeInit(i, 0, status))
      else pr.(pc := ExitScan(i + 1, status))
    case ExitWakeInit(i, j, status) =>
      if j >= n then pr.(pc := ExitScan(i + 1, status))
      else (if j == p then Woken(pr, ProcChan(INIT)) else pr).(pc := ExitWakeInit(i, j + 1, status))
    case ExitWakeParent(j, status) =>
      if j >= n || pr.parent == None then pr.(pc := ExitZombie(status))
      else (if j == p then Woken(pr, ProcChan(pr.parent.value)) else pr).(pc := ExitWakeParent(j + 1, status))
    case ExitZombie(status) => pr.(xstate := status, state := Zombie, pc := ExitUnlock)
    case ExitUnlock => pr.(pc := ExitSwitch)
    case ExitSwitch => pr.(pc := Dead)
    case WaitLock => pr.(pc := WaitScan(0, false))
    case WaitScan(i, kids) =>
      if i >= n then pr.(pc := if !kids || pr.killed then WaitReturn else WaitPrepare)
      else if s.procs[i].parent == Some(p) then
        pr.(pc := if s.procs[i].state == Zombie then WaitReturn else WaitScan(i + 1, true))
      else pr.(pc := WaitScan(i + 1, kids))
    case WaitPrepare => pr.(chan := ProcChan(p), pc := WaitLeave)
    case WaitLeave => pr.(pc := WaitSleep)
    case WaitSleep => Slept(pr, WaitLock)
    case WaitReturn => pr.(pc := Idle)
    case OtherSleep => Slept(pr, Idle)
    case _ => pr
  }

  ghost function WaitLockAfter(s: State, p: nat, a: Action): Option<nat>
    requires p < |s.procs|
  {
    var pc := s.procs[p].pc;
    if !a.Step? then s.waitLock
    else if pc.ExitLock? || pc == WaitLock then Some(p)
    else if pc == ExitUnlock || pc == WaitLeave || pc == WaitReturn then None
    else s.waitLock
  }

  /** The child that a step reaps. */
  ghost predicate Reaps(s: State, p: nat, a: Action, c: nat)
    requires p < |s.procs|
  {
    && a.Step? && s.procs[p].pc.WaitScan? && s.procs[p].pc.i == c && c != p
    && c < |s.procs| && s.procs[c].parent == Some(p) && s.procs[c].state == Zombie
  }

  ghost function ReapedAfter(s: State, p: nat, a: Action): seq<Reap>
    requires p < |s.procs|
  {
    if s.procs[p].pc.WaitScan? && Reaps(s, p, a, s.procs[p].pc.i) then
      var c := s.procs[s.procs[p].pc.i]; s.reaped + [Reap(c.pid, c.xstate)]
    else s.reaped
  }

  ghost function ExitsAfter(s: State, p: nat, a: Action): map<nat, int>
    requires p < |s.procs|
  {
    if a.Step? && s.procs[p].pc.ExitZombie? then s.exits[s.procs[p].pid := s.procs[p].pc.status] else s.exits
  }

  ghost function Do(s: State, p: nat, a: Action): State
    requires Enabled(s, p, a)
  {
    State(seq(|s.procs|, q requires 0 <= q < |s.procs| =>
                if q == p then Own(s, p, a) else Changed(s.procs[q], p, ChangeOf(s, p, a, q))),
          WaitLockAfter(s, p, a), if a.CallFork? then s.nextpid + 1 else s.nextpid,
          ReapedAfter(s, p, a), ExitsAfter(s, p, a))
  }

  // ---------------------------------------------------------------- the invariant

  /** wait_lock is held by the one process that is where it holds it. */
  ghost predicate LockOk(s: State, p: nat) {
    p < |s.procs| ==> (HoldsWaitLock(s.procs[p].pc) <==> s.waitLock == Some(p))
  }

  /** What a process is doing fits its state. */
  ghost predicate StateOk(s: State, p: nat) {
    p < |s.procs| ==>
      var pr := s.procs[p];
      && (pr.state == Unused <==> pr.pc == Free) && (pr.state == Used <==> pr.pc.Newborn?)
      && (pr.state == Zombie <==> Gone(pr.pc))
      && (pr.state == Sleeping ==> pr.chan != NoChan && (pr.pc == Idle || pr.pc == WaitLock))
      && (pr.pc == Free || pr.pc.Newborn? ==> pr.chan == NoChan)
      && (pr.pc == Free ==> pr.parent == None)
      && (p == INIT ==> Alive(pr) && pr.parent == None && !Exiting(pr.pc))
      && (p != INIT && Alive(pr) ==> pr.parent.Some?)
      && (Gone(pr.pc) ==> pr.parent.Some?)
  }

  predicate Exiting(pc: Pc) {
    pc.ExitLock? || pc.ExitScan? || pc.ExitWakeInit? || pc.ExitWakeParent? || pc.ExitZombie? || Gone(pc)
  }

  /** A process being made belongs to the fork that is making it. */
  ghost predicate ForkOk(s: State, p: nat) {
    p < |s.procs| ==>
      && (s.procs[p].pc.ForkLink? ==>
            var np := s.procs[p].pc.np; np < |s.procs| && s.procs[np].pc == Newborn(p) && s.procs[np].parent == None)
      && (s.procs[p].pc.ForkRun? ==>
            var np := s.procs[p].pc.np; np < |s.procs| && s.procs[np].pc == Newborn(p) && s.procs[np].parent == Some(p))
  }

  /** A parent is alive, and if it is exiting it has yet to come to this child. */
  ghost predicate ParentOk(s: State, c: nat) {
    c < |s.procs| && s.procs[c].parent.Some? ==>
      var q := s.procs[c].parent.value;
      q < |s.procs| && q != c && Alive(s.procs[q]) && YetToReparent(s.procs[q].pc, c)
  }

  predicate YetToReparent(pc: Pc, c: nat) {
    match pc
    case ExitScan(i, _) => i <= c
    case ExitWakeInit(i, _, _) => i < c
    case ExitWakeParent(_, _) => false
    case ExitZombie(_) => false
    case _ => true
  }

  ghost predicate IsChild(s: State, c: nat, q: nat) {
    c < |s.procs| && s.procs[c].parent == Some(q)
  }

  ghost predicate IsZombieOf(s: State, c: nat, q: nat) {
    IsChild(s, c, q) && s.procs[c].state == Zombie
  }

  ghost predicate Registered(s: State, q: nat) {
    q < |s.procs| && s.procs[q].chan == ProcChan(q)
  }

  /**
   A parent waiting to be told of an exit has no zombie, unless init is about to be told of one it has just been given.
   */
  ghost predicate NoMiss(s: State, c: nat, q: nat) {
    IsZombieOf(s, c, q) && Registered(s, q) ==>
      q == INIT && s.waitLock.Some? && s.waitLock.value < |s.procs| && AboutToTellInit(s.procs[s.waitLock.value].pc, c)
  }

  predicate AboutToTellInit(pc: Pc, c: nat) {
    pc.ExitWakeInit? && pc.i == c && pc.j <= INIT
  }

  /** Having woken its parent, an exiting process can count on it not to be waiting. */
  ghost predicate WokeOk(s: State, p: nat) {
    p < |s.procs| && s.procs[p].parent.Some? ==>
      var q := s.procs[p].parent.value;
      && (s.procs[p].pc.ExitWakeParent? && q < s.procs[p].pc.j ==> !Registered(s, q))
      && (s.procs[p].pc.ExitZombie? ==> !Registered(s, q))
  }

  /** What the scan in kwait() has found. */
  ghost predicate ScanOk(s: State, p: nat, c: nat) {
    p < |s.procs| && IsChild(s, c, p) ==>
      && (s.procs[p].pc.WaitScan? && c < s.procs[p].pc.i ==> s.procs[c].state != Zombie && s.procs[p].pc.kids)
      && (s.procs[p].pc.WaitPrepare? ==> s.procs[c].state != Zombie)
  }

  /** What the scan has been told of, it has found; and who waits for a child has one. */
  ghost predicate WaitOk(s: State, p: nat) {
    p < |s.procs| ==>
      && (s.procs[p].pc.WaitScan? && s.procs[p].pc.kids ==> HasChild(s, p, s.procs[p].pc.i))
      && (Waits(s.procs[p].pc) || (Registered(s, p) && !Exiting(s.procs[p].pc)) ==> HasChild(s, p, |s.procs|))
  }

  /** One of the first n slots is a child of p. */
  ghost predicate HasChild(s: State, p: nat, n: nat) {
    exists c: nat :: c < n && IsChild(s, c, p)
  }

  predicate Waits(pc: Pc) {
    pc == WaitPrepare || pc == WaitLeave || pc == WaitSleep
  }

  ghost predicate PidOk(s: State, p: nat) {
    p < |s.procs| && s.procs[p].pc != Free ==>
      && s.procs[p].pid < s.nextpid && !WasReaped(s.reaped, s.procs[p].pid)
      && (s.procs[p].pid in s.exits <==> s.procs[p].state == Zombie)
      && (s.procs[p].state == Zombie ==> s.exits[s.procs[p].pid] == s.procs[p].xstate)
  }

  ghost predicate PidsDiffer(s: State, p: nat, q: nat) {
    p < |s.procs| && q < |s.procs| && s.procs[p].pc != Free && s.procs[q].pc != Free && p != q ==>
      s.procs[p].pid != s.procs[q].pid
  }

  ghost predicate WasReaped(reaped: seq<Reap>, pid: nat) {
    exists i :: 0 <= i < |reaped| && reaped[i].pid == pid
  }

  /** A process that was waited for had exited, with the status that was reported, and was not waited for again. */
  ghost predicate ReapOk(s: State, i: nat) {
    i < |s.reaped| ==>
      && s.reaped[i].pid in s.exits && s.exits[s.reaped[i].pid] == s.reaped[i].status && s.reaped[i].pid < s.nextpid
      && forall j :: 0 <= j < i ==> s.reaped[j].pid != s.reaped[i].pid
  }

  ghost predicate LockHolder(s: State) {
    (s.waitLock.Some? ==> s.waitLock.value < |s.procs|) && INIT < |s.procs|
  }

  ghost predicate ExitsOk(s: State) {
    forall pid {:trigger pid in s.exits} :: pid in s.exits ==> pid < s.nextpid
  }

  ghost predicate Inv(s: State) {
    && LockHolder(s) && ExitsOk(s)
    && (forall p: nat {:trigger LockOk(s, p)} :: LockOk(s, p))
    && (forall p: nat {:trigger StateOk(s, p)} :: StateOk(s, p))
    && (forall p: nat {:trigger ForkOk(s, p)} :: ForkOk(s, p))
    && (forall c: nat {:trigger ParentOk(s, c)} :: ParentOk(s, c))
    && (forall c: nat, q: nat {:trigger NoMiss(s, c, q)} :: NoMiss(s, c, q))
    && (forall p: nat {:trigger WokeOk(s, p)} :: WokeOk(s, p))
    && (forall p: nat, c: nat {:trigger ScanOk(s, p, c)} :: ScanOk(s, p, c))
    && (forall p: nat {:trigger WaitOk(s, p)} :: WaitOk(s, p))
    && (forall p: nat {:trigger PidOk(s, p)} :: PidOk(s, p))
    && (forall p: nat, q: nat {:trigger PidsDiffer(s, p, q)} :: PidsDiffer(s, p, q))
    && (forall i: nat {:trigger ReapOk(s, i)} :: ReapOk(s, i))
  }

  // ---------------------------------------------------------------- every step keeps it

  /** What must be so of a process for a step of p to change it in a way. */
  ghost predicate Fits(s: State, p: nat, q: nat, ch: Change)
    requires p < |s.procs| && q < |s.procs|
  {
    var pr := s.procs[q];
    match ch
    case Born(pid) => pr.pc == Free && pr.parent == None && pid == s.nextpid && s.procs[p].pc == Idle
    case FreeIt => pr.pc == Newborn(p) && pr.parent == None && s.procs[p].pc == ForkLink(q)
    case ReapIt => pr.pc == Dead && pr.parent == Some(p) && s.procs[p].pc.WaitScan? && s.procs[p].pc.i == q
    case Link => pr.pc == Newborn(p) && pr.parent == None && s.waitLock == None && s.procs[p].pc == ForkLink(q)
    case Start => pr.pc == Newborn(p) && pr.parent == Some(p) && s.procs[p].pc == ForkRun(q)
    case Adopt => pr.parent == Some(p) && s.procs[p].pc.ExitScan? && s.procs[p].pc.i == q
    case _ => true
  }

  lemma {:induction false} ChangeFits(s: State, p: nat, a: Action, q: nat)
    requires Inv(s) && Enabled(s, p, a) && q < |s.procs| && q != p
    ensures Fits(s, p, q, ChangeOf(s, p, a, q))
  {
    assert ForkOk(s, p) && StateOk(s, q);
  }

  /** s' is what a step of p makes of s, seen at q. */
  ghost predicate After(s: State, p: nat, a: Action, s': State, q: nat)
    requires Enabled(s, p, a)
  {
    && |s'.procs| == |s.procs| && s'.waitLock == WaitLockAfter(s, p, a)
    && (q < |s.procs| ==>
          s'.procs[q] == if q == p then Own(s, p, a) else Changed(s.procs[q], p, ChangeOf(s, p, a, q)))
  }

  // Each part of the invariant, from as much of it as it needs.

  lemma {:induction false} OtherLockKept(s: State, p: nat, a: Action, q: nat, s': State)
    requires Enabled(s, p, a) && q < |s.procs| && q != p && After(s, p, a, s', q)
    requires LockOk(s, p) && LockOk(s, q) && Fits(s, p, q, ChangeOf(s, p, a, q))
    ensures LockOk(s', q)
  {
  }

  lemma {:induction false} OwnLockKept(s: State, p: nat, a: Action)
    requires LockOk(s, p) && Enabled(s, p, a)
    ensures HoldsWaitLock(Own(s, p, a).pc) <==> WaitLockAfter(s, p, a) == Some(p)
  {
  }

  lemma {:induction false} OtherStateKept(s: State, p: nat, q: nat, ch: Change, s': State)
    requires StateOk(s, q) && p < |s.procs| && q < |s.procs| && Fits(s, p, q, ch) && p != q
    requires q < |s'.procs| && s'.procs[q] == Changed(s.procs[q], p, ch)
    ensures StateOk(s', q)
  {
  }

  lemma {:induction false} OwnStateKept(s: State, p: nat, a: Action, s': State)
    requires StateOk(s, p) && Enabled(s, p, a) && !a.Step?
    requires |s'.procs| == |s.procs| && s'.procs[p] == Own(s, p, a)
    ensures StateOk(s', p)
  {
  }

  lemma {:induction false} OwnStepStateKept(s: State, p: nat, s': State)
    requires StateOk(s, p) && Enabled(s, p, Step)
    requires |s'.procs| == |s.procs| && s'.procs[p] == OwnStep(s, p)
    ensures StateOk(s', p)
  {
  }

  /** The fork that is making np, whichever process it is. */
  ghost predicate MakesFor(s: State, q: nat, np: nat) {
    q < |s.procs| && (s.procs[q].pc == ForkLink(np) || s.procs[q].pc == ForkRun(np))
  }

  lemma {:induction false} OtherForkKept(s: State, p: nat, a: Action, q: nat, np: nat, s': State)
    requires Enabled(s, p, a) && q < |s.procs| && q != p && MakesFor(s, q, np) && ForkOk(s, q) && StateOk(s, p) &&
      StateOk(s, q)
    requires np < |s.procs| && After(s, p, a, s', q) && After(s, p, a, s', np)
    requires np != p ==> Fits(s, p, np, ChangeOf(s, p, a, np))
    requires Fits(s, p, q, ChangeOf(s, p, a, q))
    ensures ForkOk(s', q)
  {
  }

  lemma {:induction false} IdleForkKept(s: State, p: nat, a: Action, q: nat, s': State)
    requires Enabled(s, p, a) && q < |s.procs| && q != p && !s.procs[q].pc.ForkLink? && !s.procs[q].pc.ForkRun?
    requires After(s, p, a, s', q)
    ensures ForkOk(s', q)
  {
  }

  lemma {:induction false} OwnForkKept(s: State, p: nat, a: Action, s': State)
    requires Enabled(s, p, a) && ForkOk(s, p) && StateOk(s, p) && After(s, p, a, s', p)
    requires a.CallFork? ==> StateOk(s, a.np) && After(s, p, a, s', a.np)
    requires s.procs[p].pc.ForkLink? ==> After(s, p, a, s', s.procs[p].pc.np)
    requires s.procs[p].pc.ForkRun? ==> After(s, p, a, s', s.procs[p].pc.np)
    ensures ForkOk(s', p)
  {
  }

  /** Of a process other than p, only its parent may have changed, from p to init. */
  lemma {:induction false} ParentOfOther(s: State, p: nat, a: Action, c: nat, s': State)
    requires Enabled(s, p, a) && c < |s.procs| && c != p && After(s, p, a, s', c) && Fits(s, p, c, ChangeOf(s, p, a, c))
    requires StateOk(s, p)
    ensures s'.procs[c].parent.Some? ==>
      || s'.procs[c].parent == s.procs[c].parent
      || (s'.procs[c].parent == Some(p) && s.procs[p].pc == ForkLink(c) && a.Step?)
      || (s'.procs[c].parent == Some(INIT) && s.procs[c].parent == Some(p) && s.procs[p].pc.ExitScan? &&
          s.procs[p].pc.i == c && a.Step?)
    ensures s.procs[c].parent == Some(p) && s.procs[p].pc.ExitScan? && s.procs[p].pc.i == c && a.Step? ==>
      s'.procs[c].parent == Some(INIT)
  {
  }

  /** A process that is alive, and not p, stays so and where it is. */
  lemma {:induction false} AliveKept(s: State, p: nat, a: Action, q: nat, s': State)
    requires Enabled(s, p, a) && q < |s.procs| && q != p && After(s, p, a, s', q) && Fits(s, p, q, ChangeOf(s, p, a, q))
    requires Alive(s.procs[q]) && StateOk(s, q)
    ensures Alive(s'.procs[q]) && s'.procs[q].pc == s.procs[q].pc
  {
  }

  /** p itself, as a parent of c. */
  lemma {:induction false} OwnParentKept(s: State, p: nat, a: Action, c: nat, s': State)
    requires Enabled(s, p, a) && c < |s.procs| && c != p && After(s, p, a, s', p) && After(s, p, a, s', c)
    requires Alive(s.procs[p]) && YetToReparent(s.procs[p].pc, c) && StateOk(s, p)
    requires s'.procs[c].parent == Some(p) && s.procs[c].parent == Some(p)
    ensures Alive(s'.procs[p]) && YetToReparent(s'.procs[p].pc, c)
  {
  }

  lemma {:induction false} ParentKept(s: State, p: nat, a: Action, c: nat)
    requires Inv(s) && Enabled(s, p, a)
    ensures ParentOk(Do(s, p, a), c)
  {
    var s' := Do(s, p, a);
    if c < |s.procs| && s'.procs[c].parent.Some? {
      var r := s'.procs[c].parent.value;
      assert StateOk(s, p) && StateOk(s, INIT) && ParentOk(s, c);
      if c != p {
        ChangeFits(s, p, a, c);
        ParentOfOther(s, p, a, c, s');
      }
      assert s'.procs[p].parent == s.procs[p].parent;
      if r == p {
        if s.procs[c].parent == Some(p) {
          OwnParentKept(s, p, a, c, s');
        }
      } else {
        assert r < |s.procs| && StateOk(s, r);
        ChangeFits(s, p, a, r);
        AliveKept(s, p, a, r, s');
      }
    }
  }

  // A process that is registered, or a zombie.

  /** A process comes to be waiting for its children in kwait(), with wait_lock held, and in no other way. */
  lemma {:induction false} RegisteredBefore(s: State, p: nat, a: Action, q: nat, s': State)
    requires Enabled(s, p, a) && q < |s.procs| && After(s, p, a, s', q) && Registered(s', q)
    ensures Registered(s, q) || (q == p && a.Step? && s.procs[p].pc == WaitPrepare)
  {
  }

  /** A process comes to be a zombie at the end of its own kexit(), with wait_lock held. */
  lemma {:induction false} ZombieBefore(s: State, p: nat, a: Action, c: nat, s': State)
    requires Enabled(s, p, a) && c < |s.procs| && After(s, p, a, s', c) && s'.procs[c].state == Zombie
    ensures s.procs[c].state == Zombie || (c == p && a.Step? && s.procs[p].pc.ExitZombie?)
  {
  }

  lemma {:induction false} OwnParentSame(s: State, p: nat, a: Action)
    requires Enabled(s, p, a)
    ensures Own(s, p, a).parent == s.procs[p].parent && Own(s, p, a).pid == s.procs[p].pid
  {
  }

  /** While another process holds wait_lock, p neither takes it nor gives it up, and the holder stays where it is. */
  lemma {:induction false} HolderKept(s: State, p: nat, a: Action, r: nat, s': State)
    requires Enabled(s, p, a) && r < |s.procs| && r != p && s.waitLock == Some(r) && HoldsWaitLock(s.procs[r].pc)
    requires LockOk(s, p) && After(s, p, a, s', r) && Fits(s, p, r, ChangeOf(s, p, a, r))
    ensures s'.waitLock == s.waitLock && s'.procs[r].pc == s.procs[r].pc
  {
  }

  /** Giving a zombie to init, p is about to tell it so. */
  lemma {:induction false} AdoptTells(s: State, p: nat, c: nat, s': State)
    requires Enabled(s, p, Step) && c < |s.procs| && s.procs[p].pc.ExitScan? && s.procs[p].pc.i == c
    requires s.procs[c].parent == Some(p) && LockOk(s, p) && After(s, p, Step, s', p)
    ensures s'.waitLock == Some(p) && AboutToTellInit(s'.procs[p].pc, c)
  {
  }

  /** Telling init clears its channel. */
  lemma {:induction false} TellsInit(s: State, p: nat, a: Action, c: nat, s': State)
    requires Enabled(s, p, a) && AboutToTellInit(s.procs[p].pc, c) && INIT < |s.procs| && p != INIT
    requires After(s, p, a, s', p) && After(s, p, a, s', INIT) && LockOk(s, p)
    ensures !Registered(s', INIT) || (AboutToTellInit(s'.procs[p].pc, c) && s'.waitLock == s.waitLock)
  {
  }

  lemma {:induction false} NoMissKept(s: State, p: nat, a: Action, c: nat, q: nat)
    requires Inv(s) && Enabled(s, p, a)
    ensures NoMiss(Do(s, p, a), c, q)
  {
    var s' := Do(s, p, a);
    if IsZombieOf(s', c, q) && Registered(s', q) {
      RegisteredBefore(s, p, a, q, s');
      ZombieBefore(s, p, a, c, s');
      OwnParentSame(s, p, a);
      assert StateOk(s, p) && StateOk(s, INIT) && LockOk(s, p);
      if c != p {
        ChangeFits(s, p, a, c);
        ParentOfOther(s, p, a, c, s');
        if a.Step? && s.procs[p].pc == ForkLink(c) {
          assert ForkOk(s, p) && StateOk(s, c);
        }
      }
      if s'.procs[c].parent != s.procs[c].parent {
        AdoptTells(s, p, c, s');
      } else {
        assert IsChild(s, c, q);
        OldMissKept(s, p, a, c, q);
      }
    }
  }

  lemma {:induction false} OldMissKept(s: State, p: nat, a: Action, c: nat, q: nat)
    requires Inv(s) && Enabled(s, p, a) && IsChild(s, c, q) && IsZombieOf(Do(s, p, a), c, q) &&
      Registered(Do(s, p, a), q)
    ensures NoMiss(Do(s, p, a), c, q)
  {
    var s' := Do(s, p, a);
    RegisteredBefore(s, p, a, q, s');
    ZombieBefore(s, p, a, c, s');
    assert WokeOk(s, c) && ScanOk(s, q, c) && NoMiss(s, c, q) && ParentOk(s, c);
    if Registered(s, q) && IsZombieOf(s, c, q) {
      var r := s.waitLock.value;
      assert LockOk(s, r) && LockOk(s, p) && StateOk(s, INIT);
      if r == p {
        TellsInit(s, p, a, c, s');
      } else {
        ChangeFits(s, p, a, r);
        HolderKept(s, p, a, r, s');
      }
    }
  }

  lemma {:induction false} OwnWokeKept(s: State, p: nat, a: Action, s': State)
    requires Enabled(s, p, a) && WokeOk(s, p) && ParentOk(s, p) && After(s, p, a, s', p)
    requires s.procs[p].parent.Some? ==> After(s, p, a, s', s.procs[p].parent.value)
    ensures WokeOk(s', p)
  {
    OwnParentSame(s, p, a);
  }

  lemma {:induction false} WokeKept(s: State, p: nat, a: Action, x: nat)
    requires Inv(s) && Enabled(s, p, a)
    ensures WokeOk(Do(s, p, a), x)
  {
    var s' := Do(s, p, a);
    assert WokeOk(s, x) && ParentOk(s, x);
    if x == p {
      OwnWokeKept(s, p, a, s');
    } else if x < |s.procs| && (s'.procs[x].pc.ExitWakeParent? || s'.procs[x].pc.ExitZombie?) {
      ChangeFits(s, p, a, x);
      assert LockOk(s, x) && LockOk(s, p) && s'.procs[x].pc == s.procs[x].pc;
      ParentOfOther(s, p, a, x, s') by { assert StateOk(s, p); }
      assert ForkOk(s, p) && s.waitLock == Some(x);
      if s.procs[x].parent.Some? && Registered(s', s.procs[x].parent.value) {
        RegisteredBefore(s, p, a, s.procs[x].parent.value, s');
      }
    }
  }

  lemma {:induction false} OwnScanKept(s: State, p: nat, a: Action, c: nat, s': State)
    requires Enabled(s, p, a) && c < |s.procs| && c != p && After(s, p, a, s', p) && After(s, p, a, s', c)
    requires ScanOk(s, p, c) && StateOk(s, p)
    ensures ScanOk(s', p, c)
  {
  }

  lemma {:induction false} ScanKept(s: State, p: nat, a: Action, x: nat, c: nat)
    requires Inv(s) && Enabled(s, p, a)
    ensures ScanOk(Do(s, p, a), x, c)
  {
    var s' := Do(s, p, a);
    assert ScanOk(s, x, c) && ParentOk(s, c) && StateOk(s, p) && LockOk(s, x) && LockOk(s, p);
    OwnParentSame(s, p, a);
    if x < |s.procs| && IsChild(s', c, x) && (s'.procs[x].pc.WaitScan? || s'.procs[x].pc.WaitPrepare?) {
      if x == p {
        if c != p {
          OwnScanKept(s, p, a, c, s');
        }
      } else {
        ChangeFits(s, p, a, x);
        assert s'.procs[x].pc == s.procs[x].pc && s.waitLock == Some(x);
        if c != p {
          ChangeFits(s, p, a, c);
          ParentOfOther(s, p, a, c, s');
        }
        if s'.procs[c].state == Zombie {
          ZombieBefore(s, p, a, c, s');
        }
      }
    }
  }

  // Children.

  /** A child is lost only in its parent's own kexit() or, once a zombie, in its parent's own scan. */
  lemma {:induction false} ChildKept(s: State, p: nat, a: Action, c: nat, q: nat)
    requires Inv(s) && Enabled(s, p, a) && IsChild(s, c, q)
    requires q == p && a.Step? ==> !s.procs[p].pc.ExitScan? && !(s.procs[p].pc.WaitScan? && s.procs[c].state == Zombie)
    ensures IsChild(Do(s, p, a), c, q)
  {
    assert StateOk(s, c) && ParentOk(s, c);
    OwnParentSame(s, p, a);
    if c != p { ChangeFits(s, p, a, c); }
  }

  /** Where a process may have come from to be at a scan with a child found, or waiting. */
  lemma {:induction false} OwnWaitBefore(s: State, p: nat, a: Action)
    requires Enabled(s, p, a)
    ensures var pc, pc' := s.procs[p].pc, Own(s, p, a).pc;
      && (pc'.WaitScan? && pc'.kids ==>
            if a.Step? then pc.WaitScan? && pc'.i == pc.i + 1 && (pc.kids || IsChild(s, pc.i, p)) else pc' == pc)
      && (Waits(pc') ==> Waits(pc) || (pc.WaitScan? && pc.kids))
      && (Exiting(pc) ==> Exiting(pc'))
  {
  }

  /** What another process does to one that waits. */
  lemma {:induction false} OtherWaitBefore(s: State, p: nat, a: Action, q: nat, s': State)
    requires Enabled(s, p, a) && q < |s.procs| && q != p && After(s, p, a, s', q)
    requires StateOk(s, q) && Fits(s, p, q, ChangeOf(s, p, a, q))
    ensures s'.procs[q].pc.WaitScan? || Waits(s'.procs[q].pc) || Registered(s', q) ==> s'.procs[q].pc == s.procs[q].pc
    ensures Registered(s', q) ==> Registered(s, q)
  {
  }

  /** A registered process that is scanning has no zombie to find. */
  lemma {:induction false} RegisteredScan(s: State, p: nat, c: nat)
    requires Inv(s) && p < |s.procs| && s.procs[p].pc.WaitScan? && Registered(s, p) && IsChild(s, c, p)
    ensures s.procs[c].state != Zombie
  {
    assert NoMiss(s, c, p) && LockOk(s, p);
  }

  lemma {:induction false} OwnWaitKept(s: State, p: nat, a: Action)
    requires Inv(s) && Enabled(s, p, a)
    ensures WaitOk(Do(s, p, a), p)
  {
    var s' := Do(s, p, a);
    var pc, pc' := s.procs[p].pc, s'.procs[p].pc;
    OwnWaitBefore(s, p, a);
    assert WaitOk(s, p) && StateOk(s, p);
    if pc'.WaitScan? && pc'.kids {
      assert exists c: nat :: c < pc'.i && IsChild(s, c, p);
      var c: nat :| c < pc'.i && IsChild(s, c, p);
      assert ScanOk(s, p, c);
      ChildKept(s, p, a, c, p);
    }
    if Waits(pc') || (Registered(s', p) && !Exiting(pc')) {
      if Registered(s', p) { RegisteredBefore(s, p, a, p, s'); }
      assert HasChild(s, p, |s.procs|) by {
        if pc.WaitScan? && pc.kids {
          var c: nat :| c < pc.i && IsChild(s, c, p);
        }
      }
      var c: nat :| c < |s.procs| && IsChild(s, c, p);
      assert ScanOk(s, p, c);
      if pc.WaitScan? && Registered(s, p) { RegisteredScan(s, p, c); }
      ChildKept(s, p, a, c, p);
    }
  }

  lemma {:induction false} WaitKept(s: State, p: nat, a: Action, q: nat)
    requires Inv(s) && Enabled(s, p, a)
    ensures WaitOk(Do(s, p, a), q)
  {
    var s' := Do(s, p, a);
    if q == p {
      OwnWaitKept(s, p, a);
    } else if q < |s.procs| {
      assert WaitOk(s, q) && StateOk(s, q);
      ChangeFits(s, p, a, q);
      OtherWaitBefore(s, p, a, q, s');
      if s'.procs[q].pc.WaitScan? && s'.procs[q].pc.kids {
        var c: nat :| c < s.procs[q].pc.i && IsChild(s, c, q);
        ChildKept(s, p, a, c, q);
      }
      if Waits(s'.procs[q].pc) || (Registered(s', q) && !Exiting(s'.procs[q].pc)) {
        var c: nat :| c < |s.procs| && IsChild(s, c, q);
        ChildKept(s, p, a, c, q);
      }
    }
  }

  // Process ids.

  /** A process keeps its id, unless it is being born or freed. */
  lemma {:induction false} PidOfOther(s: State, p: nat, a: Action, q: nat, s': State)
    requires Enabled(s, p, a) && q < |s.procs| && q != p && After(s, p, a, s', q) && s'.procs[q].pc != Free
    requires StateOk(s, q) && Fits(s, p, q, ChangeOf(s, p, a, q))
    ensures || (s'.procs[q].pid == s.procs[q].pid && s.procs[q].pc != Free && !Reaps(s, p, a, q) &&
      s'.procs[q].xstate == s.procs[q].xstate
                && (s'.procs[q].state == Zombie <==> s.procs[q].state == Zombie))
            || (s'.procs[q].pid == s.nextpid && a.CallFork? && s'.procs[q].state != Zombie)
  {
  }

  lemma {:induction false} OwnPidKept(s: State, p: nat, a: Action)
    requires Enabled(s, p, a) && StateOk(s, p)
    ensures Own(s, p, a).state == Zombie <==> s.procs[p].state == Zombie || (a.Step? && s.procs[p].pc.ExitZombie?)
    ensures Own(s, p, a).xstate == if a.Step? && s.procs[p].pc.ExitZombie? then s.procs[p].pc.status
      else s.procs[p].xstate
    ensures Own(s, p, a).pid == s.procs[p].pid && s.procs[p].pc != Free
  {
  }

  /** What becomes of the history: at most one process is added to each part of it. */
  lemma {:induction false} ReapedMore(s: State, p: nat, a: Action, pid: nat)
    requires Enabled(s, p, a) && WasReaped(ReapedAfter(s, p, a), pid)
    ensures WasReaped(s.reaped, pid) ||
      (s.procs[p].pc.WaitScan? && Reaps(s, p, a, s.procs[p].pc.i) && s.procs[s.procs[p].pc.i].pid == pid)
  {
    var after := ReapedAfter(s, p, a);
    var i :| 0 <= i < |after| && after[i].pid == pid;
    if i < |s.reaped| {
      assert after[i] == s.reaped[i];
    }
  }

  lemma {:induction false} PidKept(s: State, p: nat, a: Action, q: nat)
    requires Inv(s) && Enabled(s, p, a)
    ensures PidOk(Do(s, p, a), q)
  {
    var s' := Do(s, p, a);
    if q < |s.procs| && s'.procs[q].pc != Free {
      assert PidOk(s, p) && PidOk(s, q) && PidsDiffer(s, p, q) && StateOk(s, p);
      if q == p {
        OwnPidKept(s, p, a);
      } else {
        assert StateOk(s, q);
        ChangeFits(s, p, a, q);
        PidOfOther(s, p, a, q, s');
      }
      if WasReaped(s'.reaped, s'.procs[q].pid) {
        ReapedMore(s, p, a, s'.procs[q].pid);
        NotReapedYet(s, p, a, q);
      }
    }
  }

  /** The next id has not been used, and the process being reaped is not another one's namesake. */
  lemma {:induction false} NotReapedYet(s: State, p: nat, a: Action, q: nat)
    requires Inv(s) && Enabled(s, p, a) && q < |s.procs| && Do(s, p, a).procs[q].pc != Free
    ensures !WasReaped(s.reaped, Do(s, p, a).procs[q].pid)
    ensures s.procs[p].pc.WaitScan? && Reaps(s, p, a, s.procs[p].pc.i) ==>
      s.procs[s.procs[p].pc.i].pid != Do(s, p, a).procs[q].pid
  {
    var s' := Do(s, p, a);
    assert PidOk(s, q) && StateOk(s, p) && PidOk(s, p);
    if q == p {
      OwnPidKept(s, p, a);
    } else {
      assert StateOk(s, q);
      ChangeFits(s, p, a, q);
      PidOfOther(s, p, a, q, s');
    }
    if WasReaped(s.reaped, s.nextpid) {
      var i :| 0 <= i < |s.reaped| && s.reaped[i].pid == s.nextpid;
      assert ReapOk(s, i);
    }
    if s.procs[p].pc.WaitScan? && Reaps(s, p, a, s.procs[p].pc.i) {
      var c := s.procs[p].pc.i;
      assert PidsDiffer(s, c, q) && StateOk(s, c);
    }
  }

  lemma {:induction false} PidsKept(s: State, p: nat, a: Action, x: nat, y: nat)
    requires Inv(s) && Enabled(s, p, a)
    ensures PidsDiffer(Do(s, p, a), x, y)
  {
    var s' := Do(s, p, a);
    if x < |s.procs| && y < |s.procs| && s'.procs[x].pc != Free && s'.procs[y].pc != Free && x != y {
      assert PidOk(s, x) && PidOk(s, y) && PidsDiffer(s, x, y) && StateOk(s, p) && StateOk(s, x) && StateOk(s, y);
      if x != p { ChangeFits(s, p, a, x); PidOfOther(s, p, a, x, s'); } else { OwnPidKept(s, p, a); }
      if y != p { ChangeFits(s, p, a, y); PidOfOther(s, p, a, y, s'); } else { OwnPidKept(s, p, a); }
      if a.CallFork? {
        OneBorn(s, p, a, x);
        OneBorn(s, p, a, y);
      }
    }
  }

  lemma {:induction false} OneBorn(s: State, p: nat, a: Action, q: nat)
    requires Enabled(s, p, a) && a.CallFork? && q < |s.procs|
    ensures q != a.np ==> Do(s, p, a).procs[q].pid == s.procs[q].pid && Do(s, p, a).procs[q].pc != Free ==>
      s.procs[q].pc != Free
  {
  }

  lemma {:induction false} ReapKept(s: State, p: nat, a: Action, i: nat)
    requires Inv(s) && Enabled(s, p, a)
    ensures ReapOk(Do(s, p, a), i)
  {
    var s' := Do(s, p, a);
    assert PidOk(s, p) && StateOk(s, p);
    if i < |s.reaped| {
      assert ReapOk(s, i) && s'.reaped[i] == s.reaped[i];
      forall j | 0 <= j < i ensures s'.reaped[j].pid != s'.reaped[i].pid {
        assert s'.reaped[j] == s.reaped[j];
      }
      assert WasReaped(s.reaped, s.reaped[i].pid);
    } else if i < |s'.reaped| {
      var c := s.procs[p].pc.i;
      assert PidOk(s, c) && StateOk(s, c);
      forall j | 0 <= j < i ensures s'.reaped[j].pid != s'.reaped[i].pid {
        assert s'.reaped[j] == s.reaped[j];
      }
    }
  }

  lemma {:induction false} StepKeeps(s: State, p: nat, a: Action)
    requires Inv(s) && Enabled(s, p, a)
    ensures Inv(Do(s, p, a))
  {
    var s' := Do(s, p, a);
    assert LockOk(s, p) && StateOk(s, p) && PidOk(s, p);
    forall q: nat {:trigger LockOk(s', q)} ensures LockOk(s', q) {
      assert LockOk(s, q);
      if q == p { OwnLockKept(s, p, a); }
      else if q < |s.procs| { ChangeFits(s, p, a, q); OtherLockKept(s, p, a, q, s'); }
    }
    forall q: nat {:trigger StateOk(s', q)} ensures StateOk(s', q) {
      assert StateOk(s, q);
      if q == p { if a.Step? { OwnStepStateKept(s, p, s'); } else { OwnStateKept(s, p, a, s'); } }
      else if q < |s.procs| { ChangeFits(s, p, a, q); OtherStateKept(s, p, q, ChangeOf(s, p, a, q), s'); }
    }
    forall q: nat {:trigger ForkOk(s', q)} ensures ForkOk(s', q) { ForkKept(s, p, a, q); }
    forall c: nat {:trigger ParentOk(s', c)} ensures ParentOk(s', c) { ParentKept(s, p, a, c); }
    forall c: nat, q: nat {:trigger NoMiss(s', c, q)} ensures NoMiss(s', c, q) { NoMissKept(s, p, a, c, q); }
    forall q: nat {:trigger WokeOk(s', q)} ensures WokeOk(s', q) { WokeKept(s, p, a, q); }
    forall q: nat, c: nat {:trigger ScanOk(s', q, c)} ensures ScanOk(s', q, c) { ScanKept(s, p, a, q, c); }
    forall q: nat {:trigger WaitOk(s', q)} ensures WaitOk(s', q) { WaitKept(s, p, a, q); }
    forall q: nat {:trigger PidOk(s', q)} ensures PidOk(s', q) { PidKept(s, p, a, q); }
    forall x: nat, y: nat {:trigger PidsDiffer(s', x, y)} ensures PidsDiffer(s', x, y) { PidsKept(s, p, a, x, y); }
    forall i: nat {:trigger ReapOk(s', i)} ensures ReapOk(s', i) { ReapKept(s, p, a, i); }
  }

  lemma {:induction false} ForkKept(s: State, p: nat, a: Action, q: nat)
    requires Inv(s) && Enabled(s, p, a)
    ensures ForkOk(Do(s, p, a), q)
  {
    var s' := Do(s, p, a);
    assert ForkOk(s, p) && ForkOk(s, q) && StateOk(s, p) && StateOk(s, q);
    if q == p {
      if a.CallFork? { assert StateOk(s, a.np); }
      OwnForkKept(s, p, a, s');
    } else if q < |s.procs| {
      if s.procs[q].pc.ForkLink? || s.procs[q].pc.ForkRun? {
        var np := s.procs[q].pc.np;
        ChangeFits(s, p, a, q);
        if np != p { ChangeFits(s, p, a, np); }
        OtherForkKept(s, p, a, q, np, s');
      } else {
        IdleForkKept(s, p, a, q, s');
      }
    }
  }

  // ---------------------------------------------------------------- every run

  /** init alone, and every other slot free. */
  ghost predicate Init(s: State) {
    && INIT < |s.procs| && s.waitLock == None && s.reaped == [] && s.exits == map[]
    && s.procs[INIT].state == Runnable && s.procs[INIT].parent == None && s.procs[INIT].chan == NoChan
    && s.procs[INIT].pc == Idle && s.procs[INIT].pid < s.nextpid
    && forall p {:trigger s.procs[p]} :: 0 <= p < |s.procs| && p != INIT ==>
         s.procs[p].state == Unused && s.procs[p].pc == Free && s.procs[p].parent == None && s.procs[p].chan == NoChan
  }

  lemma {:induction false} InitInv(s: State)
    requires Init(s)
    ensures Inv(s)
  {
    forall p: nat {:trigger LockOk(s, p)} ensures LockOk(s, p) {}
    forall p: nat {:trigger StateOk(s, p)} ensures StateOk(s, p) {}
    forall p: nat {:trigger ForkOk(s, p)} ensures ForkOk(s, p) {}
    forall p: nat {:trigger ParentOk(s, p)} ensures ParentOk(s, p) {}
    forall c: nat, q: nat {:trigger NoMiss(s, c, q)} ensures NoMiss(s, c, q) {}
    forall p: nat {:trigger WokeOk(s, p)} ensures WokeOk(s, p) {}
    forall p: nat, c: nat {:trigger ScanOk(s, p, c)} ensures ScanOk(s, p, c) {}
    forall p: nat {:trigger WaitOk(s, p)} ensures WaitOk(s, p) {}
    forall p: nat {:trigger PidOk(s, p)} ensures PidOk(s, p) {}
    forall p: nat, q: nat {:trigger PidsDiffer(s, p, q)} ensures PidsDiffer(s, p, q) {}
    forall i: nat {:trigger ReapOk(s, i)} ensures ReapOk(s, i) {}
  }

  datatype Move = Move(p: nat, a: Action)

  ghost predicate Leads(s: State, moves: seq<Move>, s': State)
    decreases |moves|
  {
    if moves == [] then s' == s
    else Enabled(s, moves[0].p, moves[0].a) && Leads(Do(s, moves[0].p, moves[0].a), moves[1..], s')
  }

  lemma {:induction false} RunKeeps(s: State, moves: seq<Move>, s': State)
    requires Inv(s) && Leads(s, moves, s')
    ensures Inv(s')
    decreases |moves|
  {
    if moves != [] {
      StepKeeps(s, moves[0].p, moves[0].a);
      RunKeeps(Do(s, moves[0].p, moves[0].a), moves[1..], s');
    }
  }

  /**
   In no run does an exit go unnoticed: when no one holds wait_lock, a process with its own channel in its chan, asleep
   in kwait(), about to be, or woken by a kill and not yet running, has no zombie to reap.
   */
  lemma {:induction false} NoMissedExit(s: State, moves: seq<Move>, s': State, q: nat, c: nat)
    requires Init(s) && Leads(s, moves, s') && q < |s'.procs| && s'.waitLock == None
    requires s'.procs[q].chan == ProcChan(q) && IsChild(s', c, q)
    ensures s'.procs[c].state != Zombie
  {
    InitInv(s);
    RunKeeps(s, moves, s');
    assert NoMiss(s', c, q);
  }

  /** In no run is there an orphan: every process but init has a parent, and it is alive. */
  lemma {:induction false} ParentsAlive(s: State, moves: seq<Move>, s': State, c: nat)
    requires Init(s) && Leads(s, moves, s') && c < |s'.procs| && c != INIT
    requires s'.procs[c].state != Unused && s'.procs[c].state != Used
    ensures s'.procs[c].parent.Some? && s'.procs[c].parent.value < |s'.procs| &&
      Alive(s'.procs[s'.procs[c].parent.value])
  {
    InitInv(s);
    RunKeeps(s, moves, s');
    assert StateOk(s', c) && ParentOk(s', c);
  }

  /** In every run a process is waited for at most once, after it has exited, and with the status it exited with. */
  lemma {:induction false} ReapedOnce(s: State, moves: seq<Move>, s': State, i: nat, j: nat)
    requires Init(s) && Leads(s, moves, s') && i < |s'.reaped| && j < |s'.reaped|
    ensures s'.reaped[i].pid == s'.reaped[j].pid ==> i == j
    ensures s'.reaped[i].pid in s'.exits && s'.exits[s'.reaped[i].pid] == s'.reaped[i].status
  {
    InitInv(s);
    RunKeeps(s, moves, s');
    assert ReapOk(s', i) && ReapOk(s', j);
  }

  /**
   A slot is freed only once its process has left the CPU for good: never while it is still in kexit() or on its way
   out.
   */
  lemma {:induction false} ReapedIsOff(s: State, moves: seq<Move>, s': State, p: nat, a: Action, c: nat)
    requires Init(s) && Leads(s, moves, s') && Enabled(s', p, a) && c < |s'.procs| && Reaps(s', p, a, c)
    ensures s'.procs[c].pc == Dead && s'.procs[c].parent == Some(p)
  {
    InitInv(s);
    RunKeeps(s, moves, s');
    assert StateOk(s', c);
  }

  /**
   A scan in kwait() that finds no zombie ends by giving up exactly when the process has been killed or has no child to
   wait for; and indeed there was no zombie.
   */
  lemma {:induction false} GivesUpRightly(s: State, moves: seq<Move>, s': State, p: nat)
    requires Init(s) && Leads(s, moves, s') && Enabled(s', p, Step)
    requires s'.procs[p].pc.WaitScan? && s'.procs[p].pc.i >= |s'.procs|
    ensures OwnStep(s', p).pc ==
      (if s'.procs[p].killed || !HasChild(s', p, |s'.procs|) then WaitReturn else WaitPrepare)
    ensures forall c: nat {:trigger IsChild(s', c, p)} :: IsChild(s', c, p) ==> s'.procs[c].state != Zombie
  {
    InitInv(s);
    RunKeeps(s, moves, s');
    assert WaitOk(s', p);
    forall c: nat {:trigger IsChild(s', c, p)} | IsChild(s', c, p)
      ensures s'.procs[c].state != Zombie && s'.procs[p].pc.kids
    {
      assert ScanOk(s', p, c);
    }
  }

  /**
   In no run does a process wait for nothing: one that is about to sleep in kwait(), or asleep there, has a child; so
   has one that was woken by a kill and is not yet exiting.
   */
  lemma {:induction false} WaitsForSomeone(s: State, moves: seq<Move>, s': State, p: nat)
    requires Init(s) && Leads(s, moves, s') && p < |s'.procs|
    requires Waits(s'.procs[p].pc) || (s'.procs[p].chan == ProcChan(p) && !Exiting(s'.procs[p].pc))
    ensures HasChild(s', p, |s'.procs|)
  {
    InitInv(s);
    RunKeeps(s, moves, s');
    assert WaitOk(s', p);
  }

  /** p has reaped c: it is about to return, the slot is free, and what it was told is the status c exited with. */
  ghost predicate Reaped(s: State, p: nat, c: nat, t: State) {
    && p < |s.procs| == |t.procs| && c < |s.procs| && s.procs[c].pid in s.exits
    && t.procs[p].pc == WaitReturn && t.procs[c].state == Unused && t.procs[c].parent == None
    && t.reaped == s.reaped + [Reap(s.procs[c].pid, s.exits[s.procs[c].pid])]
  }

  /** A scan that comes to a zombie, which has let go of its lock, reaps it and returns: it does not go on to sleep. */
  lemma {:induction false} FindsZombie(s: State, moves: seq<Move>, s': State, p: nat, c: nat)
    requires Init(s) && Leads(s, moves, s') && Enabled(s', p, Step) && IsZombieOf(s', c, p)
    requires s'.procs[p].pc.WaitScan? && s'.procs[p].pc.i == c
    ensures Reaped(s', p, c, Do(s', p, Step))
  {
    InitInv(s);
    RunKeeps(s, moves, s');
    ReapsIt(s', p, c);
  }

  lemma {:induction false} ReapsIt(s: State, p: nat, c: nat)
    requires Inv(s) && Enabled(s, p, Step) && IsZombieOf(s, c, p)
    requires s.procs[p].pc.WaitScan? && s.procs[p].pc.i == c
    ensures Reaped(s, p, c, Do(s, p, Step))
  {
    assert ParentOk(s, c) && PidOk(s, c) && StateOk(s, c);
  }

  /** A fork that nothing disturbs makes a child: ready to run, its parent's, with an id that no process has had. */
  lemma {:induction false} ForkMakes(s: State, p: nat, np: nat)
    requires Inv(s) && Enabled(s, p, CallFork(np)) && s.waitLock == None
    ensures exists t :: Leads(s, [Move(p, CallFork(np)), Move(p, Step), Move(p, Step)], t) && Forked(s, p, np, t)
  {
    assert StateOk(s, np);
    var s1 := Do(s, p, CallFork(np));
    var s2 := Do(s1, p, Step);
    var s3 := Do(s2, p, Step);
    LeadsFirst(s2, Move(p, Step), [], s3);
    LeadsFirst(s1, Move(p, Step), [Move(p, Step)], s3);
    LeadsFirst(s, Move(p, CallFork(np)), [Move(p, Step), Move(p, Step)], s3);
    assert [Move(p, CallFork(np))] + [Move(p, Step), Move(p, Step)] ==
           [Move(p, CallFork(np)), Move(p, Step), Move(p, Step)];
    assert Forked(s, p, np, s3);
  }

  ghost predicate Forked(s: State, p: nat, np: nat, t: State) {
    && p < |s.procs| == |t.procs| && np < |s.procs|
    && t.procs[p] == s.procs[p] && t.procs[np] == Proc(Runnable, Some(p), s.nextpid, NoChan, false, 0, Idle)
    && t.nextpid == s.nextpid + 1 && t.waitLock == s.waitLock
  }

  lemma {:induction false} LeadsFirst(s: State, m: Move, moves: seq<Move>, s': State)
    requires Enabled(s, m.p, m.a) && Leads(Do(s, m.p, m.a), moves, s')
    ensures Leads(s, [m] + moves, s')
  {
    assert ([m] + moves)[1..] == moves;
  }

  /** In these calls, and not asleep. */
  predicate Busy(pr: Proc) {
    && pr.pc != Free && !pr.pc.Newborn? && pr.pc != Idle && pr.pc != Dead
    && pr.state != Sleeping
  }

  /**
   In no run do processes in fork, exit and wait hold each other up for good: as long as there is one that is not
   asleep, one can take a step or be scheduled to.
   */
  lemma {:induction false} SomeoneMoves(s: State, moves: seq<Move>, s': State, p: nat)
    requires Init(s) && Leads(s, moves, s') && p < |s'.procs| && Busy(s'.procs[p])
    ensures exists q: nat :: Enabled(s', q, Step) || Enabled(s', q, Schedule)
  {
    InitInv(s);
    RunKeeps(s, moves, s');
    if s'.waitLock.Some? {
      assert LockHolder(s') && LockOk(s', s'.waitLock.value) && StateOk(s', s'.waitLock.value);
      Moves(s', s'.waitLock.value);
    } else {
      assert LockOk(s', p);
      Moves(s', p);
    }
  }

  /**
   Who holds wait_lock, or, with no one holding it, any process, can move; or the child whose lock it waits for can.
   */
  lemma {:induction false} Moves(s: State, p: nat)
    requires Inv(s) && p < |s.procs| && Busy(s.procs[p]) && (s.waitLock == None || s.waitLock == Some(p))
    ensures exists q: nat :: Enabled(s, q, Step) || Enabled(s, q, Schedule)
  {
    assert StateOk(s, p) && ForkOk(s, p) && LockOk(s, p);
    var q := p;
    if s.procs[p].pc.WaitScan? && s.procs[p].pc.i < |s.procs| && s.procs[s.procs[p].pc.i].parent == Some(p) {
      var c := s.procs[p].pc.i;
      assert LockOk(s, c) && ParentOk(s, c);
      if s.procs[c].pc == ExitSwitch { q := c; }
    }
    assert Enabled(s, q, Step) || Enabled(s, q, Schedule);
  }

  /** A kill wakes its victim, whatever it sleeps for. */
  lemma {:induction false} KillWakes(s: State, p: nat, j: nat)
    requires Enabled(s, p, Kill(j))
    ensures var pr := Do(s, p, Kill(j)).procs[j]; pr.killed && pr.state != Sleeping
  {
  }
}
