/**
 The whole life of an address space, from proc_pagetable() through any sequence of sbrk,
 faults, copies in and out and forks, however each of them turns out, to
 proc_freepagetable() (kernel/proc.c, kernel/vm.c): the process sees plain memory, and
 when it is gone so is every page it used.
 */
module ProcessMemory {

  import opened Basics
  import opened PageTable
  import opened AddressSpaces
  import opened LazyMemory

  /** What a process may do.  In Fork(va, len) its child fetches len bytes at va and exits. */
  datatype Op =
    | Sbrk(n: int32, eager: bool)
    | Fault(va: nat)
    | Store(dst: nat, src: seq<byte>)
    | Fetch(va: nat, len: nat)
    | Fork(va: nat, len: nat)

  /**
   What came of it: bytes that were stored, bytes that it or its child fetched, the size that sbrk left, or nothing to
   see.
   */
  datatype Event = Stored(dst: nat, bytes: seq<byte>) | Fetched(src: nat, bytes: seq<byte>) | Sized(sz: nat) | Nothing

  // ---------------------------------------------------------------- plain memory

  function Zeroed(): (s: seq<byte>)
    ensures |s| == TOP && forall x {:trigger s[x]} :: 0 <= x < TOP ==> s[x] == 0
  {
    seq(TOP, _ => 0)
  }

  function Put(image: seq<byte>, e: Event): (r: seq<byte>)
    ensures |r| == |image|
    ensures forall x {:trigger r[x]} :: 0 <= x < |image| ==> r[x] == Cell(image[x], e, x)
  {
    seq(|image|, x requires 0 <= x < |image| => Cell(image[x], e, x))
  }

  function Cell(b: byte, e: Event, x: nat): byte {
    match e
    case Stored(dst, bytes) => if dst <= x < dst + |bytes| then bytes[x - dst] else b
    case Sized(sz) => if PagesUp(sz) * PGSIZE <= x then 0 else b
    case _ => b
  }

  /** Memory after some events, all zero to start with. */
  function Image(es: seq<Event>): (r: seq<byte>)
    ensures |r| == TOP
  {
    if es == [] then Zeroed() else Put(Image(es[..|es| - 1]), es[|es| - 1])
  }

  /** The size of the process after some events. */
  function Size(es: seq<Event>): nat {
    if es == [] then 0 else if es[|es| - 1].Sized? then es[|es| - 1].sz else Size(es[..|es| - 1])
  }

  /** An event that may come of an operation, when the process is of size sz and its memory is the image. */
  ghost predicate Answers(op: Op, e: Event, sz: nat, image: seq<byte>) {
    match op
    case Sbrk(n, _) => e.Sized? && (e.sz == NewSize(sz, n) || (e.sz == sz && 0 < n))
    case Fault(_) => e.Nothing?
    case Store(dst, src) => e.Stored? && e.dst == dst && e.bytes <= src && |e.bytes| <= Reach(dst, |src|, sz)
    case Fetch(va, len) =>
      e.Fetched? && e.src == va && |e.bytes| <= Reach(va, len, sz) && Got(image, va, e.bytes)
    case Fork(va, len) =>
      e.Fetched? && e.src == va && |e.bytes| <= Reach(va, len, sz) && Got(image, va, e.bytes)
  }

  /** How many of n bytes at a lie within the pages of a process of size sz, as far as they go without a gap. */
  function Reach(a: nat, n: nat, sz: nat): (k: nat)
    ensures k <= n && (a + n <= sz ==> k == n) && (0 < k ==> (a + k - 1) / PGSIZE < PagesUp(sz))
  {
    PagesUpBound(sz, sz / PGSIZE);
    var end := PagesUp(sz) * PGSIZE;
    if a + n <= end then n else if a < end then end - a else 0
  }

  ghost predicate Got(image: seq<byte>, src: nat, bytes: seq<byte>) {
    forall j {:trigger GotAt(image, src, bytes, j)} :: 0 <= j < |bytes| ==> GotAt(image, src, bytes, j)
  }

  predicate GotAt(image: seq<byte>, src: nat, bytes: seq<byte>, j: nat)
    requires j < |bytes|
  {
    src + j < |image| && bytes[j] == image[src + j]
  }

  /** The size that sbrk leaves if there is memory enough: one that is out of bounds is as good as none. */
  function NewSize(sz: nat, n: int): nat {
    if 0 <= sz + n && (n <= 0 || sz + n <= TOP) then sz + n else sz
  }

  /** The operation was carried out in full. */
  predicate InFull(op: Op, e: Event, sz: nat) {
    match op
    case Sbrk(n, _) => e == Sized(NewSize(sz, n))
    case Store(dst, src) => e == Stored(dst, src[..Reach(dst, |src|, sz)])
    case Fetch(va, len) => e.Fetched? && |e.bytes| == Reach(va, len, sz)
    case Fork(va, len) => e.Fetched? && |e.bytes| == Reach(va, len, sz)
    case Fault(_) => true
  }

  /** The free pages that are enough for an operation, when the process is of at most size hi. */
  function Cost(op: Op, hi: nat): nat {
    match op
    case Sbrk(n, eager) => if eager && 0 < n then 3 * PagesUp(n) else 0
    case Fault(_) => 3
    case Store(dst, src) => 3 * Span(dst, |src|)
    case Fetch(va, len) => 3 * Span(va, len)
    case Fork(va, len) => 5 + 3 * PagesUp(hi) + 3 * Span(va, len)
  }

  function Costs(ops: seq<Op>, hi: nat): nat {
    if ops == [] then 0 else Cost(ops[0], hi) + Costs(ops[1..], hi)
  }

  /** The most that the process can grow to. */
  function Growth(ops: seq<Op>): nat {
    if ops == [] then 0 else Growth(ops[..|ops| - 1]) + Grows(ops[|ops| - 1])
  }

  function Grows(op: Op): nat {
    if op.Sbrk? && op.n > 0 then op.n else 0
  }

  /** The free pages that are enough for a whole life. */
  function Need(ops: seq<Op>): nat {
    5 + Costs(ops, Growth(ops))
  }

  lemma {:induction false} GrowthSoFar(ops: seq<Op>, k: nat)
    requires k <= |ops|
    ensures Growth(ops[..k]) <= Growth(ops)
    decreases |ops|
  {
    if k < |ops| {
      GrowthSoFar(ops[..|ops| - 1], k);
      assert ops[..|ops| - 1][..k] == ops[..k];
    } else {
      assert ops[..k] == ops;
    }
  }

  lemma {:induction false} CostsSplit(ops: seq<Op>, k: nat, hi: nat)
    requires k < |ops|
    ensures Costs(ops[k..], hi) == Cost(ops[k], hi) + Costs(ops[k + 1..], hi)
  {
    assert ops[k..][1..] == ops[k + 1..];
  }

  /** Every operation was carried out in full. */
  ghost predicate AllInFull(ops: seq<Op>, es: seq<Event>) {
    |es| <= |ops| && forall k {:trigger FullAt(ops, es, k)} :: 0 <= k < |es| ==> FullAt(ops, es, k)
  }

  predicate FullAt(ops: seq<Op>, es: seq<Event>, k: nat)
    requires k < |es| <= |ops|
  {
    InFull(ops[k], es[k], Size(es[..k]))
  }

  lemma {:induction false} OneMoreInFull(ops: seq<Op>, es: seq<Event>, e: Event)
    requires AllInFull(ops, es) && |es| < |ops| && InFull(ops[|es|], e, Size(es))
    ensures AllInFull(ops, es + [e])
  {
    var all := es + [e];
    forall k {:trigger FullAt(ops, all, k)} | 0 <= k < |all| ensures FullAt(ops, all, k) {
      if k < |es| {
        assert FullAt(ops, es, k) && all[..k] == es[..k] && all[k] == es[k];
      } else {
        assert all[..k] == es;
      }
    }
  }

  /** Every event answers its operation. */
  ghost predicate Faithful(ops: seq<Op>, es: seq<Event>) {
    |es| <= |ops| && forall k {:trigger AnswersAt(ops, es, k)} :: 0 <= k < |es| ==> AnswersAt(ops, es, k)
  }

  ghost predicate AnswersAt(ops: seq<Op>, es: seq<Event>, k: nat)
    requires k < |es| <= |ops|
  {
    Answers(ops[k], es[k], Size(es[..k]), Image(es[..k]))
  }

  lemma {:induction false} OneMore(ops: seq<Op>, es: seq<Event>, e: Event)
    requires Faithful(ops, es) && |es| < |ops| && Answers(ops[|es|], e, Size(es), Image(es))
    ensures Faithful(ops, es + [e]) && Image(es + [e]) == Put(Image(es), e) && Size(es + [e]) == if e.Sized? then e.sz
      else Size(es)
  {
    var all := es + [e];
    assert all[..|es|] == es;
    forall k {:trigger AnswersAt(ops, all, k)} | 0 <= k < |all| ensures AnswersAt(ops, all, k) {
      if k < |es| {
        assert AnswersAt(ops, es, k) && all[..k] == es[..k] && all[k] == es[k];
      }
    }
  }

  /** A process is never larger than all it has asked for. */
  lemma {:induction false} SizeBound(ops: seq<Op>, es: seq<Event>)
    requires Faithful(ops, es)
    ensures Size(es) <= Growth(ops[..|es|])
    decreases |es|
  {
    if es != [] {
      var n := |es| - 1;
      forall k {:trigger AnswersAt(ops, es[..n], k)} | 0 <= k < n ensures AnswersAt(ops, es[..n], k) {
        assert AnswersAt(ops, es, k) && es[..n][..k] == es[..k];
      }
      SizeBound(ops, es[..n]);
      assert AnswersAt(ops, es, n) && ops[..|es|][..n] == ops[..n];
    }
  }

  // ---------------------------------------------------------------- the space

  /** The space's memory is the image. */
  ghost predicate Shows(vm: VM, r: nat, image: seq<byte>) {
    |image| == TOP && forall x {:trigger Byte(vm.mem, r, x)} :: 0 <= x < TOP ==> Byte(vm.mem, r, x) == image[x]
  }

  /** The space is in order, and every page that is not its own is as it was in a. */
  ghost predicate Alive(a: VM, vm: VM, r: nat, sz: nat) {
    r !in a.spaces && Others(a, vm, r) && vm.spaces == a.spaces + {r} && SpaceFits(vm, r, sz) && Plain(vm, r)
  }

  lemma {:induction false} StillAlive(a: VM, b: VM, c: VM, r: nat, sz: nat, sz': nat)
    requires Alive(a, b, r, sz) && OthersSame(b, c, r) && SpaceFits(c, r, sz') && Plain(c, r)
    ensures Alive(a, c, r, sz')
  {
    OthersChain(a, b, c, r);
  }

  /** Faults stay within the process. */
  lemma {:induction false} FaultsFit(b: VM, c: VM, r: nat, sz: nat)
    requires SpaceFits(b, r, sz) && Faulted(b, c, r, sz) && c.spaces == b.spaces && Plain(b, r)
    ensures SpaceFits(c, r, sz) && Plain(c, r)
  {
    FaultedPlain(b, c, r, sz);
    forall v {:trigger Lookup(c.mem, r, v)} | PagesUp(sz) <= v < TRAPFRAME && v < MAXVPN
      ensures Lookup(c.mem, r, v) == NOPTE
    {
      assert FaultedAt(b, c, r, sz, v) && Lookup(b.mem, r, v) == NOPTE;
      PagesUpBound(sz, v);
    }
  }

  lemma {:induction false} SameShows(b: VM, c: VM, r: nat, image: seq<byte>, e: Event)
    requires Shows(b, r, image) && SameMemory(b, c, r) && (e.Nothing? || e.Fetched?)
    ensures Shows(c, r, Put(image, e))
  {
    forall x {:trigger Byte(c.mem, r, x)} | 0 <= x < TOP ensures Byte(c.mem, r, x) == Put(image, e)[x] {
      assert Byte(b.mem, r, x) == image[x];
    }
  }

  lemma {:induction false} StoredShows(b: VM, c: VM, r: nat, image: seq<byte>, dst: nat, bytes: seq<byte>)
    requires Shows(b, r, image) && WrittenTo(b, c, r, dst, bytes)
    ensures Shows(c, r, Put(image, Stored(dst, bytes)))
  {
    forall x {:trigger Byte(c.mem, r, x)} | 0 <= x < TOP
      ensures Byte(c.mem, r, x) == Put(image, Stored(dst, bytes))[x]
    {
      assert Byte(b.mem, r, x) == image[x];
    }
  }

  /** Beyond its size a process has nothing but zeros. */
  lemma {:induction false} ZeroBeyond(vm: VM, r: nat, sz: nat, x: nat)
    requires SpaceFits(vm, r, sz) && PagesUp(sz) * PGSIZE <= x < TOP
    ensures Byte(vm.mem, r, x) == 0
  {
    assert PagesUp(sz) <= x / PGSIZE < TRAPFRAME;
    assert Lookup(vm.mem, r, x / PGSIZE) == NOPTE;
  }

  lemma {:induction false} SizedShows(b: VM, c: VM, r: nat, image: seq<byte>, sz: nat)
    requires Shows(b, r, image) && SpaceFits(c, r, sz) && (SameMemory(b, c, r) || CutAt(b, c, r, PagesUp(sz) * PGSIZE))
    ensures Shows(c, r, Put(image, Sized(sz)))
  {
    forall x {:trigger Byte(c.mem, r, x)} | 0 <= x < TOP ensures Byte(c.mem, r, x) == Put(image, Sized(sz))[x] {
      assert Byte(b.mem, r, x) == image[x];
      if PagesUp(sz) * PGSIZE <= x {
        ZeroBeyond(c, r, sz, x);
      }
    }
  }

  lemma {:induction false} FetchGot(b: VM, r: nat, psz: nat, src: nat, bytes: seq<byte>, image: seq<byte>)
    requires Reads(b, r, psz, src, bytes) && Shows(b, r, image)
    ensures Got(image, src, bytes)
  {
    forall j {:trigger GotAt(image, src, bytes, j)} | 0 <= j < |bytes| ensures GotAt(image, src, bytes, j) {
      assert ReadAt(b, r, psz, src, bytes, j);
      assert Byte(b.mem, r, src + j) == image[src + j];
    }
  }

  /** What lies within a process's pages may be read and written, and nothing else. */
  lemma {:induction false} Within(vm: VM, r: nat, sz: nat, v: nat)
    requires Ok(vm) && SpaceFits(vm, r, sz) && Plain(vm, r)
    ensures Touchable(vm.mem, r, sz, v) <==> v < PagesUp(sz)
    ensures Writable(vm.mem, r, sz, v) <==> v < PagesUp(sz)
  {
    PagesUpBound(sz, v);
    PagesUpMono(sz, sz);
    if v < MAXVPN {
      assert LeafOk(vm, r, v);
      assert Lookup(vm.mem, r, v).v && v < TRAPFRAME ==> PermOf(Lookup(vm.mem, r, v)) == RWU;
      assert PagesUp(sz) <= v < TRAPFRAME ==> Lookup(vm.mem, r, v) == NOPTE;
    }
  }

  /** A copy ends where the process's pages end. */
  lemma {:induction false} ReachIs(a: nat, n: nat, sz: nat, done: nat)
    requires done <= n && (0 < done ==> (a + done - 1) / PGSIZE < PagesUp(sz))
    ensures done <= Reach(a, n, sz)
    ensures done < n && PagesUp(sz) <= (a + done) / PGSIZE ==> done == Reach(a, n, sz)
  {
  }

  lemma {:induction false} StoredReach(vm: VM, r: nat, sz: nat, dst: nat, n: nat, done: nat)
    requires Ok(vm) && SpaceFits(vm, r, sz) && Plain(vm, r) && done <= n && RangeWritable(vm.mem, r, sz, dst, done)
    ensures done <= Reach(dst, n, sz)
    ensures done == n || !Writable(vm.mem, r, sz, (dst + done) / PGSIZE) ==> done == Reach(dst, n, sz)
  {
    Within(vm, r, sz, (dst + done) / PGSIZE);
    if 0 < done {
      assert WritableAt(vm.mem, r, sz, dst, done - 1);
      Within(vm, r, sz, (dst + done - 1) / PGSIZE);
    }
    ReachIs(dst, n, sz, done);
  }

  lemma {:induction false} FetchedReach(vm: VM, r: nat, sz: nat, va: nat, n: nat, bytes: seq<byte>)
    requires Ok(vm) && SpaceFits(vm, r, sz) && Plain(vm, r) && |bytes| <= n && Reads(vm, r, sz, va, bytes)
    ensures |bytes| <= Reach(va, n, sz)
    ensures |bytes| == n || !Touchable(vm.mem, r, sz, (va + |bytes|) / PGSIZE) ==> |bytes| == Reach(va, n, sz)
  {
    Within(vm, r, sz, (va + |bytes|) / PGSIZE);
    if 0 < |bytes| {
      assert ReadAt(vm, r, sz, va, bytes, |bytes| - 1);
      Within(vm, r, sz, (va + |bytes| - 1) / PGSIZE);
    }
    ReachIs(va, n, sz, |bytes|);
  }

  lemma {:induction false} NewShows(vm: VM, r: nat)
    requires NoneMapped(vm, r, 0, TRAPFRAME)
    ensures Shows(vm, r, Zeroed()) && Plain(vm, r) && PagesUp(0) == 0
  {
    forall x {:trigger Byte(vm.mem, r, x)} | 0 <= x < TOP ensures Byte(vm.mem, r, x) == Zeroed()[x] {
      assert Lookup(vm.mem, r, x / PGSIZE) == NOPTE;
    }
  }

  // ---------------------------------------------------------------- free pages

  lemma {:induction false} SameFree(f: seq<nat>, g: seq<nat>, home: map<nat, Node>, all: set<nat>)
    requires Partition(f, home, all) && Partition(g, home, all)
    ensures forall p {:trigger p in g} :: p in g <==> p in f
  {
    forall p {:trigger p in g} ensures p in g <==> p in f {
      assert p in all <==> p in f || p in home;
      assert p in all <==> p in g || p in home;
    }
  }

  function Elements(s: seq<nat>): set<nat> {
    if s == [] then {} else {s[0]} + Elements(s[1..])
  }

  lemma {:induction false} CountElements(s: seq<nat>)
    requires NoDup(s)
    ensures |Elements(s)| == |s| && forall p {:trigger p in Elements(s)} :: p in Elements(s) <==> p in s
  {
    if s != [] { CountElements(s[1..]); }
  }

  /** As many pages are free, if they are used as before. */
  lemma {:induction false} SameCount(f: seq<nat>, g: seq<nat>, home: map<nat, Node>, all: set<nat>)
    requires Partition(f, home, all) && Partition(g, home, all)
    ensures |f| == |g|
  {
    SameFree(f, g, home, all);
    CountElements(f);
    CountElements(g);
    assert Elements(f) == Elements(g) by {
      forall p ensures p in Elements(f) <==> p in Elements(g) { assert p in g <==> p in f; }
    }
  }

  // ---------------------------------------------------------------- a child that comes and goes

  /** Every page is as it was. */
  ghost predicate AllSame(b: VM, c: VM) {
    c.spaces == b.spaces && c.home == b.home && forall p {:trigger p in b.home} :: p in b.home ==> PageSame(b, c, p)
  }

  lemma {:induction false} AllSameIsOthers(b: VM, c: VM, r: nat)
    requires Ok(b) && AllSame(b, c) && r in b.spaces
    ensures OthersSame(b, c, r) && AllKept(b, c, r)
  {
    UsesFit(b);
    WalkFrame(b, c.mem, r);
    forall v {:trigger Kept(b, c, r, v)} | 0 <= v < MAXVPN ensures Kept(b, c, r, v) {
      assert LeafOk(b, r, v);
    }
  }

  /** A child starts with its parent's memory. */
  lemma {:induction false} ChildShows(c: VM, d: VM, r: nat, child: nat, sz: nat, image: seq<byte>)
    requires Shows(c, r, image) && SpaceFits(c, r, sz) && Plain(c, r) && child in d.spaces
    requires NoneMapped(c, child, 0, TRAPFRAME) && Copied(c, d, r, child, PagesUp(sz))
    ensures Shows(d, child, image) && SpaceFits(d, child, sz) && Plain(d, child)
  {
    forall v {:trigger Lookup(d.mem, child, v)} | PagesUp(sz) <= v < TRAPFRAME && v < MAXVPN
      ensures Lookup(d.mem, child, v) == NOPTE
    {
      assert Kept(c, d, child, v) && Lookup(c.mem, child, v) == NOPTE;
    }
    forall v {:trigger Lookup(d.mem, child, v)} | 0 <= v < TRAPFRAME && Lookup(d.mem, child, v).v
      ensures PermOf(Lookup(d.mem, child, v)) == RWU
    {
      assert v < PagesUp(sz) ==> CopyAt(c, r, d, child, v);
      assert Lookup(c.mem, r, v).v ==> PermOf(Lookup(c.mem, r, v)) == RWU;
    }
    forall x {:trigger Byte(d.mem, child, x)} | 0 <= x < TOP ensures Byte(d.mem, child, x) == image[x] {
      assert Byte(c.mem, r, x) == image[x];
      if x / PGSIZE < PagesUp(sz) {
        assert CopyAt(c, r, d, child, x / PGSIZE);
      } else {
        ZeroBeyond(c, r, sz, x);
        assert Lookup(d.mem, child, x / PGSIZE) == NOPTE;
      }
    }
  }

  /** The child's part: it fetches, and its space is freed. */
  method ChildFetches(m: Memory, child: nat, sz: nat, va: nat, len: nat, ghost b: VM, ghost image: seq<byte>)
    returns (bytes: seq<byte>)
    requires m.Valid() && SpaceFits(m.State(), child, sz) && Plain(m.State(), child) && Shows(m.State(), child, image)
    requires child !in b.spaces && m.spaces == b.spaces + {child} && Ok(b) && Others(b, m.State(), child)
    modifies m
    ensures m.Valid() && AllSame(b, m.State())
    ensures |bytes| <= Reach(va, len, sz) && Got(image, va, bytes)
    ensures |old(m.free)| >= 3 * Span(va, len) ==> |bytes| == Reach(va, len, sz)
  {
    ghost var d := m.State();
    var ok;
    ok, bytes := Copyin(m, child, sz, va, len);
    ghost var e := m.State();
    FetchGot(d, child, sz, va, bytes, image);
    FetchedReach(d, child, sz, va, len, bytes);
    FaultsFit(d, e, child, sz);
    OthersChain(b, d, e, child);
    PagesUpMono(sz, sz);
    m.ProcFreepagetable(child, sz);
    SpaceUndone(b, e, m.State(), child);
  }

  /** fork's copy of the space, and the life and end of the child: the parent, and everything else, is as before. */
  method ForkAndReap(m: Memory, r: nat, sz: nat, va: nat, len: nat, tramp: nat, tf: nat, ghost image: seq<byte>)
    returns (bytes: seq<byte>)
    requires m.Valid() && SpaceFits(m.State(), r, sz) && Plain(m.State(), r) && Shows(m.State(), r, image) &&
      tramp != 0 && tf != 0
    modifies m
    ensures m.Valid() && AllSame(old(m.State()), m.State())
    ensures |bytes| <= Reach(va, len, sz) && Got(image, va, bytes)
    ensures |old(m.free)| >= 5 + 3 * PagesUp(sz) + 3 * Span(va, len) ==> |bytes| == Reach(va, len, sz)
  {
    ghost var b := m.State();
    bytes := [];
    var child := m.ProcPagetable(tramp, tf);
    if child == 0 { return; }
    ghost var c := m.State();
    assert RootOk(c, child) && RootOk(c, r);
    OthersKept(b, c, child, r);
    NoneMappedThen(b, c, r, PagesUp(sz), TRAPFRAME);
    KeptPlain(b, c, r);
    KeptShows(b, c, r, image);
    PagesUpMono(sz, sz);
    assert NoneMapped(c, child, 0, PagesUp(sz));
    bytes := CopyAndFetch(m, r, child, sz, va, len, b, image);
  }

  lemma {:induction false} KeptShows(b: VM, c: VM, r: nat, image: seq<byte>)
    requires AllKept(b, c, r) && Shows(b, r, image)
    ensures Shows(c, r, image)
  {
    KeptMemory(b, c, r);
    forall x {:trigger Byte(c.mem, r, x)} | 0 <= x < TOP ensures Byte(c.mem, r, x) == image[x] {
      assert Byte(b.mem, r, x) == image[x];
    }
  }

  /** The child's space is filled, and it goes on, or is given up. */
  method CopyAndFetch(m: Memory, r: nat, child: nat, sz: nat, va: nat, len: nat, ghost b: VM, ghost image: seq<byte>)
    returns (bytes: seq<byte>)
    requires m.Valid() && SpaceFits(m.State(), r, sz) && Plain(m.State(), r) && Shows(m.State(), r, image) && r != child
    requires child !in b.spaces && m.spaces == b.spaces + {child} && Ok(b) && Others(b, m.State(), child)
    requires NoneMapped(m.State(), child, 0, TRAPFRAME)
    modifies m
    ensures m.Valid() && AllSame(b, m.State())
    ensures |bytes| <= Reach(va, len, sz) && Got(image, va, bytes)
    ensures |old(m.free)| >= 3 * PagesUp(sz) + 3 * Span(va, len) ==> |bytes| == Reach(va, len, sz)
  {
    ghost var c := m.State();
    PagesUpMono(sz, sz);
    assert NoneMapped(c, child, 0, PagesUp(sz));
    var ok := m.Uvmcopy(r, child, sz);
    ghost var d := m.State();
    OthersChain(b, c, d, child);
    if ok {
      ChildShows(c, d, r, child, sz, image);
      bytes := ChildFetches(m, child, sz, va, len, b, image);
    } else {
      bytes := [];
      NoneMappedThen(c, d, child, PagesUp(sz), TRAPFRAME);
      m.ProcFreepagetable(child, sz);
      SpaceUndone(b, d, m.State(), child);
    }
  }

  // ---------------------------------------------------------------- a life

  /** The space after some events: in order, of the right size, with the right bytes in it. */
  ghost predicate Living(a: VM, vm: VM, r: nat, ops: seq<Op>, es: seq<Event>) {
    Faithful(ops, es) && Alive(a, vm, r, Size(es)) && Shows(vm, r, Image(es))
  }

  lemma {:induction false} LivesOn(a: VM, b: VM, c: VM, r: nat, ops: seq<Op>, es: seq<Event>, e: Event)
    requires Living(a, b, r, ops, es) && |es| < |ops| && Answers(ops[|es|], e, Size(es), Image(es))
    requires OthersSame(b, c, r) && Plain(c, r) && Shows(c, r, Put(Image(es), e))
    requires SpaceFits(c, r, if e.Sized? then e.sz else Size(es))
    ensures Living(a, c, r, ops, es + [e])
  {
    OneMore(ops, es, e);
    StillAlive(a, b, c, r, Size(es), Size(es + [e]));
  }

  lemma {:induction false} SbrkLives(a: VM, b: VM, c: VM, r: nat, ops: seq<Op>, es: seq<Event>, n: int32, eager: bool,
                                     sz: nat)
    requires Living(a, b, r, ops, es) && |es| < |ops| && ops[|es|] == Sbrk(n, eager)
    requires SpaceFits(c, r, sz) && OthersSame(b, c, r) && Plain(c, r)
    requires SameMemory(b, c, r) || CutAt(b, c, r, PagesUp(sz) * PGSIZE)
    requires sz == NewSize(Size(es), n) || (sz == Size(es) && 0 < n)
    ensures Living(a, c, r, ops, es + [Sized(sz)])
  {
    SizedShows(b, c, r, Image(es), sz);
    LivesOn(a, b, c, r, ops, es, Sized(sz));
  }

  lemma {:induction false} SbrkInFull(n: int32, eager: bool, sz: nat, ok: bool, sz': nat, before: nat, after: nat)
    requires ok ==> sz' == if sz + n < 0 then sz else sz + n
    requires ok && 0 < n ==> sz' <= TOP
    requires !ok ==> sz' == sz && 0 < n && (sz + n > TOP || (eager && before < 3 * (PagesUp(sz + n) - PagesUp(sz))))
    requires before <= after + if eager && 0 < n && sz + n <= TOP then 3 * (PagesUp(sz + n) - PagesUp(sz)) else 0
    ensures sz' == NewSize(sz, n) || (sz' == sz && 0 < n)
    ensures before >= Cost(Sbrk(n, eager), 0) ==> InFull(Sbrk(n, eager), Sized(sz'), sz)
    ensures before <= after + Cost(Sbrk(n, eager), 0)
  {
    if 0 < n { PagesUpSum(sz, n); }
  }

  lemma {:induction false} PagesUpSum(a: nat, b: nat)
    ensures PagesUp(a + b) <= PagesUp(a) + PagesUp(b)
  {
  }

  method StepSbrk(m: Memory, r: nat, sz: nat, n: int32, eager: bool, ghost hi: nat, ghost a: VM, ghost ops: seq<Op>,
                  ghost es: seq<Event>)
    returns (e: Event)
    requires m.Valid() && Living(a, m.State(), r, ops, es) && |es| < |ops| && ops[|es|] == Sbrk(n, eager) &&
      sz == Size(es) <= hi
    modifies m
    ensures m.Valid() && Living(a, m.State(), r, ops, es + [e])
    ensures |old(m.free)| >= Cost(Sbrk(n, eager), hi) ==> InFull(Sbrk(n, eager), e, Size(es))
    ensures |old(m.free)| <= |m.free| + Cost(Sbrk(n, eager), hi)
  {
    ghost var b := m.State();
    var ok, sz' := LazyMemory.Sbrk(m, r, sz, n, eager);
    e := Sized(sz');
    SbrkInFull(n, eager, sz, ok, sz', |old(m.free)|, |m.free|);
    if !ok { KeptMemory(b, m.State(), r); }
    SbrkLives(a, b, m.State(), r, ops, es, n, eager, sz');
  }

  method StepFault(m: Memory, r: nat, sz: nat, va: nat, ghost hi: nat, ghost a: VM, ghost ops: seq<Op>,
                   ghost es: seq<Event>) returns (e: Event)
    requires m.Valid() && Living(a, m.State(), r, ops, es) && |es| < |ops| && ops[|es|] == Fault(va) &&
      sz == Size(es) <= hi
    modifies m
    ensures m.Valid() && Living(a, m.State(), r, ops, es + [e])
    ensures |old(m.free)| >= Cost(Fault(va), hi) ==> InFull(Fault(va), e, Size(es))
    ensures |old(m.free)| <= |m.free| + Cost(Fault(va), hi)
  {
    ghost var b := m.State();
    var _ := Touch(m, r, sz, va / PGSIZE);
    e := Nothing;
    FaultsFit(b, m.State(), r, sz);
    SameShows(b, m.State(), r, Image(es), e);
    LivesOn(a, b, m.State(), r, ops, es, e);
  }

  method StepStore(m: Memory, r: nat, sz: nat, dst: nat, src: seq<byte>, ghost hi: nat, ghost a: VM,
                   ghost ops: seq<Op>, ghost es: seq<Event>)
    returns (e: Event)
    requires m.Valid() && Living(a, m.State(), r, ops, es) && |es| < |ops| && ops[|es|] == Op.Store(dst, src) &&
      sz == Size(es) <= hi
    modifies m
    ensures m.Valid() && Living(a, m.State(), r, ops, es + [e])
    ensures |old(m.free)| >= Cost(Op.Store(dst, src), hi) ==> InFull(Op.Store(dst, src), e, Size(es))
    ensures |old(m.free)| <= |m.free| + Cost(Op.Store(dst, src), hi)
  {
    ghost var b := m.State();
    var ok, done := Copyout(m, r, sz, dst, src);
    e := Stored(dst, src[..done]);
    FaultsFit(b, m.State(), r, sz);
    StoredShows(b, m.State(), r, Image(es), dst, src[..done]);
    StoredReach(b, r, sz, dst, |src|, done);
    LivesOn(a, b, m.State(), r, ops, es, e);
  }

  method StepFetch(m: Memory, r: nat, sz: nat, va: nat, len: nat, ghost hi: nat, ghost a: VM, ghost ops: seq<Op>,
                   ghost es: seq<Event>)
    returns (e: Event)
    requires m.Valid() && Living(a, m.State(), r, ops, es) && |es| < |ops| && ops[|es|] == Fetch(va, len) &&
      sz == Size(es) <= hi
    modifies m
    ensures m.Valid() && Living(a, m.State(), r, ops, es + [e])
    ensures |old(m.free)| >= Cost(Fetch(va, len), hi) ==> InFull(Fetch(va, len), e, Size(es))
    ensures |old(m.free)| <= |m.free| + Cost(Fetch(va, len), hi)
  {
    ghost var b := m.State();
    var ok, bytes := Copyin(m, r, sz, va, len);
    e := Fetched(va, bytes);
    FaultsFit(b, m.State(), r, sz);
    FetchGot(b, r, sz, va, bytes, Image(es));
    SameShows(b, m.State(), r, Image(es), e);
    FetchedReach(b, r, sz, va, len, bytes);
    LivesOn(a, b, m.State(), r, ops, es, e);
  }

  method StepFork(m: Memory, r: nat, sz: nat, va: nat, len: nat, tramp: nat, tf: nat, ghost hi: nat, ghost a: VM,
                  ghost ops: seq<Op>, ghost es: seq<Event>) returns (e: Event)
    requires m.Valid() && Living(a, m.State(), r, ops, es) && |es| < |ops| && ops[|es|] == Fork(va, len) &&
      sz == Size(es) <= hi && tramp != 0 && tf != 0
    modifies m
    ensures m.Valid() && Living(a, m.State(), r, ops, es + [e])
    ensures |old(m.free)| >= Cost(Fork(va, len), hi) ==> InFull(Fork(va, len), e, Size(es))
    ensures |old(m.free)| <= |m.free| + Cost(Fork(va, len), hi)
  {
    ghost var b := m.State();
    var bytes := ForkAndReap(m, r, sz, va, len, tramp, tf, Image(es));
    SameCount(old(m.free), m.free, b.home, m.all);
    PagesUpMono(sz, hi);
    e := Fetched(va, bytes);
    AllSameIsOthers(b, m.State(), r);
    NoneMappedThen(b, m.State(), r, PagesUp(sz), TRAPFRAME);
    KeptPlain(b, m.State(), r);
    KeptMemory(b, m.State(), r);
    SameShows(b, m.State(), r, Image(es), e);
    LivesOn(a, b, m.State(), r, ops, es, e);
  }

  /**
   One operation, whatever comes of it; within the process's size it is carried out in full unless memory is short.
   */
  method Step(m: Memory, r: nat, sz: nat, op: Op, tramp: nat, tf: nat, ghost hi: nat, ghost a: VM, ghost ops: seq<Op>,
              ghost es: seq<Event>)
    returns (e: Event)
    requires m.Valid() && Living(a, m.State(), r, ops, es) && |es| < |ops| && ops[|es|] == op && sz == Size(es) <= hi &&
      tramp != 0 && tf != 0
    modifies m
    ensures m.Valid() && Living(a, m.State(), r, ops, es + [e])
    ensures |old(m.free)| >= Cost(op, hi) ==> InFull(op, e, Size(es))
    ensures |old(m.free)| <= |m.free| + Cost(op, hi)
  {
    match op
    case Sbrk(n, eager) => e := StepSbrk(m, r, sz, n, eager, hi, a, ops, es);
    case Fault(va) => e := StepFault(m, r, sz, va, hi, a, ops, es);
    case Store(dst, src) => e := StepStore(m, r, sz, dst, src, hi, a, ops, es);
    case Fetch(va, len) => e := StepFetch(m, r, sz, va, len, hi, a, ops, es);
    case Fork(va, len) => e := StepFork(m, r, sz, va, len, tramp, tf, hi, a, ops, es);
  }

  /**
   A whole life.  Each fetch, the process's own or a child's, returns what the stores and the changes of size before it
   leave there; with Need(ops) pages free to begin with every operation is carried out in full; other spaces see no
   difference; and at the end every page is used as it was at the start, so that the free list holds the same pages.  If
   no space can be made to begin with, nothing happens.
   */
  method Live(m: Memory, tramp: nat, tf: nat, ops: seq<Op>) returns (es: seq<Event>)
    requires m.Valid() && tramp != 0 && tf != 0
    modifies m
    ensures m.Valid() && Faithful(ops, es) && AllSame(old(m.State()), m.State())
    ensures es == [] || |es| == |ops|
    ensures |old(m.free)| >= 5 ==> |es| == |ops|
    ensures |old(m.free)| >= Need(ops) ==> AllInFull(ops, es)
    ensures forall p {:trigger p in m.free} :: p in m.free <==> p in old(m.free)
  {
    ghost var a := m.State();
    es := [];
    var r := m.ProcPagetable(tramp, tf);
    if r == 0 {
      SameFree(old(m.free), m.free, a.home, m.all);
      return;
    }
    NewShows(m.State(), r);
    var sz := 0;
    ghost var hi, rich := Growth(ops), |old(m.free)| >= Need(ops);
    assert ops[0..] == ops;
    while |es| < |ops|
      invariant |es| <= |ops| && sz == Size(es) && m.Valid() && Living(a, m.State(), r, ops, es)
      invariant rich ==> AllInFull(ops, es) && |m.free| >= Costs(ops[|es|..], hi)
      decreases |ops| - |es|
    {
      SizeWithin(ops, es);
      CostsSplit(ops, |es|, hi);
      var e := Step(m, r, sz, ops[|es|], tramp, tf, hi, a, ops, es);
      if rich { OneMoreInFull(ops, es, e); }
      assert (es + [e])[..|es|] == es;
      es := es + [e];
      if e.Sized? { sz := e.sz; }
    }
    EndLife(m, r, sz, a);
    SameFree(old(m.free), m.free, a.home, m.all);
  }

  method EndLife(m: Memory, r: nat, sz: nat, ghost a: VM)
    requires m.Valid() && Ok(a) && Alive(a, m.State(), r, sz)
    modifies m
    ensures m.Valid() && AllSame(a, m.State())
  {
    ghost var b := m.State();
    PagesUpMono(sz, sz);
    m.ProcFreepagetable(r, sz);
    SpaceUndone(a, b, m.State(), r);
  }

  lemma {:induction false} SizeWithin(ops: seq<Op>, es: seq<Event>)
    requires Faithful(ops, es)
    ensures Size(es) <= Growth(ops)
  {
    SizeBound(ops, es);
    GrowthSoFar(ops, |es|);
  }
}
