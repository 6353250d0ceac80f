/**
 User memory as a process sees it: an array of bytes, zero where nothing has been
 mapped yet.  Pages come into being when they are first touched (vmfault(), copyin()
 and copyout() in kernel/vm.c) or ahead of time (sbrk in kernel/sysproc.c); a process
 cannot tell which.
 */
module LazyMemory {

  import opened Basics
  import opened PageTable
  import opened AddressSpaces

  const TOP: nat := TRAPFRAME * PGSIZE

  /** The byte at an address of user memory. */
  function Byte(mem: map<nat, Page>, r: nat, a: nat): byte {
    var page := UserPage(mem, r, a / PGSIZE);
    if |page| == PGSIZE then page[a % PGSIZE] else 0
  }

  ghost predicate SameMemory(vm: VM, vm': VM, r: nat) {
    forall a {:trigger Byte(vm'.mem, r, a)} :: 0 <= a < TOP ==> Byte(vm'.mem, r, a) == Byte(vm.mem, r, a)
  }

  lemma {:induction false} KeptMemory(vm: VM, vm': VM, r: nat)
    requires AllKept(vm, vm', r)
    ensures SameMemory(vm, vm', r)
  {
    forall a {:trigger Byte(vm'.mem, r, a)} | 0 <= a < TOP ensures Byte(vm'.mem, r, a) == Byte(vm.mem, r, a) {
      assert Kept(vm, vm', r, a / PGSIZE);
    }
  }

  /** A page of zeros where there was none cannot be told from no page at all. */
  lemma {:induction false} FaultInvisible(vm: VM, vm': VM, r: nat, v: nat, p: nat, perm: Perm)
    requires FreshAt(vm, vm', r, v, p, Zeros(), perm) && !Lookup(vm.mem, r, v).v
    ensures SameMemory(vm, vm', r)
  {
    forall a {:trigger Byte(vm'.mem, r, a)} | 0 <= a < TOP ensures Byte(vm'.mem, r, a) == Byte(vm.mem, r, a) {
      if a / PGSIZE != v {
        assert Kept(vm, vm', r, a / PGSIZE);
      }
    }
  }

  /** Nor can a whole range of them. */
  lemma {:induction false} GrowthInvisible(vm: VM, vm': VM, r: nat, lo: nat, hi: nat, perm: Perm)
    requires Grown(vm, vm', r, lo, hi, perm) && NoneMapped(vm, r, lo, hi)
    ensures SameMemory(vm, vm', r)
  {
    forall a {:trigger Byte(vm'.mem, r, a)} | 0 <= a < TOP ensures Byte(vm'.mem, r, a) == Byte(vm.mem, r, a) {
      var v := a / PGSIZE;
      if lo <= v < hi {
        assert ZeroAt(vm', r, v, perm) && Lookup(vm.mem, r, v) == NOPTE;
      } else {
        assert Kept(vm, vm', r, v);
      }
    }
  }

  /** fork: the child's memory is the parent's, as far as the process's size, whether or not a page was ever touched. */
  lemma {:induction false} CopySeen(vm: VM, vm': VM, r0: nat, r1: nat, sz: nat, a: nat)
    requires Copied(vm, vm', r0, r1, PagesUp(sz)) && a < sz <= TOP
    ensures Byte(vm'.mem, r1, a) == Byte(vm.mem, r0, a)
  {
    assert CopyAt(vm, r0, vm', r1, a / PGSIZE);
  }

  // ---------------------------------------------------------------- faults

  const RWU: Perm := Perm(true, true, false, true)

  method Ismapped(m: Memory, r: nat, v: nat) returns (b: bool)
    requires m.Valid() && r in m.spaces && v < MAXVPN
    modifies m`free, m`mem, m`home
    ensures m.Valid() && m.State() == old(m.State()) && m.free == old(m.free) && b == Lookup(m.mem, r, v).v
  {
    var t := m.Walk(r, v, false);
    if t == 0 { return false; }
    b := m.mem[t].ptes[I0(v)].v;
  }

  /** The physical page of a virtual page the user may touch, 0 if there is none. */
  method Walkaddr(m: Memory, r: nat, v: nat) returns (p: nat)
    requires m.Valid() && r in m.spaces
    modifies m`free, m`mem, m`home
    ensures m.Valid() && m.State() == old(m.State()) && m.free == old(m.free)
    ensures p != 0 <==> v < MAXVPN && Lookup(m.mem, r, v).v && Lookup(m.mem, r, v).u
    ensures p != 0 ==> p == Lookup(m.mem, r, v).ppn
  {
    if v >= MAXVPN { return 0; }
    var t := m.Walk(r, v, false);
    if t == 0 { return 0; }
    var e := m.mem[t].ptes[I0(v)];
    if !e.v { return 0; }
    if !e.u { return 0; }
    assert LeafOk(m.State(), r, v);
    p := e.ppn;
  }

  /** Maps a page of zeros at va's page if that is within the process and not mapped; no one can see that it did. */
  method Vmfault(m: Memory, r: nat, psz: nat, va: nat) returns (p: nat)
    requires m.Valid() && r in m.spaces && psz <= TOP
    modifies m`free, m`mem, m`home
    ensures m.Valid() && OthersSame(old(m.State()), m.State(), r) && SameMemory(old(m.State()), m.State(), r)
    ensures va >= psz || Lookup(old(m.mem), r, va / PGSIZE).v ==> p == 0 && m.State() == old(m.State())
    ensures p != 0 ==> FreshAt(old(m.State()), m.State(), r, va / PGSIZE, p, Zeros(), RWU)
    ensures p != 0 ==> Lookup(m.mem, r, va / PGSIZE) == Pte(true, true, true, false, true, p)
    ensures p == 0 ==> AllKept(old(m.State()), m.State(), r)
    ensures p == 0 ==> va >= psz || Lookup(old(m.mem), r, va / PGSIZE).v || |old(m.free)| < 3
    ensures |old(m.free)| <= |m.free| + 3
  {
    ghost var a := m.State();
    if va >= psz { return 0; }
    var v := va / PGSIZE;
    var mapped := Ismapped(m, r, v);
    if mapped { return 0; }
    p := m.MapFresh(r, v, Zeros(), RWU);
    if p == 0 {
      KeptMemory(a, m.State(), r);
    } else {
      FaultInvisible(a, m.State(), r, v, p, RWU);
    }
  }

  /** Page v is the user's, or would be once touched. */
  predicate Touchable(mem: map<nat, Page>, r: nat, psz: nat, v: nat) {
    v < MAXVPN && if Lookup(mem, r, v).v then Lookup(mem, r, v).u else v * PGSIZE < psz
  }

  predicate Writable(mem: map<nat, Page>, r: nat, psz: nat, v: nat) {
    Touchable(mem, r, psz, v) && (Lookup(mem, r, v).v ==> Lookup(mem, r, v).w)
  }

  /** No translation has changed but for pages within the process that came into being. */
  ghost predicate Faulted(vm: VM, vm': VM, r: nat, psz: nat) {
    forall v {:trigger FaultedAt(vm, vm', r, psz, v)} :: 0 <= v < MAXVPN ==> FaultedAt(vm, vm', r, psz, v)
  }

  ghost predicate FaultedAt(vm: VM, vm': VM, r: nat, psz: nat, v: nat) {
    || Lookup(vm'.mem, r, v) == Lookup(vm.mem, r, v)
    || (!Lookup(vm.mem, r, v).v && v * PGSIZE < psz && Lookup(vm'.mem, r, v).v && PermOf(Lookup(vm'.mem, r, v)) == RWU)
  }

  lemma {:induction false} FaultedChain(a: VM, b: VM, c: VM, r: nat, psz: nat)
    requires Faulted(a, b, r, psz) && Faulted(b, c, r, psz)
    ensures Faulted(a, c, r, psz)
  {
    forall v {:trigger FaultedAt(a, c, r, psz, v)} | 0 <= v < MAXVPN ensures FaultedAt(a, c, r, psz, v) {
      assert FaultedAt(a, b, r, psz, v) && FaultedAt(b, c, r, psz, v);
    }
  }

  /** Faults change neither what may be touched nor what may be written. */
  lemma {:induction false} FaultedSame(a: VM, b: VM, r: nat, psz: nat, v: nat)
    requires Faulted(a, b, r, psz)
    ensures Touchable(b.mem, r, psz, v) == Touchable(a.mem, r, psz, v)
    ensures Writable(b.mem, r, psz, v) == Writable(a.mem, r, psz, v)
  {
    if v < MAXVPN {
      assert FaultedAt(a, b, r, psz, v);
    }
  }

  /** What copyin() and copyout() begin with: the page, faulted in if need be; 0 if that cannot be. */
  method Touch(m: Memory, r: nat, psz: nat, v: nat) returns (p: nat)
    requires m.Valid() && r in m.spaces && psz <= TOP
    modifies m`free, m`mem, m`home
    ensures m.Valid() && OthersSame(old(m.State()), m.State(), r) && SameMemory(old(m.State()), m.State(), r)
    ensures Faulted(old(m.State()), m.State(), r, psz)
    ensures p != 0 ==> Touchable(old(m.mem), r, psz, v) && v < TRAPFRAME
    ensures p != 0 ==> Lookup(m.mem, r, v).v && Lookup(m.mem, r, v).ppn == p
    ensures p == 0 ==> !Touchable(old(m.mem), r, psz, v) || |old(m.free)| < 3
    ensures |old(m.free)| <= |m.free| + 3
  {
    ghost var a := m.State();
    p := Walkaddr(m, r, v);
    if p != 0 {
      assert LeafOk(m.State(), r, v);
      return;
    }
    assert v * PGSIZE / PGSIZE == v;
    p := Vmfault(m, r, psz, v * PGSIZE);
    forall w {:trigger FaultedAt(a, m.State(), r, psz, w)} | 0 <= w < MAXVPN
      ensures FaultedAt(a, m.State(), r, psz, w)
    {
      assert p == 0 || w != v ==> Kept(a, m.State(), r, w);
    }
  }

  // ---------------------------------------------------------------- copying out

  /** Bytes s are at dst, and the rest of memory is as it was. */
  ghost predicate WrittenTo(vm: VM, vm': VM, r: nat, dst: nat, s: seq<byte>) {
    forall a {:trigger Byte(vm'.mem, r, a)} :: 0 <= a < TOP ==>
      Byte(vm'.mem, r, a) == if dst <= a < dst + |s| then s[a - dst] else Byte(vm.mem, r, a)
  }

  function Spliced(page: seq<byte>, off: nat, s: seq<byte>): (t: seq<byte>)
    requires off + |s| <= |page|
    ensures |t| == |page|
    ensures forall i {:trigger t[i]} :: 0 <= i < |t| ==> t[i] == if off <= i < off + |s| then s[i - off] else page[i]
  {
    page[..off] + s + page[off + |s|..]
  }

  /** Writing to a user page changes that page of memory and nothing else. */
  lemma {:induction false} PageWritten(vm: VM, r: nat, v: nat, off: nat, s: seq<byte>)
    requires Ok(vm) && r in vm.spaces && v < TRAPFRAME && Lookup(vm.mem, r, v).v && off + |s| <= PGSIZE
    ensures IsPage(vm.mem, Lookup(vm.mem, r, v).ppn)
    ensures var p := Lookup(vm.mem, r, v).ppn;
      var vm' := vm.(mem := vm.mem[p := Data(Spliced(vm.mem[p].bytes, off, s))]);
      Ok(vm') && OthersSame(vm, vm', r) && Faulted(vm, vm', r, 0) && WrittenTo(vm, vm', r, v * PGSIZE + off, s)
  {
    assert LeafOk(vm, r, v);
    var p := Lookup(vm.mem, r, v).ppn;
    var page := Data(Spliced(vm.mem[p].bytes, off, s));
    var vm' := vm.(mem := vm.mem[p := page]);
    FillLeaf(vm, p, r, v, page);
    forall w {:trigger FaultedAt(vm, vm', r, 0, w)} | 0 <= w < MAXVPN ensures FaultedAt(vm, vm', r, 0, w) {
    }
    forall a {:trigger Byte(vm'.mem, r, a)} | 0 <= a < TOP
      ensures Byte(vm'.mem, r, a) ==
        if v * PGSIZE + off <= a < v * PGSIZE + off + |s| then s[a - (v * PGSIZE + off)] else Byte(vm.mem, r, a)
    {
      assert LeafOk(vm, r, a / PGSIZE);
      assert UserPage(vm'.mem, r, a / PGSIZE) ==
        if a / PGSIZE == v then Spliced(UserPage(vm.mem, r, v), off, s) else UserPage(vm.mem, r, a / PGSIZE);
      SplicedByte(UserPage(vm.mem, r, v), v, off, s, a);
    }
  }

  lemma {:induction false} SplicedByte(page: seq<byte>, v: nat, off: nat, s: seq<byte>, a: nat)
    requires |page| == PGSIZE && off + |s| <= PGSIZE
    ensures v * PGSIZE + off <= a < v * PGSIZE + off + |s| ==>
              a / PGSIZE == v && Spliced(page, off, s)[a % PGSIZE] == s[a - (v * PGSIZE + off)]
    ensures a / PGSIZE == v && !(v * PGSIZE + off <= a < v * PGSIZE + off + |s|) ==>
              Spliced(page, off, s)[a % PGSIZE] == page[a % PGSIZE]
  {
    if v * PGSIZE <= a < v * PGSIZE + PGSIZE {
      assert a / PGSIZE == v && a % PGSIZE == a - v * PGSIZE;
    }
  }

  lemma {:induction false} WrittenMore(a: VM, b: VM, c: VM, d: VM, r: nat, dst: nat, src: seq<byte>, k: nat, n: nat)
    requires k + n <= |src| && WrittenTo(a, b, r, dst, src[..k]) && SameMemory(b, c, r)
    requires WrittenTo(c, d, r, dst + k, src[k..k + n])
    ensures WrittenTo(a, d, r, dst, src[..k + n])
  {
    forall x {:trigger Byte(d.mem, r, x)} | 0 <= x < TOP
      ensures Byte(d.mem, r, x) == if dst <= x < dst + |src[..k + n]| then src[..k + n][x - dst] else Byte(a.mem, r, x)
    {
      assert Byte(c.mem, r, x) == Byte(b.mem, r, x);
    }
  }

  /** Everything from dst for n bytes is writable. */
  ghost predicate RangeWritable(mem: map<nat, Page>, r: nat, psz: nat, dst: nat, n: nat) {
    forall j {:trigger WritableAt(mem, r, psz, dst, j)} :: 0 <= j < n ==> WritableAt(mem, r, psz, dst, j)
  }

  predicate WritableAt(mem: map<nat, Page>, r: nat, psz: nat, dst: nat, j: nat) {
    Writable(mem, r, psz, (dst + j) / PGSIZE)
  }

  lemma {:induction false} RangeMore(mem: map<nat, Page>, r: nat, psz: nat, dst: nat, k: nat, n: nat)
    requires RangeWritable(mem, r, psz, dst, k) && Writable(mem, r, psz, (dst + k) / PGSIZE)
    requires n <= PGSIZE - (dst + k) % PGSIZE
    ensures RangeWritable(mem, r, psz, dst, k + n)
  {
    forall j {:trigger WritableAt(mem, r, psz, dst, j)} | 0 <= j < k + n ensures WritableAt(mem, r, psz, dst, j) {
      if k <= j {
        assert (dst + j) / PGSIZE == (dst + k) / PGSIZE;
      }
    }
  }

  // ---------------------------------------------------------------- how many pages a copy touches

  /** The pages that n bytes at a lie in. */
  function Span(a: nat, n: nat): nat {
    if n == 0 then 0 else (a + n - 1) / PGSIZE - a / PGSIZE + 1
  }

  /** A copy goes on at the start of a page. */
  predicate OnPage(a: nat, k: nat) {
    k == 0 || (a + k) % PGSIZE == 0
  }

  /** One turn of a copy touches one page more, and no more than there are. */
  lemma {:induction false} SpanMore(a: nat, k: nat, len: nat)
    requires OnPage(a, k) && k < len
    ensures var n := if PGSIZE - (a + k) % PGSIZE > len - k then len - k else PGSIZE - (a + k) % PGSIZE;
      && Span(a, k + n) == Span(a, k) + 1 <= Span(a, len)
      && (k + n < len ==> OnPage(a, k + n))
  {
  }

  /** How far copyout() has come. */
  ghost predicate OutDone(a: VM, vm: VM, r: nat, psz: nat, dst: nat, src: seq<byte>, k: nat)
    requires k <= |src|
  {
    && OthersSame(a, vm, r) && Faulted(a, vm, r, psz)
    && WrittenTo(a, vm, r, dst, src[..k]) && RangeWritable(a.mem, r, psz, dst, k)
  }

  lemma {:induction false} OutTouched(a: VM, b: VM, c: VM, r: nat, psz: nat, dst: nat, src: seq<byte>, k: nat)
    requires k <= |src| && OutDone(a, b, r, psz, dst, src, k)
    requires OthersSame(b, c, r) && Faulted(b, c, r, psz) && SameMemory(b, c, r)
    ensures OutDone(a, c, r, psz, dst, src, k)
  {
    FaultedChain(a, b, c, r, psz);
    OthersSameChain(a, b, c, r);
    assert src[..k + 0] == src[..k];
    WrittenMore(a, b, c, c, r, dst, src, k, 0);
  }

  lemma {:induction false} OutMore(a: VM, c: VM, d: VM, r: nat, psz: nat, dst: nat, src: seq<byte>, k: nat, n: nat)
    requires k + n <= |src| && OutDone(a, c, r, psz, dst, src, k) && n <= PGSIZE - (dst + k) % PGSIZE
    requires OthersSame(c, d, r) && Faulted(c, d, r, 0) && WrittenTo(c, d, r, dst + k, src[k..k + n])
    requires Writable(a.mem, r, psz, (dst + k) / PGSIZE)
    ensures OutDone(a, d, r, psz, dst, src, k + n)
  {
    WrittenMore(a, c, c, d, r, dst, src, k, n);
    FaultedWider(c, d, r, psz);
    FaultedChain(a, c, d, r, psz);
    OthersSameChain(a, c, d, r);
    RangeMore(a.mem, r, psz, dst, k, n);
  }

  /** Stores bytes at off in page v, which physical page p holds, unless the page is read-only. */
  method Store(m: Memory, r: nat, v: nat, p: nat, off: nat, s: seq<byte>) returns (ok: bool)
    requires m.Valid() && r in m.spaces && v < TRAPFRAME && off + |s| <= PGSIZE
    requires Lookup(m.mem, r, v).v && Lookup(m.mem, r, v).ppn == p
    modifies m`free, m`mem, m`home
    ensures m.Valid() && ok == Lookup(old(m.mem), r, v).w && m.free == old(m.free)
    ensures !ok ==> m.State() == old(m.State())
    ensures ok ==> OthersSame(old(m.State()), m.State(), r) && Faulted(old(m.State()), m.State(), r, 0)
    ensures ok ==> WrittenTo(old(m.State()), m.State(), r, v * PGSIZE + off, s)
  {
    var t := m.Walk(r, v, false);
    if !m.mem[t].ptes[I0(v)].w { return false; }
    PageWritten(m.State(), r, v, off, s);
    m.mem := m.mem[p := Data(Spliced(m.mem[p].bytes, off, s))];
    ok := true;
  }

  /** One turn of copyout(): as much of src from k on as goes in one page; nothing if that page cannot be written. */
  method CopyoutPage(m: Memory, r: nat, psz: nat, dst: nat, src: seq<byte>, k: nat, ghost a: VM) returns (n: nat)
    requires m.Valid() && r in m.spaces && psz <= TOP && k < |src| && OutDone(a, m.State(), r, psz, dst, src, k)
    modifies m`free, m`mem, m`home
    ensures m.Valid() && r in m.spaces && k + n <= |src| && OutDone(a, m.State(), r, psz, dst, src, k + n)
    ensures n == 0 ==> !Writable(a.mem, r, psz, (dst + k) / PGSIZE) || |old(m.free)| < 3
    ensures n != 0 ==> n == if PGSIZE - (dst + k) % PGSIZE > |src| - k then |src| - k else PGSIZE - (dst + k) % PGSIZE
    ensures |old(m.free)| <= |m.free| + 3
  {
    ghost var b := m.State();
    var v, off := (dst + k) / PGSIZE, (dst + k) % PGSIZE;
    FaultedSame(a, b, r, psz, v);
    if v >= MAXVPN { return 0; }
    var p := Touch(m, r, psz, v);
    ghost var c := m.State();
    OutTouched(a, b, c, r, psz, dst, src, k);
    FaultedSame(a, c, r, psz, v);
    if p == 0 { return 0; }
    n := PGSIZE - off;
    if n > |src| - k { n := |src| - k; }
    var ok := Store(m, r, v, p, off, src[k..k + n]);
    if !ok { return 0; }
    assert dst + k == v * PGSIZE + off;
    OutMore(a, c, m.State(), r, psz, dst, src, k, n);
  }

  lemma {:induction false} FaultedWider(a: VM, b: VM, r: nat, psz: nat)
    requires Faulted(a, b, r, 0)
    ensures Faulted(a, b, r, psz)
  {
    forall v {:trigger FaultedAt(a, b, r, psz, v)} | 0 <= v < MAXVPN ensures FaultedAt(a, b, r, psz, v) {
      assert FaultedAt(a, b, r, 0, v);
    }
  }

  /**
   Copies src to dst.  It stops, with the first done bytes copied, at a page that is not the user's to write, or when
   memory runs out; the rest of the process's memory is as it was, and no one else's page is touched.
   */
  method Copyout(m: Memory, r: nat, psz: nat, dst: nat, src: seq<byte>) returns (ok: bool, done: nat)
    requires m.Valid() && r in m.spaces && psz <= TOP
    modifies m`free, m`mem, m`home
    ensures m.Valid() && OthersSame(old(m.State()), m.State(), r) && Faulted(old(m.State()), m.State(), r, psz)
    ensures done <= |src| && WrittenTo(old(m.State()), m.State(), r, dst, src[..done])
    ensures RangeWritable(old(m.mem), r, psz, dst, done)
    ensures ok <==> done == |src|
    ensures !ok ==> !Writable(old(m.mem), r, psz, (dst + done) / PGSIZE) || |old(m.free)| < 3 * Span(dst, |src|)
    ensures |old(m.free)| <= |m.free| + 3 * Span(dst, |src|)
  {
    ghost var a := m.State();
    var k := 0;
    while k < |src|
      invariant 0 <= k <= |src| && m.Valid() && r in m.spaces
      invariant OutDone(a, m.State(), r, psz, dst, src, k)
      invariant |old(m.free)| <= |m.free| + 3 * Span(dst, k) && (k < |src| ==> OnPage(dst, k))
      decreases |src| - k
    {
      SpanMore(dst, k, |src|);
      var n := CopyoutPage(m, r, psz, dst, src, k, a);
      if n == 0 { return false, k; }
      k := k + n;
    }
    return true, k;
  }

  // ---------------------------------------------------------------- copying in

  /** How far copyin() has come: what has been copied, and that memory is as it was. */
  ghost predicate InDone(a: VM, vm: VM, r: nat, psz: nat, src: nat, bytes: seq<byte>) {
    && OthersSame(a, vm, r) && Faulted(a, vm, r, psz) && SameMemory(a, vm, r) && Reads(a, r, psz, src, bytes)
  }

  /** The bytes are those at src, all of them the user's. */
  ghost predicate Reads(vm: VM, r: nat, psz: nat, src: nat, bytes: seq<byte>) {
    forall j {:trigger ReadAt(vm, r, psz, src, bytes, j)} :: 0 <= j < |bytes| ==> ReadAt(vm, r, psz, src, bytes, j)
  }

  ghost predicate ReadAt(vm: VM, r: nat, psz: nat, src: nat, bytes: seq<byte>, j: nat)
    requires j < |bytes|
  {
    Touchable(vm.mem, r, psz, (src + j) / PGSIZE) && src + j < TOP && bytes[j] == Byte(vm.mem, r, src + j)
  }

  lemma {:induction false} InTouched(a: VM, b: VM, c: VM, r: nat, psz: nat, src: nat, bytes: seq<byte>)
    requires InDone(a, b, r, psz, src, bytes) && OthersSame(b, c, r) && Faulted(b, c, r, psz) && SameMemory(b, c, r)
    ensures InDone(a, c, r, psz, src, bytes)
  {
    FaultedChain(a, b, c, r, psz);
    OthersSameChain(a, b, c, r);
    forall x {:trigger Byte(c.mem, r, x)} | 0 <= x < TOP ensures Byte(c.mem, r, x) == Byte(a.mem, r, x) {
      assert Byte(b.mem, r, x) == Byte(a.mem, r, x);
    }
  }

  lemma {:induction false} ByteAt(mem: map<nat, Page>, r: nat, v: nat, off: nat, more: seq<byte>, i: nat)
    requires off + |more| <= PGSIZE && |UserPage(mem, r, v)| == PGSIZE && i < |more|
    requires more == UserPage(mem, r, v)[off..off + |more|]
    ensures (v * PGSIZE + off + i) / PGSIZE == v && (v < TRAPFRAME ==> v * PGSIZE + off + i < TOP)
    ensures Byte(mem, r, v * PGSIZE + off + i) == more[i]
  {
    var x := v * PGSIZE + off + i;
    assert x / PGSIZE == v && x % PGSIZE == off + i;
  }

  lemma {:induction false} ReadsMore(a: VM, c: VM, r: nat, psz: nat, src: nat, bytes: seq<byte>, v: nat, off: nat,
                                     more: seq<byte>)
    requires Reads(a, r, psz, src, bytes) && SameMemory(a, c, r) && Touchable(a.mem, r, psz, v) && v < TRAPFRAME
    requires src + |bytes| == v * PGSIZE + off && off + |more| <= PGSIZE && |UserPage(c.mem, r, v)| == PGSIZE
    requires more == UserPage(c.mem, r, v)[off..off + |more|]
    ensures Reads(a, r, psz, src, bytes + more)
  {
    var all := bytes + more;
    forall j {:trigger ReadAt(a, r, psz, src, all, j)} | 0 <= j < |all| ensures ReadAt(a, r, psz, src, all, j) {
      if j < |bytes| {
        assert ReadAt(a, r, psz, src, bytes, j) && all[j] == bytes[j];
      } else {
        var i := j - |bytes|;
        assert all[j] == more[i];
        ByteAt(c.mem, r, v, off, more, i);
        assert src + j == v * PGSIZE + off + i;
        assert Byte(c.mem, r, v * PGSIZE + off + i) == Byte(a.mem, r, v * PGSIZE + off + i);
      }
    }
  }

  /** One turn of copyin(). */
  method CopyinPage(m: Memory, r: nat, psz: nat, src: nat, len: nat, bytes: seq<byte>, ghost a: VM)
    returns (more: seq<byte>)
    requires m.Valid() && r in m.spaces && psz <= TOP && |bytes| < len && InDone(a, m.State(), r, psz, src, bytes)
    modifies m`free, m`mem, m`home
    ensures m.Valid() && r in m.spaces && |bytes| + |more| <= len && InDone(a, m.State(), r, psz, src, bytes + more)
    ensures more == [] ==> !Touchable(a.mem, r, psz, (src + |bytes|) / PGSIZE) || |old(m.free)| < 3
    ensures more != [] ==> |more| == if PGSIZE - (src + |bytes|) % PGSIZE > len - |bytes| then len - |bytes|
      else PGSIZE - (src + |bytes|) % PGSIZE
    ensures |old(m.free)| <= |m.free| + 3
  {
    ghost var b := m.State();
    var v, off := (src + |bytes|) / PGSIZE, (src + |bytes|) % PGSIZE;
    FaultedSame(a, b, r, psz, v);
    var p := Touch(m, r, psz, v);
    InTouched(a, b, m.State(), r, psz, src, bytes);
    if p == 0 {
      assert bytes + [] == bytes;
      return [];
    }
    var n := PGSIZE - off;
    if n > len - |bytes| { n := len - |bytes|; }
    assert LeafOk(m.State(), r, v);
    more := m.mem[p].bytes[off..off + n];
    ReadsMore(a, m.State(), r, psz, src, bytes, v, off, more);
  }

  /**
   Copies len bytes from src.  It stops, with the first few copied, at a page that is not the user's, or when memory
   runs out.
   */
  method Copyin(m: Memory, r: nat, psz: nat, src: nat, len: nat) returns (ok: bool, bytes: seq<byte>)
    requires m.Valid() && r in m.spaces && psz <= TOP
    modifies m`free, m`mem, m`home
    ensures m.Valid() && OthersSame(old(m.State()), m.State(), r) && Faulted(old(m.State()), m.State(), r, psz)
    ensures SameMemory(old(m.State()), m.State(), r) && Reads(old(m.State()), r, psz, src, bytes)
    ensures |bytes| <= len && (ok <==> |bytes| == len)
    ensures !ok ==> !Touchable(old(m.mem), r, psz, (src + |bytes|) / PGSIZE) || |old(m.free)| < 3 * Span(src, len)
    ensures |old(m.free)| <= |m.free| + 3 * Span(src, len)
  {
    ghost var a := m.State();
    bytes := [];
    while |bytes| < len
      invariant |bytes| <= len && m.Valid() && r in m.spaces && InDone(a, m.State(), r, psz, src, bytes)
      invariant |old(m.free)| <= |m.free| + 3 * Span(src, |bytes|) && (|bytes| < len ==> OnPage(src, |bytes|))
      decreases len - |bytes|
    {
      SpanMore(src, |bytes|, len);
      var more := CopyinPage(m, r, psz, src, len, bytes, a);
      if more == [] {
        assert bytes + [] == bytes;
        return false, bytes;
      }
      bytes := bytes + more;
    }
    ok := true;
  }

  // ---------------------------------------------------------------- sbrk

  /** A C int. */
  type int32 = n: int | -0x8000_0000 <= n < 0x8000_0000

  /** A process's space: nothing of its user memory is mapped beyond its size. */
  ghost predicate SpaceFits(vm: VM, r: nat, sz: nat) {
    r in vm.spaces && sz <= TOP && NoneMapped(vm, r, PagesUp(sz), TRAPFRAME)
  }

  /** All of user memory that is mapped may be read and written. */
  ghost predicate Plain(vm: VM, r: nat) {
    forall v {:trigger Lookup(vm.mem, r, v)} :: 0 <= v < TRAPFRAME && Lookup(vm.mem, r, v).v ==>
      PermOf(Lookup(vm.mem, r, v)) == RWU
  }

  lemma {:induction false} KeptPlain(vm: VM, vm': VM, r: nat)
    requires AllKept(vm, vm', r) && Plain(vm, r)
    ensures Plain(vm', r)
  {
    forall v {:trigger Lookup(vm'.mem, r, v)} | 0 <= v < TRAPFRAME && Lookup(vm'.mem, r, v).v
      ensures PermOf(Lookup(vm'.mem, r, v)) == RWU
    {
      assert Kept(vm, vm', r, v);
    }
  }

  lemma {:induction false} FaultedPlain(vm: VM, vm': VM, r: nat, psz: nat)
    requires Faulted(vm, vm', r, psz) && Plain(vm, r)
    ensures Plain(vm', r)
  {
    forall v {:trigger Lookup(vm'.mem, r, v)} | 0 <= v < TRAPFRAME && Lookup(vm'.mem, r, v).v
      ensures PermOf(Lookup(vm'.mem, r, v)) == RWU
    {
      assert FaultedAt(vm, vm', r, psz, v);
    }
  }

  lemma {:induction false} GrownPlain(vm: VM, vm': VM, r: nat, lo: nat, hi: nat)
    requires Grown(vm, vm', r, lo, hi, RWU) && Plain(vm, r)
    ensures Plain(vm', r)
  {
    forall v {:trigger Lookup(vm'.mem, r, v)} | 0 <= v < TRAPFRAME && Lookup(vm'.mem, r, v).v
      ensures PermOf(Lookup(vm'.mem, r, v)) == RWU
    {
      if lo <= v < hi {
        assert ZeroAt(vm', r, v, RWU);
      } else {
        assert Kept(vm, vm', r, v);
      }
    }
  }

  lemma {:induction false} ShrunkPlain(vm: VM, vm': VM, r: nat, lo: nat, hi: nat)
    requires Unmapped(vm, vm', r, lo, hi) && Plain(vm, r)
    ensures Plain(vm', r)
  {
    forall v {:trigger Lookup(vm'.mem, r, v)} | 0 <= v < TRAPFRAME && Lookup(vm'.mem, r, v).v
      ensures PermOf(Lookup(vm'.mem, r, v)) == RWU
    {
      if !(lo <= v < hi) {
        assert Kept(vm, vm', r, v);
      }
    }
  }

  lemma {:induction false} PagesUpMono(a: nat, b: nat)
    requires a <= b
    ensures PagesUp(a) <= PagesUp(b) && (b <= TOP ==> PagesUp(b) <= TRAPFRAME)
  {
  }

  /** Memory below a is as it was, and zero from there on. */
  ghost predicate CutAt(vm: VM, vm': VM, r: nat, a: nat) {
    forall x {:trigger Byte(vm'.mem, r, x)} :: 0 <= x < TOP ==>
      Byte(vm'.mem, r, x) == if x < a then Byte(vm.mem, r, x) else 0
  }

  lemma {:induction false} ShrinkSeen(vm: VM, vm': VM, r: nat, lo: nat, hi: nat)
    requires Unmapped(vm, vm', r, lo, hi) && lo <= hi <= TRAPFRAME && NoneMapped(vm, r, hi, TRAPFRAME)
    ensures NoneMapped(vm', r, lo, TRAPFRAME) && CutAt(vm, vm', r, lo * PGSIZE)
  {
    forall v {:trigger Lookup(vm'.mem, r, v)} | lo <= v < TRAPFRAME && v < MAXVPN
      ensures Lookup(vm'.mem, r, v) == NOPTE
    {
      if hi <= v { assert Kept(vm, vm', r, v) && Lookup(vm.mem, r, v) == NOPTE; }
    }
    forall x {:trigger Byte(vm'.mem, r, x)} | 0 <= x < TOP
      ensures Byte(vm'.mem, r, x) == if x < lo * PGSIZE then Byte(vm.mem, r, x) else 0
    {
      if x / PGSIZE < lo {
        assert Kept(vm, vm', r, x / PGSIZE);
      } else {
        assert Lookup(vm'.mem, r, x / PGSIZE) == NOPTE;
      }
    }
  }

  lemma {:induction false} GrowFits(vm: VM, vm': VM, r: nat, lo: nat, hi: nat, perm: Perm)
    requires Grown(vm, vm', r, lo, hi, perm) && lo <= hi <= TRAPFRAME && NoneMapped(vm, r, lo, TRAPFRAME)
    ensures NoneMapped(vm', r, hi, TRAPFRAME) && SameMemory(vm, vm', r)
  {
    assert NoneMapped(vm, r, lo, hi);
    GrowthInvisible(vm, vm', r, lo, hi, perm);
    forall v {:trigger Lookup(vm'.mem, r, v)} | hi <= v < TRAPFRAME && v < MAXVPN
      ensures Lookup(vm'.mem, r, v) == NOPTE
    {
      assert Kept(vm, vm', r, v) && Lookup(vm.mem, r, v) == NOPTE;
    }
  }

  /**
   Grows or shrinks a process eagerly.  Shrinking by more than there is wraps around to a huge size, which
   uvmdealloc() takes for growth: the call succeeds and nothing changes.
   */
  method Growproc(m: Memory, r: nat, sz: nat, n: int32) returns (ok: bool, sz': nat)
    requires m.Valid() && SpaceFits(m.State(), r, sz)
    modifies m`free, m`mem, m`home
    ensures m.Valid() && SpaceFits(m.State(), r, sz') && OthersSame(old(m.State()), m.State(), r)
    ensures Plain(old(m.State()), r) ==> Plain(m.State(), r)
    ensures |old(m.free)| <= |m.free| + if 0 < n && sz + n <= TOP then 3 * (PagesUp(sz + n) - PagesUp(sz)) else 0
    ensures !ok ==> sz' == sz && 0 < n && AllKept(old(m.State()), m.State(), r)
    ensures !ok ==> sz + n > TOP || |old(m.free)| < 3 * (PagesUp(sz + n) - PagesUp(sz))
    ensures ok ==> sz' == if sz + n < 0 then sz else sz + n
    ensures ok && (0 <= n || sz + n < 0) ==> SameMemory(old(m.State()), m.State(), r)
    ensures ok && n < 0 <= sz + n ==> CutAt(old(m.State()), m.State(), r, PagesUp(sz + n) * PGSIZE)
  {
    ghost var a := m.State();
    sz' := sz;
    PagesUpMono(sz, sz);
    if n > 0 {
      if sz + n > TOP { return false, sz; }
      PagesUpMono(sz, sz + n);
      assert NoneMapped(a, r, PagesUp(sz), PagesUp(sz + n));
      var got := m.Uvmalloc(r, sz, sz + n, true, false);
      if got == 0 {
        NoneMappedThen(a, m.State(), r, PagesUp(sz), TRAPFRAME);
        if Plain(a, r) { KeptPlain(a, m.State(), r); }
        return false, sz;
      }
      GrowFits(a, m.State(), r, PagesUp(sz), PagesUp(sz + n), RWU);
      if Plain(a, r) { GrownPlain(a, m.State(), r, PagesUp(sz), PagesUp(sz + n)); }
      sz' := got;
    } else if n < 0 {
      var wanted := if sz + n < 0 then 0x1_0000_0000_0000_0000 + sz + n else sz + n;
      if wanted < sz {
        PagesUpMono(wanted, sz);
      }
      sz' := Shrink(m, r, sz, wanted);
    }
    ok := true;
  }

  /** The shrinking half of growproc(). */
  method Shrink(m: Memory, r: nat, sz: nat, wanted: nat) returns (sz': nat)
    requires m.Valid() && SpaceFits(m.State(), r, sz)
    modifies m`free, m`mem, m`home
    ensures m.Valid() && SpaceFits(m.State(), r, sz') && OthersSame(old(m.State()), m.State(), r)
    ensures Plain(old(m.State()), r) ==> Plain(m.State(), r)
    ensures |old(m.free)| <= |m.free|
    ensures sz' == if wanted >= sz then sz else wanted
    ensures wanted >= sz ==> m.State() == old(m.State())
    ensures wanted < sz ==> CutAt(old(m.State()), m.State(), r, PagesUp(wanted) * PGSIZE)
  {
    ghost var a := m.State();
    PagesUpMono(sz, sz);
    sz' := m.Uvmdealloc(r, sz, wanted);
    if wanted < sz {
      PagesUpMono(wanted, sz);
      ShrinkSeen(a, m.State(), r, PagesUp(wanted), PagesUp(sz));
      if Plain(a, r) { ShrunkPlain(a, m.State(), r, PagesUp(wanted), PagesUp(sz)); }
    }
  }

  /** A process that grows by n bytes, at once or as it touches them, sees the same memory and the same size. */
  method Sbrk(m: Memory, r: nat, sz: nat, n: int32, eager: bool) returns (ok: bool, sz': nat)
    requires m.Valid() && SpaceFits(m.State(), r, sz)
    modifies m`free, m`mem, m`home
    ensures m.Valid() && SpaceFits(m.State(), r, sz') && OthersSame(old(m.State()), m.State(), r)
    ensures Plain(old(m.State()), r) ==> Plain(m.State(), r)
    ensures |old(m.free)| <= |m.free| + if eager && 0 < n && sz + n <= TOP then 3 * (PagesUp(sz + n) - PagesUp(sz))
      else 0
    ensures !ok ==> sz' == sz && 0 < n && AllKept(old(m.State()), m.State(), r)
    ensures !ok ==> sz + n > TOP || (eager && |old(m.free)| < 3 * (PagesUp(sz + n) - PagesUp(sz)))
    ensures ok && 0 <= n ==> sz' == sz + n && SameMemory(old(m.State()), m.State(), r)
    ensures ok && n < 0 <= sz + n ==> sz' == sz + n && CutAt(old(m.State()), m.State(), r, PagesUp(sz + n) * PGSIZE)
    ensures ok && sz + n < 0 ==> sz' == sz && SameMemory(old(m.State()), m.State(), r)
  {
    if eager || n < 0 {
      ok, sz' := Growproc(m, r, sz, n);
    } else {
      if sz + n > TOP { return false, sz; }
      PagesUpMono(sz, sz + n);
      ok, sz' := true, sz + n;
    }
  }
}
