/**
 The page allocator (kernel/kalloc.c) and the operations on user address spaces
 (kernel/vm.c, kernel/proc.c), updating physical memory in place.

 Every page the allocator manages is, at all times, in exactly one of these places:
 the free list, a page table of one space, a user page of one space, or the kernel's
 hands.  home records which; it is not part of the state the code has.
 */
module AddressSpaces {

  import opened Basics
  import opened PageTable

  ghost predicate NoDup(s: seq<nat>) {
    s == [] || (s[0] !in s[1..] && NoDup(s[1..]))
  }

  /** The free list and the pages in use partition the pages there are. */
  ghost predicate Partition(free: seq<nat>, home: map<nat, Node>, all: set<nat>) {
    && NoDup(free)
    && (forall p {:trigger p in all} :: p in all <==> p in free || p in home)
    && (forall p {:trigger p in free} :: p in free ==> p !in home && p != 0)
  }

  lemma {:induction false} PartitionTaken(free: seq<nat>, home: map<nat, Node>, all: set<nat>, node: Node)
    requires Partition(free, home, all) && free != []
    ensures Partition(free[1..], home[free[0] := node], all) && free[0] != 0 && free[0] !in home
  {
    assert free[0] in free;
    assert forall p :: p in free <==> p == free[0] || p in free[1..];
  }

  lemma {:induction false} PartitionReturned(free: seq<nat>, home: map<nat, Node>, all: set<nat>, p: nat)
    requires Partition(free, home, all) && p in home && p != 0
    ensures Partition([p] + free, home - {p}, all)
  {
    assert ([p] + free)[1..] == free;
  }

  /** The pages from lo up to hi. */
  ghost function PageSet(lo: nat, hi: nat): (s: set<nat>)
    ensures forall p {:trigger p in s} :: p in s <==> lo <= p < hi
    decreases hi
  {
    if hi <= lo then {} else PageSet(lo, hi - 1) + {hi - 1}
  }

  /** A page full of one byte. */
  function Filled(b: byte): (page: Page)
    ensures page.Data? && |page.bytes| == PGSIZE && forall i :: 0 <= i < PGSIZE ==> page.bytes[i] == b
  {
    Data(seq(PGSIZE, _ => b))
  }

  function Zeros(): (z: seq<byte>)
    ensures |z| == PGSIZE && forall i :: 0 <= i < PGSIZE ==> z[i] == 0
  {
    seq(PGSIZE, _ => 0)
  }

  function PX(level: nat, vpn: nat): (i: nat)
    ensures i < ENTRIES
  {
    if level == 2 then I2(vpn) else if level == 1 then I1(vpn) else I0(vpn)
  }

  /** The table that a walk for vpn is at when it has come down to a level. */
  function TableAt(mem: map<nat, Page>, r: nat, vpn: nat, level: nat): nat {
    if level == 2 then r else if level == 1 then L1(mem, r, I2(vpn)) else LowTable(mem, r, vpn)
  }

  /** What a new table under the one at a level is for. */
  function Below(r: nat, vpn: nat, level: nat): Node {
    if level == 2 then Mid(r, I2(vpn)) else Low(r, I2(vpn), I1(vpn))
  }

  /** The table at a level is a table. */
  lemma {:induction false} TableAtIsTable(vm: VM, r: nat, vpn: nat, level: nat)
    requires Ok(vm) && r in vm.spaces && vpn < MAXVPN && level <= 2
    requires TableAt(vm.mem, r, vpn, level) != 0
    ensures IsTable(vm.mem, TableAt(vm.mem, r, vpn, level))
  {
    assert RootOk(vm, r) && MidOk(vm, r, I2(vpn)) && LowOk(vm, r, I2(vpn), I1(vpn));
  }

  lemma {:induction false} LinkBelow(vm: VM, r: nat, vpn: nat, level: nat, p: nat)
    requires Ok(vm) && r in vm.spaces && vpn < MAXVPN && (level == 2 || level == 1)
    requires TableAt(vm.mem, r, vpn, level) != 0 && IsTable(vm.mem, TableAt(vm.mem, r, vpn, level))
    requires Used(vm, p, Held) && !Entry(vm.mem, TableAt(vm.mem, r, vpn, level), PX(level, vpn)).v
    ensures p != TableAt(vm.mem, r, vpn, level)
    ensures var vm' := vm.(mem := Linked(vm.mem, TableAt(vm.mem, r, vpn, level), PX(level, vpn), p),
                           home := vm.home[p := Below(r, vpn, level)]);
            Ok(vm') && SameMaps(vm, vm') && TableAt(vm'.mem, r, vpn, level - 1) == p
  {
    assert RootOk(vm, r) && MidOk(vm, r, I2(vpn)) && HomeOk(vm, p);
    I2Small(vpn);
    if level == 2 {
      LinkMid(vm, r, I2(vpn), p);
    } else {
      LinkLow(vm, r, I2(vpn), I1(vpn), p);
    }
  }

  /**
   What a walk that may add tables does: pages other than the tables of r are the same, and only tables of r are new.
   */
  ghost predicate TablesAdded(vm: VM, vm': VM, r: nat) {
    && vm'.spaces == vm.spaces
    && (forall p {:trigger p in vm.home} :: p in vm.home ==>
          && p in vm'.home && vm'.home[p] == vm.home[p]
          && (!(IsTableNode(vm.home[p]) && vm.home[p].root == r) ==> PageSame(vm, vm', p)))
    && (forall p {:trigger p in vm'.home} :: p in vm'.home && p !in vm.home ==>
          IsTableNode(vm'.home[p]) && vm'.home[p].root == r)
  }

  /** So every page of r stays mapped as it was, and nothing else changes. */
  lemma {:induction false} TablesAddedKept(vm: VM, vm': VM, r: nat)
    requires Ok(vm) && SameMaps(vm, vm') && r in vm.spaces && TablesAdded(vm, vm', r)
    ensures AllKept(vm, vm', r) && OthersSame(vm, vm', r)
  {
    UsesFit(vm);
    SameMapsKept(vm, vm', r);
  }

  lemma {:induction false} OneTableAdded(a: VM, b: VM, c: VM, r: nat, vpn: nat, level: nat, p: nat)
    requires Ok(a) && r in a.spaces && vpn < MAXVPN && (level == 2 || level == 1)
    requires TableAt(a.mem, r, vpn, level) != 0 && IsTable(a.mem, TableAt(a.mem, r, vpn, level))
    requires p != TableAt(a.mem, r, vpn, level) && p !in a.home
    requires b.mem == a.mem[p := Filled(5)] && b.home == a.home[p := Held] && b.spaces == a.spaces
    requires c == b.(mem := Linked(b.mem, TableAt(a.mem, r, vpn, level), PX(level, vpn), p),
                     home := b.home[p := Below(r, vpn, level)])
    ensures TablesAdded(a, c, r)
  {
    assert RootOk(a, r) && MidOk(a, r, I2(vpn));
  }

  lemma {:induction false} TablesAddedChain(a: VM, b: VM, c: VM, r: nat)
    requires TablesAdded(a, b, r) && TablesAdded(b, c, r)
    ensures TablesAdded(a, c, r)
  {
  }

  // ---------------------------------------------------------------- mapping a range

  datatype Perm = Perm(r: bool, w: bool, x: bool, u: bool)

  function LeafOf(perm: Perm, ppn: nat): Pte {
    Pte(true, perm.r, perm.w, perm.x, perm.u, ppn)
  }

  /** Who has a page once it is mapped at vpn: below the trapframe it belongs to the space. */
  function HomeMapped(home: map<nat, Node>, r: nat, vpn: nat, p: nat): map<nat, Node> {
    if vpn < TRAPFRAME then home[p := Leaf(r, vpn)] else home
  }

  /** The page may be mapped at vpn: a user page must be the kernel's to give. */
  ghost predicate Mappable(vm: VM, vpn: nat, p: nat) {
    p != 0 && (vpn < TRAPFRAME ==> Used(vm, p, Held) && IsPage(vm.mem, p))
  }

  ghost predicate MappableAt(vm: VM, vpn: nat, ppn: nat, i: nat) {
    Mappable(vm, vpn + i, ppn + i)
  }

  /** The next page stays mappable while the ones before it are mapped. */
  lemma {:induction false} NextMappable(a: VM, b: VM, r: nat, vpn: nat, k: nat, ppn: nat, perm: Perm)
    requires Mapped(a, b, r, vpn, k, ppn, perm) && MappableAt(a, vpn, ppn, k)
    ensures Mappable(b, vpn + k, ppn + k)
  {
    if vpn + k < TRAPFRAME {
      assert PageSame(a, b, ppn + k);
    }
  }

  lemma {:induction false} MapStepOk(vm: VM, r: nat, vpn: nat, p: nat, perm: Perm)
    requires Ok(vm) && HasTable(vm, r, vpn) && !LeafPte(vm.mem, r, vpn).v && Mappable(vm, vpn, p) && perm.r
    requires perm.u ==> vpn < TRAPFRAME
    ensures Ok(PteSet(vm, r, vpn, LeafOf(perm, p), HomeMapped(vm.home, r, vpn, p)))
  {
    forall q | q in vm.home ensures vm.home[q] != Leaf(r, vpn) && q != 0 {
      assert HomeOk(vm, q);
    }
    PteSetOk(vm, r, vpn, LeafOf(perm, p), HomeMapped(vm.home, r, vpn, p));
  }

  /** k pages from vpn are mapped to k pages from ppn, and nothing else has changed but for new tables. */
  ghost predicate Mapped(vm: VM, vm': VM, r: nat, vpn: nat, k: nat, ppn: nat, perm: Perm) {
    && vm'.spaces == vm.spaces
    && (forall v {:trigger MappedAt(vm, vm', r, vpn, ppn, perm, v)} :: vpn <= v < vpn + k && v < MAXVPN ==>
          MappedAt(vm, vm', r, vpn, ppn, perm, v))
    && (forall v {:trigger Kept(vm, vm', r, v)} :: 0 <= v < MAXVPN && !(vpn <= v < vpn + k) ==> Kept(vm, vm', r, v))
    && (forall p {:trigger p in vm.home} :: p in vm.home && !Owns(r, vm.home[p]) ==>
          PageSame(vm, vm', p) || (ppn <= p < ppn + k && vpn + (p - ppn) < TRAPFRAME))
    && (forall p {:trigger p in vm'.home} :: p in vm'.home && !Owns(r, vm'.home[p]) ==>
          p in vm.home && vm.home[p] == vm'.home[p])
  }

  ghost predicate MappedAt(vm: VM, vm': VM, r: nat, vpn: nat, ppn: nat, perm: Perm, v: nat)
    requires vpn <= v
  {
    && Lookup(vm'.mem, r, v) == LeafOf(perm, ppn + (v - vpn))
    && (v < TRAPFRAME ==> IsPage(vm.mem, ppn + (v - vpn)) &&
                          UserPage(vm'.mem, r, v) == vm.mem[ppn + (v - vpn)].bytes)
  }

  /** Page vpn of r is now p, and nothing else has changed. */
  ghost predicate OneMapped(vm: VM, vm': VM, r: nat, vpn: nat, p: nat, perm: Perm) {
    && vm'.spaces == vm.spaces
    && Lookup(vm'.mem, r, vpn) == LeafOf(perm, p)
    && (vpn < TRAPFRAME ==> IsPage(vm.mem, p) && UserPage(vm'.mem, r, vpn) == vm.mem[p].bytes)
    && (forall v {:trigger Kept(vm, vm', r, v)} :: 0 <= v < MAXVPN && v != vpn ==> Kept(vm, vm', r, v))
    && (forall q {:trigger q in vm.home} :: q in vm.home && !Owns(r, vm.home[q]) && (vpn < TRAPFRAME ==> q != p) ==>
          PageSame(vm, vm', q))
    && (forall q {:trigger q in vm'.home} :: q in vm'.home && !Owns(r, vm'.home[q]) ==>
          q in vm.home && vm.home[q] == vm'.home[q])
  }

  lemma {:induction false} MapStepKept(vm: VM, r: nat, vpn: nat, p: nat, perm: Perm)
    requires Ok(vm) && HasTable(vm, r, vpn) && !LeafPte(vm.mem, r, vpn).v && Mappable(vm, vpn, p) && perm.r
    ensures OneMapped(vm, PteSet(vm, r, vpn, LeafOf(perm, p), HomeMapped(vm.home, r, vpn, p)), r, vpn, p, perm)
  {
    var e, home := LeafOf(perm, p), HomeMapped(vm.home, r, vpn, p);
    var vm' := PteSet(vm, r, vpn, e, home);
    assert LowOk(vm, r, I2(vpn), I1(vpn));
    PteSetLeaf(vm, r, vpn, e, home, r, vpn);
    forall v {:trigger Kept(vm, vm', r, v)} | 0 <= v < MAXVPN && v != vpn ensures Kept(vm, vm', r, v) {
      PteSetLeaf(vm, r, vpn, e, home, r, v);
      assert LeafOk(vm, r, v);
    }
  }

  lemma {:induction false} MappedThenKept(a: VM, b: VM, c: VM, r: nat, vpn: nat, k: nat, ppn: nat, perm: Perm)
    requires Mapped(a, b, r, vpn, k, ppn, perm) && AllKept(b, c, r) && OthersSame(b, c, r)
    ensures Mapped(a, c, r, vpn, k, ppn, perm)
  {
    forall v {:trigger MappedAt(a, c, r, vpn, ppn, perm, v)} | vpn <= v < vpn + k && v < MAXVPN
      ensures MappedAt(a, c, r, vpn, ppn, perm, v)
    {
      assert MappedAt(a, b, r, vpn, ppn, perm, v) && Kept(b, c, r, v);
    }
    forall v {:trigger Kept(a, c, r, v)} | 0 <= v < MAXVPN && !(vpn <= v < vpn + k) ensures Kept(a, c, r, v) {
      assert Kept(a, b, r, v) && Kept(b, c, r, v);
    }
  }

  lemma {:induction false} MapMore(a: VM, c: VM, d: VM, r: nat, vpn: nat, k: nat, ppn: nat, perm: Perm)
    requires Mapped(a, c, r, vpn, k, ppn, perm) && OneMapped(c, d, r, vpn + k, ppn + k, perm)
    requires vpn + k < TRAPFRAME ==> Used(a, ppn + k, Held) && IsPage(a.mem, ppn + k)
    ensures Mapped(a, d, r, vpn, k + 1, ppn, perm)
  {
    forall v {:trigger MappedAt(a, d, r, vpn, ppn, perm, v)} | vpn <= v < vpn + (k + 1) && v < MAXVPN
      ensures MappedAt(a, d, r, vpn, ppn, perm, v)
    {
      if v < vpn + k {
        assert MappedAt(a, c, r, vpn, ppn, perm, v) && Kept(c, d, r, v);
      } else if v < TRAPFRAME {
        assert PageSame(a, c, ppn + k);
      }
    }
    forall v {:trigger Kept(a, d, r, v)} | 0 <= v < MAXVPN && !(vpn <= v < vpn + (k + 1)) ensures Kept(a, d, r, v) {
      assert Kept(a, c, r, v) && Kept(c, d, r, v);
    }
  }

  // ---------------------------------------------------------------- unmapping a range

  /** Pages lo up to hi of r are not mapped, and nothing else has changed but that their memory may be free. */
  ghost predicate Unmapped(vm: VM, vm': VM, r: nat, lo: nat, hi: nat) {
    && OthersSame(vm, vm', r)
    && (forall v {:trigger Lookup(vm'.mem, r, v)} :: lo <= v < hi && v < MAXVPN ==> Lookup(vm'.mem, r, v) == NOPTE)
    && (forall v {:trigger Kept(vm, vm', r, v)} :: 0 <= v < MAXVPN && !(lo <= v < hi) ==> Kept(vm, vm', r, v))
  }

  /** A user page is unmapped and freed: its page first, then its entry. */
  function Freed(vm: VM, r: nat, vpn: nat): VM
    requires IsTable(vm.mem, LowTable(vm.mem, r, vpn)) && LowTable(vm.mem, r, vpn) != LeafPte(vm.mem, r, vpn).ppn
  {
    var p := LeafPte(vm.mem, r, vpn).ppn;
    vm.(mem := WithEntry(vm.mem[p := Filled(1)], LowTable(vm.mem, r, vpn), I0(vpn), NOPTE), home := vm.home - {p})
  }

  ghost predicate IsMapped(vm: VM, r: nat, vpn: nat) {
    HasTable(vm, r, vpn) && LeafPte(vm.mem, r, vpn).v
  }

  lemma {:induction false} FreeStep(vm: VM, r: nat, vpn: nat)
    requires Ok(vm) && IsMapped(vm, r, vpn) && vpn < TRAPFRAME
    ensures LowTable(vm.mem, r, vpn) != LeafPte(vm.mem, r, vpn).ppn
    ensures var vm' := Freed(vm, r, vpn);
      && Ok(vm') && Lookup(vm'.mem, r, vpn) == NOPTE && OthersSame(vm, vm', r)
      && (forall v {:trigger Kept(vm, vm', r, v)} :: 0 <= v < MAXVPN && v != vpn ==> Kept(vm, vm', r, v))
  {
    var t, p := LowTable(vm.mem, r, vpn), LeafPte(vm.mem, r, vpn).ppn;
    assert LowOk(vm, r, I2(vpn), I1(vpn)) && LeafOk(vm, r, vpn);
    var home1 := vm.home[p := Held];
    var vm1 := PteSet(vm, r, vpn, NOPTE, home1);
    FreeRehomed(vm, r, vpn);
    PteSetOk(vm, r, vpn, NOPTE, home1);
    DropHeld(vm1, p, Filled(1));
    var vm' := Freed(vm, r, vpn);
    assert vm'.mem == vm1.mem[p := Filled(1)];
    assert vm'.home == vm1.home - {p};
    PteSetLeaf(vm, r, vpn, NOPTE, home1, r, vpn);
    forall v {:trigger Kept(vm, vm', r, v)} | 0 <= v < MAXVPN && v != vpn ensures Kept(vm, vm', r, v) {
      PteSetLeaf(vm, r, vpn, NOPTE, home1, r, v);
      assert LeafOk(vm, r, v);
    }
  }

  lemma {:induction false} FreeRehomed(vm: VM, r: nat, vpn: nat)
    requires Ok(vm) && IsMapped(vm, r, vpn) && vpn < TRAPFRAME
    ensures Rehomed(vm, r, vpn, NOPTE, vm.home[LeafPte(vm.mem, r, vpn).ppn := Held])
  {
    assert LeafOk(vm, r, vpn);
    forall q | q in vm.home && vm.home[q] == Leaf(r, vpn) ensures q == LeafPte(vm.mem, r, vpn).ppn {
      assert HomeOk(vm, q);
    }
  }

  lemma {:induction false} ClearStep(vm: VM, r: nat, vpn: nat)
    requires Ok(vm) && IsMapped(vm, r, vpn) && TRAPFRAME <= vpn
    ensures var vm' := PteSet(vm, r, vpn, NOPTE, vm.home);
      && Ok(vm') && Lookup(vm'.mem, r, vpn) == NOPTE && OthersSame(vm, vm', r)
      && (forall v {:trigger Kept(vm, vm', r, v)} :: 0 <= v < MAXVPN && v != vpn ==> Kept(vm, vm', r, v))
  {
    var vm' := PteSet(vm, r, vpn, NOPTE, vm.home);
    assert LowOk(vm, r, I2(vpn), I1(vpn));
    forall q | q in vm.home ensures vm.home[q] != Leaf(r, vpn) {
      assert HomeOk(vm, q);
    }
    PteSetOk(vm, r, vpn, NOPTE, vm.home);
    PteSetLeaf(vm, r, vpn, NOPTE, vm.home, r, vpn);
    forall v {:trigger Kept(vm, vm', r, v)} | 0 <= v < MAXVPN && v != vpn ensures Kept(vm, vm', r, v) {
      PteSetLeaf(vm, r, vpn, NOPTE, vm.home, r, v);
      assert LeafOk(vm, r, v);
    }
  }

  lemma {:induction false} UnmapMore(a: VM, b: VM, c: VM, r: nat, lo: nat, v: nat)
    requires Unmapped(a, b, r, lo, v) && lo <= v < MAXVPN && OthersSame(b, c, r) && Lookup(c.mem, r, v) == NOPTE
    requires forall w {:trigger Kept(b, c, r, w)} :: 0 <= w < MAXVPN && w != v ==> Kept(b, c, r, w)
    ensures Unmapped(a, c, r, lo, v + 1)
  {
    OthersSameChain(a, b, c, r);
    forall w {:trigger Kept(a, c, r, w)} | 0 <= w < MAXVPN && !(lo <= w < v + 1) ensures Kept(a, c, r, w) {
      assert Kept(a, b, r, w) && Kept(b, c, r, w);
    }
    forall w {:trigger Lookup(c.mem, r, w)} | lo <= w < v + 1 && w < MAXVPN ensures Lookup(c.mem, r, w) == NOPTE {
      if w < v {
        assert Kept(b, c, r, w);
      }
    }
  }

  // ---------------------------------------------------------------- a fresh page

  /** Page vpn of r, and nothing else, has become a fresh page of the given bytes. */
  ghost predicate FreshAt(vm: VM, vm': VM, r: nat, vpn: nat, p: nat, bytes: seq<byte>, perm: Perm) {
    && OthersSame(vm, vm', r)
    && Lookup(vm'.mem, r, vpn) == LeafOf(perm, p) && UserPage(vm'.mem, r, vpn) == bytes
    && (forall v {:trigger Kept(vm, vm', r, v)} :: 0 <= v < MAXVPN && v != vpn ==> Kept(vm, vm', r, v))
  }

  /** A page taken from the free list and filled. */
  ghost predicate Taken(vm: VM, vm': VM, p: nat, bytes: seq<byte>) {
    p !in vm.home && p != 0 && vm' == vm.(mem := vm.mem[p := Data(bytes)], home := vm.home[p := Held])
  }

  lemma {:induction false} TakenKept(a: VM, b: VM, p: nat, bytes: seq<byte>, r: nat)
    requires Ok(a) && Taken(a, b, p, bytes) && r in a.spaces
    ensures Ok(b) && AllKept(a, b, r)
  {
    HoldPage(a, p, Data(bytes));
    UsesFit(a);
    SameMapsKept(a, b, r);
  }

  lemma {:induction false} FreshMapped(a: VM, b: VM, c: VM, r: nat, vpn: nat, p: nat, bytes: seq<byte>, perm: Perm)
    requires Ok(a) && Ok(c) && r in a.spaces && vpn < TRAPFRAME && Taken(a, b, p, bytes)
    requires Mapped(b, c, r, vpn, 1, p, perm)
    ensures FreshAt(a, c, r, vpn, p, bytes, perm)
  {
    UsesFit(a);
    TakenKept(a, b, p, bytes, r);
    assert MappedAt(b, c, r, vpn, p, perm, vpn);
    assert LeafOk(c, r, vpn);
    forall v {:trigger Kept(a, c, r, v)} | 0 <= v < MAXVPN && v != vpn ensures Kept(a, c, r, v) {
      assert Kept(a, b, r, v) && Kept(b, c, r, v);
    }
    forall q | q in a.home && !Owns(r, a.home[q]) ensures PageSame(a, c, q) {
      assert q in b.home && PageSame(b, c, q);
    }
  }

  /** When it cannot be mapped and is given back, nothing has changed. */
  lemma {:induction false} FreshDropped(a: VM, b: VM, c: VM, d: VM, r: nat, vpn: nat, p: nat, bytes: seq<byte>,
                                        perm: Perm)
    requires Ok(a) && Ok(c) && r in a.spaces && Taken(a, b, p, bytes) && Mapped(b, c, r, vpn, 0, p, perm)
    requires d == c.(mem := c.mem[p := Filled(1)], home := c.home - {p})
    ensures p in c.home && Ok(d) && AllKept(a, d, r) && OthersSame(a, d, r)
  {
    UsesFit(a);
    TakenKept(a, b, p, bytes, r);
    assert p in b.home && PageSame(b, c, p);
    DropHeld(c, p, Filled(1));
    UsesFit(c);
    SameMapsKept(c, d, r);
    forall v {:trigger Kept(a, d, r, v)} | 0 <= v < MAXVPN ensures Kept(a, d, r, v) {
      assert Kept(a, b, r, v) && Kept(b, c, r, v) && Kept(c, d, r, v);
    }
    forall q | q in a.home && !Owns(r, a.home[q]) ensures PageSame(a, d, q) {
      assert q in b.home && PageSame(b, c, q);
    }
  }

  // ---------------------------------------------------------------- growing, shrinking and copying

  function PagesUp(n: nat): nat {
    (n + PGSIZE - 1) / PGSIZE
  }

  lemma {:induction false} PagesUpOfPages(v: nat)
    ensures PagesUp(v * PGSIZE) == v
  {
  }

  lemma {:induction false} PagesUpBound(n: nat, v: nat)
    ensures v < PagesUp(n) <==> v * PGSIZE < n
  {
  }

  /** Pages lo up to hi of r are mapped with perm to pages of zeros; nothing else has changed. */
  ghost predicate Grown(vm: VM, vm': VM, r: nat, lo: nat, hi: nat, perm: Perm) {
    && OthersSame(vm, vm', r)
    && (forall v {:trigger ZeroAt(vm', r, v, perm)} :: lo <= v < hi ==> ZeroAt(vm', r, v, perm))
    && (forall v {:trigger Kept(vm, vm', r, v)} :: 0 <= v < MAXVPN && !(lo <= v < hi) ==> Kept(vm, vm', r, v))
  }

  ghost predicate ZeroAt(vm: VM, r: nat, v: nat, perm: Perm) {
    Lookup(vm.mem, r, v) == LeafOf(perm, Lookup(vm.mem, r, v).ppn) && UserPage(vm.mem, r, v) == Zeros()
  }

  lemma {:induction false} GrowMore(a: VM, b: VM, c: VM, r: nat, lo: nat, v: nat, p: nat, perm: Perm)
    requires Grown(a, b, r, lo, v, perm) && lo <= v < TRAPFRAME && FreshAt(b, c, r, v, p, Zeros(), perm)
    ensures Grown(a, c, r, lo, v + 1, perm)
  {
    OthersSameChain(a, b, c, r);
    forall w {:trigger ZeroAt(c, r, w, perm)} | lo <= w < v + 1 ensures ZeroAt(c, r, w, perm) {
      if w < v {
        assert ZeroAt(b, r, w, perm) && Kept(b, c, r, w);
      }
    }
    forall w {:trigger Kept(a, c, r, w)} | 0 <= w < MAXVPN && !(lo <= w < v + 1) ensures Kept(a, c, r, w) {
      assert Kept(a, b, r, w) && Kept(b, c, r, w);
    }
  }

  ghost predicate NoneMapped(vm: VM, r: nat, lo: nat, hi: nat) {
    forall v {:trigger Lookup(vm.mem, r, v)} :: lo <= v < hi && v < MAXVPN ==> Lookup(vm.mem, r, v) == NOPTE
  }

  /** Growing part of the way and then unmapping what was mapped comes to nothing. */
  lemma {:induction false} GrowUndone(a: VM, b: VM, c: VM, d: VM, r: nat, lo: nat, v: nat, hi: nat, perm: Perm)
    requires Grown(a, b, r, lo, v, perm) && lo <= v <= hi <= TRAPFRAME && NoneMapped(a, r, lo, hi)
    requires AllKept(b, c, r) && OthersSame(b, c, r) && Unmapped(c, d, r, lo, v)
    ensures AllKept(a, d, r) && OthersSame(a, d, r)
  {
    OthersSameChain(a, b, c, r);
    OthersSameChain(a, c, d, r);
    forall w {:trigger Kept(a, d, r, w)} | 0 <= w < MAXVPN ensures Kept(a, d, r, w) {
      if lo <= w < v {
        assert Lookup(a.mem, r, w) == Lookup(d.mem, r, w);
      } else {
        assert Kept(a, b, r, w) && Kept(b, c, r, w) && Kept(c, d, r, w);
      }
    }
  }

  function PermOf(e: Pte): Perm {
    Perm(e.r, e.w, e.x, e.u)
  }

  /** Page v of c is a copy of page v of the parent: mapped if that is, with the same permissions and the same bytes. */
  ghost predicate CopyAt(parent: VM, r0: nat, vm: VM, r1: nat, v: nat) {
    var e, f := Lookup(parent.mem, r0, v), Lookup(vm.mem, r1, v);
    e.v == f.v && PermOf(e) == PermOf(f) && UserPage(vm.mem, r1, v) == UserPage(parent.mem, r0, v)
  }

  /** The first hi pages of r1 are copies of those of r0; nothing else has changed. */
  ghost predicate Copied(a: VM, vm: VM, r0: nat, r1: nat, hi: nat) {
    && OthersSame(a, vm, r1)
    && (forall v {:trigger CopyAt(a, r0, vm, r1, v)} :: 0 <= v < hi ==> CopyAt(a, r0, vm, r1, v))
    && (forall v {:trigger Kept(a, vm, r1, v)} :: hi <= v < MAXVPN ==> Kept(a, vm, r1, v))
  }

  lemma {:induction false} CopyMore(a: VM, b: VM, c: VM, r0: nat, r1: nat, v: nat, p: nat)
    requires Copied(a, b, r0, r1, v) && v < TRAPFRAME && Lookup(a.mem, r0, v).v
    requires FreshAt(b, c, r1, v, p, UserPage(a.mem, r0, v), PermOf(Lookup(a.mem, r0, v)))
    ensures Copied(a, c, r0, r1, v + 1)
  {
    OthersSameChain(a, b, c, r1);
    forall w {:trigger CopyAt(a, r0, c, r1, w)} | 0 <= w < v + 1 ensures CopyAt(a, r0, c, r1, w) {
      if w < v {
        assert CopyAt(a, r0, b, r1, w) && Kept(b, c, r1, w);
      }
    }
    forall w {:trigger Kept(a, c, r1, w)} | v + 1 <= w < MAXVPN ensures Kept(a, c, r1, w) {
      assert Kept(a, b, r1, w) && Kept(b, c, r1, w);
    }
  }

  lemma {:induction false} CopySkip(a: VM, b: VM, r0: nat, r1: nat, v: nat, hi: nat)
    requires Copied(a, b, r0, r1, v) && v < hi <= TRAPFRAME && !Lookup(a.mem, r0, v).v && NoneMapped(a, r1, 0, hi)
    ensures Copied(a, b, r0, r1, v + 1)
  {
    assert Kept(a, b, r1, v);
    assert CopyAt(a, r0, b, r1, v);
  }

  lemma {:induction false} CopyUndone(a: VM, b: VM, c: VM, d: VM, r0: nat, r1: nat, v: nat, hi: nat)
    requires Copied(a, b, r0, r1, v) && v <= hi <= TRAPFRAME && NoneMapped(a, r1, 0, hi)
    requires AllKept(b, c, r1) && OthersSame(b, c, r1) && Unmapped(c, d, r1, 0, v)
    ensures AllKept(a, d, r1) && OthersSame(a, d, r1)
  {
    OthersSameChain(a, b, c, r1);
    OthersSameChain(a, c, d, r1);
    forall w {:trigger Kept(a, d, r1, w)} | 0 <= w < MAXVPN ensures Kept(a, d, r1, w) {
      if w < v {
        assert Lookup(a.mem, r1, w) == Lookup(d.mem, r1, w);
      } else {
        assert Kept(a, b, r1, w) && Kept(b, c, r1, w) && Kept(c, d, r1, w);
      }
    }
  }

  // ---------------------------------------------------------------- creating and freeing a space

  function RootAdded(vm: VM, p: nat): VM {
    vm.(mem := vm.mem[p := EmptyTable()], home := vm.home[p := Root(p)], spaces := vm.spaces + {p})
  }

  lemma {:induction false} AddRoot(vm: VM, p: nat)
    requires Ok(vm) && p != 0 && p !in vm.home
    ensures Ok(RootAdded(vm, p)) && Others(vm, RootAdded(vm, p), p) && p !in vm.spaces
    ensures NoneMapped(RootAdded(vm, p), p, 0, MAXVPN)
  {
    var vm' := RootAdded(vm, p);
    UsesFit(vm);
    assert RootOk(vm, p);
    forall s | s in vm.spaces ensures SameWalk(vm.mem, vm'.mem, s) {
      WalkFrame(vm, vm'.mem, s);
    }
    forall s: nat {:trigger RootOk(vm', s)} ensures RootOk(vm', s) {
      assert RootOk(vm, s);
    }
    forall s: nat, j: nat {:trigger MidOk(vm', s, j)} ensures MidOk(vm', s, j) {
      if s in vm.spaces {
        WalkFrame(vm, vm'.mem, s);
        assert MidOk(vm, s, j);
      }
    }
    forall s: nat, j: nat, k: nat {:trigger LowOk(vm', s, j, k)} ensures LowOk(vm', s, j, k) {
      if s in vm.spaces && L1(vm.mem, s, j) != 0 {
        assert MidOk(vm, s, j) && LowOk(vm, s, j, k);
      }
    }
    forall s: nat, v: nat {:trigger LeafOk(vm', s, v)} ensures LeafOk(vm', s, v) {
      if s in vm.spaces {
        assert LeafOk(vm, s, v);
      }
    }
    forall q: nat {:trigger HomeOk(vm', q)} ensures HomeOk(vm', q) {
      assert HomeOk(vm, q);
    }
    forall q | q in vm.home && !Owns(p, vm.home[q]) ensures PageSame(vm, vm', q) {
    }
    forall q | q in vm'.home && !Owns(p, vm'.home[q]) ensures q in vm.home && vm.home[q] == vm'.home[q] {
    }
  }

  /** A node is the node itself or a table below it. */
  predicate InTree(node: Node, top: Node) {
    match top
    case Root(r) => IsTableNode(node) && node.root == r
    case Mid(r, i2) => node == top || (node.Low? && node.root == r && node.i2 == i2)
    case _ => node == top
  }

  /** The table that entry i of a table leads to. */
  function ChildNode(top: Node, i: nat): Node
    requires top.Root? || top.Mid?
  {
    if top.Root? then Mid(top.root, i) else Low(top.root, top.i2, i)
  }

  /** A node is below one of the first n entries of a table. */
  predicate InChildren(node: Node, top: Node, n: nat) {
    match top
    case Root(r) => (node.Mid? || node.Low?) && node.root == r && node.i2 < n
    case Mid(r, i2) => node.Low? && node.root == r && node.i2 == i2 && node.i1 < n
    case _ => false
  }

  ghost predicate TreePage(vm: VM, p: nat, top: Node) {
    p in vm.home && InTree(vm.home[p], top)
  }

  ghost predicate ChildPage(vm: VM, p: nat, top: Node, n: nat) {
    p in vm.home && InChildren(vm.home[p], top, n)
  }

  /** Pages for which gone holds have been freed; the others are used as they were. */
  ghost predicate TreeFreed(vm: VM, top: Node, home: map<nat, Node>, home': map<nat, Node>) {
    && (forall p {:trigger p in home'} :: p in home' ==> p in home && home'[p] == home[p] && !TreePage(vm, p, top))
    && (forall p {:trigger p in home} :: p in home && !TreePage(vm, p, top) ==> p in home')
  }

  ghost predicate ChildrenFreed(vm: VM, top: Node, n: nat, home: map<nat, Node>, home': map<nat, Node>) {
    && (forall p {:trigger p in home'} :: p in home' ==> p in home && home'[p] == home[p] && !ChildPage(vm, p, top, n))
    && (forall p {:trigger p in home} :: p in home && !ChildPage(vm, p, top, n) ==> p in home')
  }

  /** Every page outside the tree holds what it held. */
  ghost predicate OutsideSame(vm: VM, top: Node, mem: map<nat, Page>, mem': map<nat, Page>) {
    forall p {:trigger p in mem} :: p in mem && !TreePage(vm, p, top) ==> p in mem' && mem'[p] == mem[p]
  }

  /** The tree below top is as it was in vm, but for entries and children below n. */
  ghost predicate Intact(vm: VM, top: Node, n: nat, mem: map<nat, Page>, home: map<nat, Node>) {
    forall p {:trigger IntactAt(vm, top, n, mem, home, p)} :: 0 <= p ==> IntactAt(vm, top, n, mem, home, p)
  }

  ghost predicate IntactAt(vm: VM, top: Node, n: nat, mem: map<nat, Page>, home: map<nat, Node>, p: nat) {
    TreePage(vm, p, top) && !ChildPage(vm, p, top, n) ==>
      && p in home && home[p] == vm.home[p]
      && (vm.home[p] != top ==> p in mem && p in vm.mem && mem[p] == vm.mem[p])
  }

  /** The table itself from entry n on. */
  ghost predicate EntriesLeft(vm: VM, t: nat, n: nat, mem: map<nat, Page>) {
    && IsTable(mem, t) && IsTable(vm.mem, t)
    && forall i {:trigger mem[t].ptes[i]} :: n <= i < ENTRIES ==> mem[t].ptes[i] == vm.mem[t].ptes[i]
  }

  /** A valid entry of a table above the lowest level leads to the child there; an invalid one has none. */
  lemma {:induction false} ChildOf(vm: VM, t: nat, top: Node, i: nat)
    requires Ok(vm) && Used(vm, t, top) && IsTableNode(top) && i < ENTRIES && IsTable(vm.mem, t)
    requires NoneMapped(vm, top.root, 0, MAXVPN)
    ensures Entry(vm.mem, t, i).v ==>
      (top.Root? || top.Mid?) && IsPointer(Entry(vm.mem, t, i)) && Used(vm, Entry(vm.mem, t, i).ppn, ChildNode(top, i))
    ensures !Entry(vm.mem, t, i).v ==> forall p {:trigger ChildPage(vm, p, top, i)} :: 0 <= p ==>
      ChildPage(vm, p, top, i + 1) == ChildPage(vm, p, top, i)
  {
    assert HomeOk(vm, t);
    match top
    case Root(r) =>
      assert MidOk(vm, r, i);
      if !Entry(vm.mem, t, i).v { NoChild(vm, t, top, i); }
    case Mid(r, i2) =>
      assert MidOk(vm, r, i2) && LowOk(vm, r, i2, i);
      if !Entry(vm.mem, t, i).v { NoChild(vm, t, top, i); }
    case Low(r, i2, i1) =>
      assert MidOk(vm, r, i2) && LowOk(vm, r, i2, i1);
      IndicesOfVpn(i2, i1, i);
      assert Lookup(vm.mem, r, Vpn(i2, i1, i)) == NOPTE;
  }

  lemma {:induction false} NoChild(vm: VM, t: nat, top: Node, i: nat)
    requires Ok(vm) && Used(vm, t, top) && (top.Root? || top.Mid?) && i < ENTRIES && IsTable(vm.mem, t)
    requires !Entry(vm.mem, t, i).v
    ensures forall p {:trigger ChildPage(vm, p, top, i)} :: 0 <= p ==>
      ChildPage(vm, p, top, i + 1) == ChildPage(vm, p, top, i)
  {
    assert HomeOk(vm, t);
    forall p {:trigger ChildPage(vm, p, top, i)} | 0 <= p
      ensures ChildPage(vm, p, top, i + 1) == ChildPage(vm, p, top, i)
    {
      assert HomeOk(vm, p);
    }
  }

  /** How far a walk to free tables has come: children below n are gone. */
  ghost predicate Freeing(vm: VM, t: nat, top: Node, n: nat,
                          mem: map<nat, Page>, home: map<nat, Node>, mem': map<nat, Page>, home': map<nat, Node>) {
    && ChildrenFreed(vm, top, n, home, home') && Intact(vm, top, n, mem', home')
    && EntriesLeft(vm, t, n, mem') && OutsideSame(vm, top, mem, mem')
  }

  /** A tree not yet touched. */
  ghost predicate Untouched(vm: VM, t: nat, top: Node, mem: map<nat, Page>, home: map<nat, Node>) {
    Used(vm, t, top) && IsTableNode(top) && Intact(vm, top, 0, mem, home) && EntriesLeft(vm, t, 0, mem)
  }

  lemma {:induction false} ChildUntouched(vm: VM, t: nat, top: Node, i: nat, c: nat,
                                          mem: map<nat, Page>, home: map<nat, Node>)
    requires Ok(vm) && (top.Root? || top.Mid?) && Used(vm, c, ChildNode(top, i)) && i < ENTRIES
    requires Intact(vm, top, i, mem, home)
    ensures Untouched(vm, c, ChildNode(top, i), mem, home)
  {
    UseFits(vm, c);
    assert IntactAt(vm, top, i, mem, home, c);
    var child := ChildNode(top, i);
    forall p: nat {:trigger IntactAt(vm, child, 0, mem, home, p)} ensures IntactAt(vm, child, 0, mem, home, p) {
      assert IntactAt(vm, top, i, mem, home, p);
    }
  }

  lemma {:induction false} ChildFreed(vm: VM, t: nat, top: Node, i: nat,
                                      m0: map<nat, Page>, h0: map<nat, Node>, m1: map<nat, Page>, h1: map<nat, Node>,
                                      m2: map<nat, Page>, h2: map<nat, Node>)
    requires Ok(vm) && (top.Root? || top.Mid?) && i < ENTRIES && Used(vm, t, top)
    requires Freeing(vm, t, top, i, m0, h0, m1, h1)
    requires TreeFreed(vm, ChildNode(top, i), h1, h2) && OutsideSame(vm, ChildNode(top, i), m1, m2)
    ensures IsTable(m2, t) && Freeing(vm, t, top, i + 1, m0, h0, WithEntry(m2, t, i, NOPTE), h2)
  {
    var child := ChildNode(top, i);
    forall p: nat ensures ChildPage(vm, p, top, i + 1) == (ChildPage(vm, p, top, i) || TreePage(vm, p, child)) {
    }
    assert t in m1 && !TreePage(vm, t, child);
    var m3 := WithEntry(m2, t, i, NOPTE);
    assert EntriesLeft(vm, t, i + 1, m3);
    assert ChildrenFreed(vm, top, i + 1, h0, h2);
    assert OutsideSame(vm, top, m0, m3) by {
      forall p | p in m0 && !TreePage(vm, p, top) ensures p in m3 && m3[p] == m0[p] {
        assert p in m1 && !TreePage(vm, p, child) && p != t;
      }
    }
    IntactMore(vm, t, top, i, m1, h1, m2, h2);
  }

  lemma {:induction false} IntactMore(vm: VM, t: nat, top: Node, i: nat, m1: map<nat, Page>, h1: map<nat, Node>,
                                      m2: map<nat, Page>, h2: map<nat, Node>)
    requires Ok(vm) && (top.Root? || top.Mid?) && i < ENTRIES && Used(vm, t, top) && IsTable(m2, t)
    requires Intact(vm, top, i, m1, h1)
    requires TreeFreed(vm, ChildNode(top, i), h1, h2) && OutsideSame(vm, ChildNode(top, i), m1, m2)
    ensures Intact(vm, top, i + 1, WithEntry(m2, t, i, NOPTE), h2)
  {
    var m3, child := WithEntry(m2, t, i, NOPTE), ChildNode(top, i);
    forall p: nat {:trigger IntactAt(vm, top, i + 1, m3, h2, p)} ensures IntactAt(vm, top, i + 1, m3, h2, p) {
      assert IntactAt(vm, top, i, m1, h1, p);
      if TreePage(vm, p, top) && !ChildPage(vm, p, top, i + 1) {
        assert !ChildPage(vm, p, top, i) && !TreePage(vm, p, child);
        assert p in h1 && p in h2;
      }
    }
  }

  lemma {:induction false} ChildSkipped(vm: VM, t: nat, top: Node, i: nat,
                                        m0: map<nat, Page>, h0: map<nat, Node>, m1: map<nat, Page>, h1: map<nat, Node>)
    requires Freeing(vm, t, top, i, m0, h0, m1, h1) && i < ENTRIES
    requires forall p {:trigger ChildPage(vm, p, top, i)} :: 0 <= p ==>
      ChildPage(vm, p, top, i + 1) == ChildPage(vm, p, top, i)
    ensures Freeing(vm, t, top, i + 1, m0, h0, m1, h1)
  {
    forall p | p in h1 ensures !ChildPage(vm, p, top, i + 1) {
      assert !ChildPage(vm, p, top, i);
    }
    forall p | p in h0 && !ChildPage(vm, p, top, i + 1) ensures p in h1 {
      assert !ChildPage(vm, p, top, i);
    }
    forall p: nat {:trigger IntactAt(vm, top, i + 1, m1, h1, p)} ensures IntactAt(vm, top, i + 1, m1, h1, p) {
      assert IntactAt(vm, top, i, m1, h1, p);
      assert ChildPage(vm, p, top, i + 1) == ChildPage(vm, p, top, i);
    }
  }

  /** The last page of the tree to go is the table itself. */
  lemma {:induction false} TreeGone(vm: VM, t: nat, top: Node,
                                    m0: map<nat, Page>, h0: map<nat, Node>, m1: map<nat, Page>, h1: map<nat, Node>)
    requires Ok(vm) && Used(vm, t, top) && IsTableNode(top) && Freeing(vm, t, top, ENTRIES, m0, h0, m1, h1)
    ensures t in h1 && t != 0 && TreeFreed(vm, top, h0, h1 - {t}) && OutsideSame(vm, top, m0, m1[t := Filled(1)])
  {
    assert TreePage(vm, t, top) && !ChildPage(vm, t, top, ENTRIES);
    assert IntactAt(vm, top, ENTRIES, m1, h1, t);
    assert HomeOk(vm, t);
    forall p: nat ensures TreePage(vm, p, top) == (p == t || ChildPage(vm, p, top, ENTRIES)) {
      assert HomeOk(vm, p);
    }
  }

  lemma {:induction false} RootUntouched(vm: VM, r: nat)
    requires Ok(vm) && r in vm.spaces
    ensures Untouched(vm, r, Root(r), vm.mem, vm.home)
  {
    assert RootOk(vm, r);
    UsesFit(vm);
    forall p: nat {:trigger IntactAt(vm, Root(r), 0, vm.mem, vm.home, p)}
      ensures IntactAt(vm, Root(r), 0, vm.mem, vm.home, p)
    {
    }
  }

  /** No page is r's. */
  ghost predicate OwnsNothing(vm: VM, r: nat) {
    r !in vm.spaces && forall p {:trigger p in vm.home} :: p in vm.home ==> !Owns(r, vm.home[p])
  }

  /**
   A space with nothing mapped owns only its tables; once they are freed it is gone and the others are as they were.
   */
  lemma {:induction false} RemoveSpace(vm: VM, vm': VM, r: nat)
    requires Ok(vm) && r in vm.spaces && NoneMapped(vm, r, 0, MAXVPN) && vm'.spaces == vm.spaces - {r}
    requires TreeFreed(vm, Root(r), vm.home, vm'.home) && OutsideSame(vm, Root(r), vm.mem, vm'.mem)
    ensures Ok(vm') && Others(vm, vm', r) && OwnsNothing(vm', r)
  {
    UsesFit(vm);
    forall p | p in vm.home ensures TreePage(vm, p, Root(r)) == Owns(r, vm.home[p]) {
      assert HomeOk(vm, p);
      assert vm.home[p].Leaf? ==> Lookup(vm.mem, vm.home[p].root, vm.home[p].vpn).v;
    }
    assert Others(vm, vm', r);
    RemainingOk(vm, vm', r);
  }

  lemma {:induction false} RemainingOk(vm: VM, vm': VM, r: nat)
    requires Ok(vm) && r in vm.spaces && vm'.spaces == vm.spaces - {r} && Others(vm, vm', r)
    requires forall p {:trigger p in vm'.home} :: p in vm'.home ==> !Owns(r, vm'.home[p])
    ensures Ok(vm')
  {
    UsesFit(vm);
    forall s | s in vm'.spaces ensures SameWalk(vm.mem, vm'.mem, s) {
      WalkFrame(vm, vm'.mem, s);
    }
    forall s: nat {:trigger RootOk(vm', s)} ensures RootOk(vm', s) {
      assert RootOk(vm, s);
    }
    forall s: nat, j: nat {:trigger MidOk(vm', s, j)} ensures MidOk(vm', s, j) {
      if s in vm'.spaces {
        WalkFrame(vm, vm'.mem, s);
        assert MidOk(vm, s, j);
      }
    }
    forall s: nat, j: nat, k: nat {:trigger LowOk(vm', s, j, k)} ensures LowOk(vm', s, j, k) {
      if s in vm'.spaces && L1(vm.mem, s, j) != 0 {
        assert MidOk(vm, s, j) && LowOk(vm, s, j, k);
      }
    }
    forall s: nat, v: nat {:trigger LeafOk(vm', s, v)} ensures LeafOk(vm', s, v) {
      if s in vm'.spaces {
        assert LeafOk(vm, s, v);
      }
    }
    forall q: nat {:trigger HomeOk(vm', q)} ensures HomeOk(vm', q) {
      assert HomeOk(vm, q);
    }
  }

  lemma {:induction false} OthersChain(a: VM, b: VM, c: VM, r: nat)
    requires Others(a, b, r) && Others(b, c, r)
    ensures Others(a, c, r)
  {
  }

  /**
   A space that did not exist, was created, used in any way that touched no one else's pages, and is gone,
   has left no trace: every page is used as before, and the free list holds the same pages.
   */
  lemma {:induction false} LifetimeLeaksNothing(a: VM, freeA: seq<nat>, b: VM, freeB: seq<nat>, all: set<nat>, r: nat)
    requires Partition(freeA, a.home, all) && Partition(freeB, b.home, all)
    requires OwnsNothing(a, r) && OwnsNothing(b, r) && Others(a, b, r)
    ensures b.home == a.home && forall p :: p in freeA <==> p in freeB
  {
    forall p: nat ensures p in freeA <==> p in freeB {
      assert p in all <==> p in freeA || p in a.home;
      assert p in all <==> p in freeB || p in b.home;
      if p in a.home { assert PageSame(a, b, p); }
    }
    assert forall p :: p in a.home <==> p in b.home by {
      forall p | p in a.home ensures p in b.home { assert PageSame(a, b, p); }
    }
    forall p | p in a.home ensures b.home[p] == a.home[p] { assert PageSame(a, b, p); }
  }

  /** No physical page is mapped twice: not in two spaces, and not at two addresses of one. */
  lemma {:induction false} NoSharing(vm: VM, r: nat, v: nat, s: nat, w: nat)
    requires Ok(vm) && r in vm.spaces && s in vm.spaces && v < TRAPFRAME && w < TRAPFRAME
    requires Lookup(vm.mem, r, v).v && Lookup(vm.mem, s, w).v && Lookup(vm.mem, r, v).ppn == Lookup(vm.mem, s, w).ppn
    ensures r == s && v == w
  {
    assert LeafOk(vm, r, v) && LeafOk(vm, s, w);
  }

  /** Mapping a page above user memory touches no one else's pages. */
  lemma {:induction false} MappedHigh(a: VM, b: VM, r: nat, vpn: nat, k: nat, ppn: nat, perm: Perm)
    requires Mapped(a, b, r, vpn, k, ppn, perm) && TRAPFRAME <= vpn
    ensures OthersSame(a, b, r)
  {
  }

  /** A new space for a process: the trampoline and the trapframe, and no user memory. */
  ghost predicate IsNewSpace(vm: VM, r: nat, tramp: nat, tf: nat) {
    && NoneMapped(vm, r, 0, TRAPFRAME)
    && Lookup(vm.mem, r, TRAMPOLINE) == LeafOf(Perm(true, false, true, false), tramp)
    && Lookup(vm.mem, r, TRAPFRAME) == LeafOf(Perm(true, true, false, false), tf)
  }

  lemma {:induction false} NoneMappedThen(a: VM, b: VM, r: nat, lo: nat, hi: nat)
    requires NoneMapped(a, r, lo, hi) && hi <= MAXVPN
    requires forall v {:trigger Kept(a, b, r, v)} :: lo <= v < hi ==> Kept(a, b, r, v)
    ensures NoneMapped(b, r, lo, hi)
  {
    forall v {:trigger Lookup(b.mem, r, v)} | lo <= v < hi && v < MAXVPN ensures Lookup(b.mem, r, v) == NOPTE {
      assert Kept(a, b, r, v);
    }
  }

  /** Undone: as before, whatever happened to a space that did not exist before. */
  lemma {:induction false} SpaceUndone(a: VM, b: VM, c: VM, r: nat)
    requires Ok(a) && r !in a.spaces && Others(a, b, r) && Others(b, c, r) && OwnsNothing(c, r)
    ensures c.home == a.home && forall p {:trigger p in a.home} :: p in a.home ==> PageSame(a, c, p)
  {
    OthersChain(a, b, c, r);
    forall p | p in a.home ensures !Owns(r, a.home[p]) {
      assert HomeOk(a, p);
    }
    assert forall p :: p in c.home ==> p in a.home;
  }

  datatype MapResult = Done | NoMemory | Remap

  class Memory {
    var free: seq<nat>
    var mem: map<nat, Page>
    ghost var home: map<nat, Node>
    ghost var spaces: set<nat>
    ghost const all: set<nat>

    ghost function State(): VM
      reads this
    {
      VM(mem, home, spaces)
    }

    ghost predicate Valid()
      reads this
    {
      Ok(State()) && Partition(free, home, all)
    }

    /** kinit(): the free list holds every page from lo up to hi, and no page is in use. */
    constructor (lo: nat, hi: nat)
      requires 0 < lo <= hi
      ensures Valid() && home == map[] && spaces == {} && all == PageSet(lo, hi)
    {
      free, mem, home, spaces := [], map[], map[], {};
      all := PageSet(lo, hi);
      new;
      var p := lo;
      while p < hi
        invariant lo <= p <= hi && NoDup(free) && home == map[] && spaces == {}
        invariant forall q {:trigger q in free} :: q in free <==> lo <= q < p
      {
        mem := mem[p := Filled(1)];
        assert ([p] + free)[1..] == free;
        free := [p] + free;
        p := p + 1;
      }
    }

    method Kalloc() returns (p: nat)
      requires Valid()
      modifies `free, `mem, `home
      ensures Valid() && (p == 0 <==> old(free) == [])
      ensures p == 0 ==> free == old(free) && mem == old(mem) && home == old(home)
      ensures p != 0 ==>
        && p !in old(home) && free == old(free)[1..] && p == old(free)[0]
        && mem == old(mem)[p := Filled(5)] && home == old(home)[p := Held]
      ensures SameMaps(old(State()), State())
    {
      if free == [] { return 0; }
      p := free[0];
      PartitionTaken(free, home, all, Held);
      HoldPage(State(), p, Filled(5));
      free := free[1..];
      mem := mem[p := Filled(5)];
      home := home[p := Held];
    }

    /** Whoever held the page gives it up; no one may use it after this. */
    method Kfree(p: nat)
      requires Partition(free, home, all) && p in home && p != 0
      modifies `free, `mem, `home
      ensures Partition(free, home, all)
      ensures free == [p] + old(free) && mem == old(mem)[p := Filled(1)] && home == old(home) - {p}
    {
      PartitionReturned(free, home, all, p);
      free := [p] + free;
      mem := mem[p := Filled(1)];
      home := home - {p};
    }

    /** The part of walk() that puts a new table under the one at a level. */
    method NewTable(t: nat, r: nat, vpn: nat, level: nat) returns (p: nat)
      requires Valid() && r in spaces && vpn < MAXVPN && (level == 2 || level == 1)
      requires t != 0 && t == TableAt(mem, r, vpn, level) && IsTable(mem, t) && !Entry(mem, t, PX(level, vpn)).v
      modifies `free, `mem, `home
      ensures Valid() && SameMaps(old(State()), State()) && TablesAdded(old(State()), State(), r)
      ensures p != 0 ==> p == TableAt(mem, r, vpn, level - 1) && old(free) != [] && free == old(free)[1..]
      ensures p == 0 ==> free == old(free) == []
      ensures p == 0 ==> mem == old(mem) && home == old(home)
    {
      ghost var a := State();
      p := Kalloc();
      if p == 0 { return; }
      ghost var b := State();
      UsesFit(a);
      assert t in a.home by { assert RootOk(a, r) && MidOk(a, r, I2(vpn)); }
      assert Entry(mem, t, PX(level, vpn)) == Entry(a.mem, t, PX(level, vpn));
      assert t == TableAt(b.mem, r, vpn, level);
      LinkBelow(b, r, vpn, level, p);
      mem := Linked(mem, t, PX(level, vpn), p);
      home := home[p := Below(r, vpn, level)];
      OneTableAdded(a, b, State(), r, vpn, level, p);
    }

    /** The table whose entry I0(vpn) maps vpn, or 0 if there is none; with alloc, only if memory runs out. */
    method Walk(r: nat, vpn: nat, alloc: bool) returns (t: nat)
      requires Valid() && r in spaces && vpn < MAXVPN
      modifies `free, `mem, `home
      ensures Valid() && SameMaps(old(State()), State()) && TablesAdded(old(State()), State(), r)
      ensures t == LowTable(mem, r, vpn)
      ensures t != 0 ==> HasTable(State(), r, vpn)
      ensures !alloc ==> mem == old(mem) && home == old(home) && free == old(free)
      ensures alloc && t == 0 ==> |old(free)| < 2
      ensures |old(free)| <= |free| + 2 && |free| <= |old(free)|
    {
      assert RootOk(State(), r);
      t := r;
      var level := 2;
      while level > 0
        invariant 0 <= level <= 2 && Valid() && spaces == old(spaces)
        invariant SameMaps(old(State()), State()) && TablesAdded(old(State()), State(), r)
        invariant t == TableAt(mem, r, vpn, level) && t != 0
        invariant !alloc ==> mem == old(mem) && home == old(home) && free == old(free)
        invariant |old(free)| <= |free| + (2 - level) && |free| <= |old(free)|
      {
        TableAtIsTable(State(), r, vpn, level);
        var e := mem[t].ptes[PX(level, vpn)];
        assert MidOk(State(), r, I2(vpn)) && LowOk(State(), r, I2(vpn), I1(vpn));
        if e.v {
          t := e.ppn;
        } else {
          if !alloc { return 0; }
          ghost var before := State();
          t := NewTable(t, r, vpn, level);
          TablesAddedChain(old(State()), before, State(), r);
          if t == 0 { return 0; }
        }
        level := level - 1;
      }
      TableAtIsTable(State(), r, vpn, 0);
    }

    /** One turn of mappages(). */
    method MapOne(r: nat, vpn: nat, p: nat, perm: Perm) returns (o: MapResult, ghost walked: VM)
      requires Valid() && r in spaces && vpn < MAXVPN && perm.r && Mappable(State(), vpn, p)
      requires perm.u ==> vpn < TRAPFRAME
      modifies `free, `mem, `home
      ensures Valid() && Ok(walked) && AllKept(old(State()), walked, r) && OthersSame(old(State()), walked, r)
      ensures o != Done ==> State() == walked
      ensures o == Done ==> HasTable(walked, r, vpn) && !LeafPte(walked.mem, r, vpn).v && Mappable(walked, vpn, p)
      ensures o == Done ==> State() == PteSet(walked, r, vpn, LeafOf(perm, p), HomeMapped(walked.home, r, vpn, p))
      ensures o == Remap <==> Lookup(old(mem), r, vpn).v
      ensures o == NoMemory ==> |old(free)| < 2
      ensures |old(free)| <= |free| + 2 && |free| <= |old(free)|
    {
      ghost var b := State();
      var t := Walk(r, vpn, true);
      walked := State();
      TablesAddedKept(b, walked, r);
      assert Kept(b, walked, r, vpn);
      if t == 0 { return NoMemory, walked; }
      if mem[t].ptes[I0(vpn)].v { return Remap, walked; }
      MapStepOk(walked, r, vpn, p, perm);
      mem := WithEntry(mem, t, I0(vpn), LeafOf(perm, p));
      home := HomeMapped(home, r, vpn, p);
      o := Done;
    }

    /** The same, in the course of mapping a range. */
    method MapTurn(r: nat, vpn: nat, i: nat, ppn: nat, perm: Perm, ghost a: VM) returns (o: MapResult)
      requires Valid() && r in spaces && vpn + i < MAXVPN && perm.r
      requires Mapped(a, State(), r, vpn, i, ppn, perm) && MappableAt(a, vpn, ppn, i)
      requires perm.u ==> vpn + i < TRAPFRAME
      modifies `free, `mem, `home
      ensures Valid() && Mapped(a, State(), r, vpn, if o == Done then i + 1 else i, ppn, perm)
      ensures o == Remap <==> Lookup(a.mem, r, vpn + i).v
      ensures o == NoMemory ==> |old(free)| < 2
      ensures |old(free)| <= |free| + 2 && |free| <= |old(free)|
    {
      ghost var b := State();
      assert Kept(a, b, r, vpn + i);
      NextMappable(a, b, r, vpn, i, ppn, perm);
      ghost var c: VM;
      o, c := MapOne(r, vpn + i, ppn + i, perm);
      MappedThenKept(a, b, c, r, vpn, i, ppn, perm);
      if o == Done {
        MapStepKept(c, r, vpn + i, ppn + i, perm);
        MapMore(a, c, State(), r, vpn, i, ppn, perm);
      }
    }

    /**
     Maps n pages from vpn to n pages from ppn; stops, with the first k mapped, when out of memory or at a mapped page.
     */
    method Mappages(r: nat, vpn: nat, n: nat, ppn: nat, perm: Perm) returns (o: MapResult, ghost k: nat)
      requires Valid() && r in spaces && 0 < n && vpn + n <= MAXVPN && perm.r && (perm.u ==> vpn + n <= TRAPFRAME)
      requires forall i {:trigger MappableAt(State(), vpn, ppn, i)} :: 0 <= i < n ==> MappableAt(State(), vpn, ppn, i)
      modifies `free, `mem, `home
      ensures Valid() && k <= n && Mapped(old(State()), State(), r, vpn, k, ppn, perm)
      ensures o == Done <==> k == n
      ensures o == Remap ==> Lookup(old(mem), r, vpn + k).v
      ensures o == NoMemory ==> |old(free)| < 2 * n && !Lookup(old(mem), r, vpn + k).v
      ensures |old(free)| <= |free| + 2 * n && |free| <= |old(free)|
    {
      ghost var a := State();
      k := 0;
      var i := 0;
      while true
        invariant 0 <= i < n && k == i && Valid() && r in spaces
        invariant Mapped(a, State(), r, vpn, i, ppn, perm)
        invariant |old(free)| <= |free| + 2 * i && |free| <= |old(free)|
        decreases n - i
      {
        assert MappableAt(a, vpn, ppn, i);
        o := MapTurn(r, vpn, i, ppn, perm, a);
        if o != Done { return o, k; }
        k := i + 1;
        if i == n - 1 { return Done, k; }
        i := i + 1;
      }
    }

    /** One turn of uvmunmap(). */
    method UnmapOne(r: nat, vpn: nat, doFree: bool, ghost a: VM, ghost lo: nat)
      requires Valid() && r in spaces && lo <= vpn < MAXVPN && (doFree <==> vpn < TRAPFRAME)
      requires Unmapped(a, State(), r, lo, vpn)
      modifies `free, `mem, `home
      ensures Valid() && Unmapped(a, State(), r, lo, vpn + 1)
      ensures |old(free)| <= |free|
    {
      ghost var b := State();
      var t := Walk(r, vpn, false);
      if t == 0 || !mem[t].ptes[I0(vpn)].v {
        assert Kept(b, State(), r, vpn);
        UnmapMore(a, b, State(), r, lo, vpn);
        return;
      }
      assert LeafOk(b, r, vpn);
      if doFree {
        FreeStep(b, r, vpn);
        Kfree(mem[t].ptes[I0(vpn)].ppn);
      } else {
        ClearStep(b, r, vpn);
      }
      mem := WithEntry(mem, t, I0(vpn), NOPTE);
      UnmapMore(a, b, State(), r, lo, vpn);
    }

    /** Unmaps n pages from vpn, mapped or not; the user pages among them are freed. */
    method Uvmunmap(r: nat, vpn: nat, n: nat, doFree: bool)
      requires Valid() && r in spaces && vpn + n <= MAXVPN
      requires if doFree then vpn + n <= TRAPFRAME else TRAPFRAME <= vpn
      modifies `free, `mem, `home
      ensures Valid() && Unmapped(old(State()), State(), r, vpn, vpn + n) && |old(free)| <= |free|
    {
      ghost var a := State();
      var v := vpn;
      while v < vpn + n
        invariant vpn <= v <= vpn + n && Valid() && r in spaces && |old(free)| <= |free|
        invariant Unmapped(a, State(), r, vpn, v)
      {
        UnmapOne(r, v, doFree, a, vpn);
        v := v + 1;
      }
    }

    method KallocFilled(bytes: seq<byte>) returns (p: nat)
      requires Valid() && |bytes| == PGSIZE
      modifies `free, `mem, `home
      ensures Valid()
      ensures p == 0 ==> free == old(free) == [] && State() == old(State())
      ensures p != 0 ==> Taken(old(State()), State(), p, bytes) && p in old(free) && |free| + 1 == |old(free)|
    {
      ghost var a := State();
      p := Kalloc();
      if p == 0 { return; }
      FillHeld(State(), p, Data(bytes));
      mem := mem[p := Data(bytes)];
      assert mem == a.mem[p := Data(bytes)];
    }

    /**
     The part that uvmalloc(), uvmcopy() and vmfault() share: a page is taken, filled and mapped at vpn,
     or given back if it cannot be.  That happens only when memory is all but out.
     */
    method MapFresh(r: nat, vpn: nat, bytes: seq<byte>, perm: Perm) returns (p: nat)
      requires Valid() && r in spaces && vpn < TRAPFRAME && !Lookup(mem, r, vpn).v && perm.r && |bytes| == PGSIZE
      modifies `free, `mem, `home
      ensures Valid()
      ensures p != 0 ==> FreshAt(old(State()), State(), r, vpn, p, bytes, perm) && p in old(free)
      ensures p == 0 ==> AllKept(old(State()), State(), r) && OthersSame(old(State()), State(), r)
      ensures p == 0 ==> |old(free)| < 3
      ensures |old(free)| <= |free| + 3 && |free| <= |old(free)|
    {
      ghost var a := State();
      p := KallocFilled(bytes);
      if p == 0 { return; }
      var ok := MapTaken(r, vpn, p, bytes, perm, a);
      if !ok { return 0; }
    }

    /** The rest of it, once the page is taken. */
    method MapTaken(r: nat, vpn: nat, p: nat, bytes: seq<byte>, perm: Perm, ghost a: VM) returns (ok: bool)
      requires Valid() && Ok(a) && r in a.spaces && vpn < TRAPFRAME && !Lookup(a.mem, r, vpn).v && perm.r &&
        |bytes| == PGSIZE
      requires Taken(a, State(), p, bytes)
      modifies `free, `mem, `home
      ensures Valid()
      ensures ok ==> FreshAt(a, State(), r, vpn, p, bytes, perm) && |old(free)| <= |free| + 2 && |free| <= |old(free)|
      ensures !ok ==> AllKept(a, State(), r) && OthersSame(a, State(), r)
      ensures !ok ==> |old(free)| < 2 && |old(free)| <= |free| + 1 && |free| <= |old(free)| + 1
    {
      ghost var b := State();
      TakenKept(a, b, p, bytes, r);
      assert Kept(a, b, r, vpn);
      assert MappableAt(b, vpn, p, 0);
      var o, k := Mappages(r, vpn, 1, p, perm);
      ok := o == Done;
      if ok {
        FreshMapped(a, b, State(), r, vpn, p, bytes, perm);
      } else {
        ghost var c := State();
        FreshDropped(a, b, c, c.(mem := c.mem[p := Filled(1)], home := c.home - {p}), r, vpn, p, bytes, perm);
        Kfree(p);
      }
    }

    /** Shrinks from oldsz to newsz bytes; asked to grow, does nothing. */
    method Uvmdealloc(r: nat, oldsz: nat, newsz: nat) returns (sz: nat)
      requires Valid() && r in spaces && PagesUp(oldsz) <= TRAPFRAME
      modifies `free, `mem, `home
      ensures Valid() && (sz == if newsz >= oldsz then oldsz else newsz) && |old(free)| <= |free|
      ensures newsz >= oldsz ==> State() == old(State()) && free == old(free)
      ensures Unmapped(old(State()), State(), r, PagesUp(newsz), PagesUp(oldsz))
    {
      if newsz >= oldsz { return oldsz; }
      if PagesUp(newsz) < PagesUp(oldsz) {
        Uvmunmap(r, PagesUp(newsz), PagesUp(oldsz) - PagesUp(newsz), true);
      }
      sz := newsz;
    }

    /** Grows from oldsz to newsz bytes: all of the new pages, zeroed, or, when memory runs out, none. */
    method Uvmalloc(r: nat, oldsz: nat, newsz: nat, w: bool, x: bool) returns (sz: nat)
      requires Valid() && r in spaces && PagesUp(newsz) <= TRAPFRAME
      requires NoneMapped(State(), r, PagesUp(oldsz), PagesUp(newsz))
      modifies `free, `mem, `home
      ensures Valid()
      ensures newsz < oldsz ==> sz == oldsz && State() == old(State()) && free == old(free)
      ensures newsz >= oldsz ==> sz == newsz || sz == 0
      ensures newsz >= oldsz ==> |old(free)| <= |free| + 3 * (PagesUp(newsz) - PagesUp(oldsz))
      ensures newsz >= oldsz && sz == newsz ==>
        Grown(old(State()), State(), r, PagesUp(oldsz), PagesUp(newsz), Perm(true, w, x, true))
      ensures newsz >= oldsz && sz != newsz ==>
        && AllKept(old(State()), State(), r) && OthersSame(old(State()), State(), r)
        && |old(free)| < 3 * (PagesUp(newsz) - PagesUp(oldsz))
    {
      if newsz < oldsz { return oldsz; }
      ghost var a := State();
      var lo, perm := PagesUp(oldsz), Perm(true, w, x, true);
      var v := lo;
      PagesUpBound(newsz, v);
      while v * PGSIZE < newsz
        invariant lo <= v <= PagesUp(newsz) && (v < PagesUp(newsz) <==> v * PGSIZE < newsz) && Valid() && r in spaces
        invariant Grown(a, State(), r, lo, v, perm)
        invariant |old(free)| <= |free| + 3 * (v - lo)
        decreases PagesUp(newsz) - v
      {
        ghost var b := State();
        assert Kept(a, b, r, v);
        var p := MapFresh(r, v, Zeros(), perm);
        if p == 0 {
          ghost var c := State();
          PagesUpOfPages(v);
          PagesUpOfPages(lo);
          var _ := Uvmdealloc(r, v * PGSIZE, lo * PGSIZE);
          GrowUndone(a, b, c, State(), r, lo, v, PagesUp(newsz), perm);
          return 0;
        }
        GrowMore(a, b, State(), r, lo, v, p, perm);
        v := v + 1;
        PagesUpBound(newsz, v);
      }
      sz := newsz;
    }

    /** Copies the first sz bytes' worth of pages of r0 into r1: all that are mapped, or, when memory runs out, none. */
    method Uvmcopy(r0: nat, r1: nat, sz: nat) returns (ok: bool)
      requires Valid() && r0 in spaces && r1 in spaces && r0 != r1 && PagesUp(sz) <= TRAPFRAME
      requires NoneMapped(State(), r1, 0, PagesUp(sz))
      modifies `free, `mem, `home
      ensures Valid() && AllKept(old(State()), State(), r0)
      ensures ok ==> Copied(old(State()), State(), r0, r1, PagesUp(sz))
      ensures !ok ==> AllKept(old(State()), State(), r1) && OthersSame(old(State()), State(), r1)
      ensures (!ok ==> |old(free)| < 3 * PagesUp(sz)) && |old(free)| <= |free| + 3 * PagesUp(sz)
    {
      ghost var a := State();
      var v := 0;
      PagesUpBound(sz, v);
      while v * PGSIZE < sz
        invariant 0 <= v <= PagesUp(sz) && (v < PagesUp(sz) <==> v * PGSIZE < sz) && Valid() && r0 in spaces &&
          r1 in spaces
        invariant Copied(a, State(), r0, r1, v)
        invariant |old(free)| <= |free| + 3 * v
        decreases PagesUp(sz) - v
      {
        ghost var b := State();
        OthersKept(a, b, r1, r0);
        assert Kept(a, b, r0, v) && Kept(a, b, r1, v);
        var t := Walk(r0, v, false);
        if t == 0 || !mem[t].ptes[I0(v)].v {
          CopySkip(a, b, r0, r1, v, PagesUp(sz));
        } else {
          var e := mem[t].ptes[I0(v)];
          assert LeafOk(b, r0, v);
          var p := MapFresh(r1, v, mem[e.ppn].bytes, PermOf(e));
          if p == 0 {
            ghost var c := State();
            Uvmunmap(r1, 0, v, true);
            CopyUndone(a, b, c, State(), r0, r1, v, PagesUp(sz));
            OthersKept(a, State(), r1, r0);
            return false;
          }
          CopyMore(a, b, State(), r0, r1, v, p);
        }
        v := v + 1;
        PagesUpBound(sz, v);
      }
      OthersKept(a, State(), r1, r0);
      ok := true;
    }

    /** An empty space, or 0 when there is no page for its root. */
    method Uvmcreate() returns (r: nat)
      requires Valid()
      modifies this
      ensures Valid()
      ensures r == 0 ==> old(free) == [] && State() == old(State()) && free == old(free)
      ensures r != 0 ==> r !in old(spaces) && spaces == old(spaces) + {r} && Others(old(State()), State(), r)
      ensures r != 0 ==> NoneMapped(State(), r, 0, MAXVPN) && |free| + 1 == |old(free)|
    {
      ghost var a := State();
      r := Kalloc();
      if r == 0 { return; }
      AddRoot(a, r);
      PartitionTaken(old(free), a.home, all, Root(r));
      mem := mem[r := EmptyTable()];
      home := home[r := Root(r)];
      spaces := spaces + {r};
      assert mem == a.mem[r := EmptyTable()] && home == a.home[r := Root(r)];
    }

    /** Frees the table t and every table below it; the panic at a leaf cannot be reached when nothing is mapped. */
    method Freewalk(t: nat, ghost top: Node, ghost vm: VM)
      requires Ok(vm) && Untouched(vm, t, top, mem, home) && NoneMapped(vm, top.root, 0, MAXVPN)
      requires Partition(free, home, all)
      modifies `free, `mem, `home
      ensures Partition(free, home, all)
      ensures TreeFreed(vm, top, old(home), home) && OutsideSame(vm, top, old(mem), mem)
      decreases if top.Root? then 2 else if top.Mid? then 1 else 0
    {
      var i := 0;
      while i < ENTRIES
        invariant 0 <= i <= ENTRIES && Partition(free, home, all)
        invariant Freeing(vm, t, top, i, old(mem), old(home), mem, home)
      {
        var e := mem[t].ptes[i];
        ChildOf(vm, t, top, i);
        if e.v && !e.r && !e.w && !e.x {
          ghost var m1, h1 := mem, home;
          ChildUntouched(vm, t, top, i, e.ppn, mem, home);
          Freewalk(e.ppn, ChildNode(top, i), vm);
          ChildFreed(vm, t, top, i, old(mem), old(home), m1, h1, mem, home);
          mem := WithEntry(mem, t, i, NOPTE);
        } else {
          assert !e.v;
          ChildSkipped(vm, t, top, i, old(mem), old(home), mem, home);
        }
        i := i + 1;
      }
      TreeGone(vm, t, top, old(mem), old(home), mem, home);
      Kfree(t);
    }

    /**
     Frees a space's user memory, and then the space itself: no page remains its own, and no other page is touched.
     */
    method Uvmfree(r: nat, sz: nat)
      requires Valid() && r in spaces && PagesUp(sz) <= TRAPFRAME && NoneMapped(State(), r, PagesUp(sz), MAXVPN)
      modifies this
      ensures Valid() && spaces == old(spaces) - {r}
      ensures Others(old(State()), State(), r) && OwnsNothing(State(), r)
    {
      ghost var a := State();
      if sz > 0 {
        Uvmunmap(r, 0, PagesUp(sz), true);
      }
      ghost var b := State();
      assert NoneMapped(b, r, 0, MAXVPN) by {
        forall v {:trigger Lookup(b.mem, r, v)} | 0 <= v < MAXVPN ensures Lookup(b.mem, r, v) == NOPTE {
          if PagesUp(sz) <= v { assert Kept(a, b, r, v) || b == a; }
        }
      }
      assert RootOk(b, r);
      RootUntouched(b, r);
      Freewalk(r, Root(r), b);
      spaces := spaces - {r};
      RemoveSpace(b, State(), r);
      OthersChain(a, b, State(), r);
    }

    /** A space for a new process, or 0, with every page used as it was, if memory runs out on the way. */
    method ProcPagetable(tramp: nat, tf: nat) returns (r: nat)
      requires Valid() && tramp != 0 && tf != 0
      modifies this
      ensures Valid()
      ensures r == 0 ==> spaces == old(spaces) && home == old(home) && |old(free)| < 5
      ensures r == 0 ==> forall p {:trigger p in home} :: p in home ==> PageSame(old(State()), State(), p)
      ensures r != 0 ==> r !in old(spaces) && spaces == old(spaces) + {r} && Others(old(State()), State(), r)
      ensures r != 0 ==> IsNewSpace(State(), r, tramp, tf) && |old(free)| <= |free| + 5
    {
      ghost var a := State();
      r := Uvmcreate();
      if r == 0 { return; }
      ghost var b := State();
      assert MappableAt(b, TRAMPOLINE, tramp, 0) && Lookup(b.mem, r, TRAMPOLINE) == NOPTE;
      var o, k := Mappages(r, TRAMPOLINE, 1, tramp, Perm(true, false, true, false));
      ghost var c := State();
      MappedHigh(b, c, r, TRAMPOLINE, k, tramp, Perm(true, false, true, false));
      OthersChain(a, b, c, r);
      if o != Done {
        NoneMappedThen(b, c, r, 0, MAXVPN);
        Uvmfree(r, 0);
        SpaceUndone(a, c, State(), r);
        return 0;
      }
      NoneMappedThen(b, c, r, 0, TRAMPOLINE);
      assert MappedAt(b, c, r, TRAMPOLINE, tramp, Perm(true, false, true, false), TRAMPOLINE);
      var failed := AddTrapframe(r, tramp, tf);
      OthersChain(a, c, State(), r);
      if failed {
        SpaceUndone(a, c, State(), r);
        return 0;
      }
    }

    /** The second half of proc_pagetable(), once the trampoline is mapped. */
    method AddTrapframe(r: nat, tramp: nat, tf: nat) returns (failed: bool)
      requires Valid() && r in spaces && tf != 0 && NoneMapped(State(), r, 0, TRAMPOLINE)
      requires Lookup(mem, r, TRAMPOLINE) == LeafOf(Perm(true, false, true, false), tramp)
      modifies this
      ensures Valid() && Others(old(State()), State(), r)
      ensures failed ==> OwnsNothing(State(), r) && spaces == old(spaces) - {r} && |old(free)| < 2
      ensures !failed ==> IsNewSpace(State(), r, tramp, tf) && spaces == old(spaces) && |old(free)| <= |free| + 2
    {
      ghost var c := State();
      assert MappableAt(c, TRAPFRAME, tf, 0) && Lookup(c.mem, r, TRAPFRAME) == NOPTE;
      var o, k := Mappages(r, TRAPFRAME, 1, tf, Perm(true, true, false, false));
      ghost var d := State();
      MappedHigh(c, d, r, TRAPFRAME, k, tf, Perm(true, true, false, false));
      failed := o != Done;
      if failed {
        NoneMappedThen(c, d, r, 0, TRAMPOLINE);
        Uvmunmap(r, TRAMPOLINE, 1, false);
        ghost var e := State();
        NoneMappedThen(d, e, r, 0, TRAMPOLINE);
        assert NoneMapped(e, r, 0, MAXVPN);
        Uvmfree(r, 0);
        OthersChain(c, d, e, r);
        OthersChain(c, e, State(), r);
      } else {
        NoneMappedThen(c, d, r, 0, TRAPFRAME);
        assert Kept(c, d, r, TRAMPOLINE);
        assert MappedAt(c, d, r, TRAPFRAME, tf, Perm(true, true, false, false), TRAPFRAME);
      }
    }

    /** The end of a space: everything it had is free, and the trampoline and the trapframe are still the kernel's. */
    method ProcFreepagetable(r: nat, sz: nat)
      requires Valid() && r in spaces && PagesUp(sz) <= TRAPFRAME && NoneMapped(State(), r, PagesUp(sz), TRAPFRAME)
      modifies this
      ensures Valid() && spaces == old(spaces) - {r}
      ensures Others(old(State()), State(), r) && OwnsNothing(State(), r)
    {
      ghost var a := State();
      Uvmunmap(r, TRAMPOLINE, 1, false);
      ghost var b := State();
      Uvmunmap(r, TRAPFRAME, 1, false);
      ghost var c := State();
      NoneMappedThen(a, b, r, PagesUp(sz), TRAPFRAME);
      NoneMappedThen(b, c, r, PagesUp(sz), TRAPFRAME);
      assert Kept(b, c, r, TRAMPOLINE);
      assert NoneMapped(c, r, PagesUp(sz), MAXVPN);
      Uvmfree(r, sz);
      OthersChain(a, b, c, r);
      OthersChain(a, c, State(), r);
    }
  }
}
