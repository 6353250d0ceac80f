/**
 Three-level page tables (kernel/vm.c, kernel/riscv.h; section 4.4, Sv39, of the
 RISC-V Privileged Architecture, version 20211203) as pages of physical memory,
 the flat map they stand for, and who owns each page.

 Virtual addresses appear as virtual page numbers; a physical page is its number,
 0 being none.  A page of memory is either a page table of 512 entries or data.
 */
module PageTable {

  import opened Basics

  const PGSIZE: nat := 4096
  const ENTRIES: nat := 512
  const MAXVPN: nat := 0x400_0000           // MAXVA / PGSIZE
  const USED: nat := 256                    // entries of a root that addresses below MAXVA use
  const TRAMPOLINE: nat := MAXVPN - 1       // its page
  const TRAPFRAME: nat := MAXVPN - 2


  datatype Pte = Pte(v: bool, r: bool, w: bool, x: bool, u: bool, ppn: nat)

  const NOPTE: Pte := Pte(false, false, false, false, false, 0)

  datatype Page = Table(ptes: seq<Pte>) | Data(bytes: seq<byte>)

  /** What a page is used for: a table of an address space, a user page of one, or held by the kernel. */
  datatype Node = Root(root: nat) | Mid(root: nat, i2: nat) | Low(root: nat, i2: nat, i1: nat)
                | Leaf(root: nat, vpn: nat) | Held

  datatype VM = VM(mem: map<nat, Page>, home: map<nat, Node>, spaces: set<nat>)

  // ---------------------------------------------------------------- index extraction

  /** PX(2, va), PX(1, va) and PX(0, va), of the page va is in. */
  function I2(vpn: nat): (i: nat)
    ensures i < ENTRIES
  {
    vpn / 0x4_0000 % 0x200
  }

  function I1(vpn: nat): (i: nat)
    ensures i < ENTRIES
  {
    vpn / 0x200 % 0x200
  }

  function I0(vpn: nat): (i: nat)
    ensures i < ENTRIES
  {
    vpn % 0x200
  }

  lemma {:induction false} IndicesSplit(vpn: nat)
    requires vpn < MAXVPN
    ensures vpn == 0x4_0000 * I2(vpn) + 0x200 * I1(vpn) + I0(vpn)
  {
    var q := vpn / 0x200;
    assert vpn == 0x200 * q + I0(vpn);
    assert vpn / 0x4_0000 == q / 0x200 && vpn / 0x4_0000 < 0x200;
    assert q == 0x200 * (q / 0x200) + I1(vpn);
  }

  /** Below MAXVA the three indices determine the page. */
  lemma {:induction false} IndicesInjective(a: nat, b: nat)
    requires a < MAXVPN && b < MAXVPN && I2(a) == I2(b) && I1(a) == I1(b) && I0(a) == I0(b)
    ensures a == b
  {
    IndicesSplit(a);
    IndicesSplit(b);
  }

  lemma {:induction false} I2Small(vpn: nat)
    requires vpn < MAXVPN
    ensures I2(vpn) < USED
  {
  }

  /** The page with the given indices. */
  function Vpn(i2: nat, i1: nat, i0: nat): nat {
    0x4_0000 * i2 + 0x200 * i1 + i0
  }

  lemma {:induction false} IndicesOfVpn(i2: nat, i1: nat, i0: nat)
    requires i2 < USED && i1 < ENTRIES && i0 < ENTRIES
    ensures Vpn(i2, i1, i0) < MAXVPN
    ensures I2(Vpn(i2, i1, i0)) == i2 && I1(Vpn(i2, i1, i0)) == i1 && I0(Vpn(i2, i1, i0)) == i0
  {
    var v := Vpn(i2, i1, i0);
    assert v / 0x4_0000 == i2 && v % 0x200 == i0;
    assert v / 0x200 == 0x200 * i2 + i1;
  }

  // ---------------------------------------------------------------- entries as words

  function Pa2Pte(pa: bv64): bv64 { (pa >> 12) << 10 }

  function Pte2Pa(pte: bv64): bv64 { (pte >> 10) << 12 }

  function PteFlags(pte: bv64): bv64 { pte & 0x3FF }

  /** A page-aligned physical address and its flags both survive being packed into an entry. */
  lemma {:induction false} PteRoundTrip(pa: bv64, flags: bv64)
    requires pa & 0xFFF == 0 && pa >> 56 == 0 && flags >> 10 == 0
    ensures Pte2Pa(Pa2Pte(pa) | flags) == pa && PteFlags(Pa2Pte(pa) | flags) == flags
  {
    assert Pa2Pte(pa) & 0x3FF == 0;
  }

  // ---------------------------------------------------------------- walking

  predicate IsTable(mem: map<nat, Page>, t: nat) {
    t in mem && mem[t].Table? && |mem[t].ptes| == ENTRIES
  }

  function Entry(mem: map<nat, Page>, t: nat, i: nat): Pte {
    if IsTable(mem, t) && i < ENTRIES then mem[t].ptes[i] else NOPTE
  }

  /** The page entry i of table t points to; 0 if it is not valid. */
  function Next(mem: map<nat, Page>, t: nat, i: nat): nat {
    if Entry(mem, t, i).v then Entry(mem, t, i).ppn else 0
  }

  function L1(mem: map<nat, Page>, root: nat, i2: nat): nat {
    Next(mem, root, i2)
  }

  function L0(mem: map<nat, Page>, root: nat, i2: nat, i1: nat): nat {
    if L1(mem, root, i2) == 0 then 0 else Next(mem, L1(mem, root, i2), i1)
  }

  function LeafAt(mem: map<nat, Page>, root: nat, i2: nat, i1: nat, i0: nat): Pte {
    if L0(mem, root, i2, i1) == 0 then NOPTE else Entry(mem, L0(mem, root, i2, i1), i0)
  }

  /** The flat map: the entry for a virtual page, valid or not. */
  function LeafPte(mem: map<nat, Page>, root: nat, vpn: nat): Pte {
    LeafAt(mem, root, I2(vpn), I1(vpn), I0(vpn))
  }

  // ---------------------------------------------------------------- the invariant

  ghost predicate IsPage(mem: map<nat, Page>, p: nat) {
    p in mem && mem[p].Data? && |mem[p].bytes| == PGSIZE
  }

  /** p is in use for exactly node. */
  ghost predicate Used(vm: VM, p: nat, node: Node) {
    p in vm.home && vm.home[p] == node
  }

  /** An entry above the lowest level is a pointer: valid, and neither readable, writable nor executable. */
  predicate IsPointer(e: Pte) {
    e.v && !e.r && !e.w && !e.x && e.ppn != 0
  }

  ghost predicate RootOk(vm: VM, r: nat) {
    r in vm.spaces ==> r != 0 && IsTable(vm.mem, r) && Used(vm, r, Root(r))
  }

  ghost predicate MidOk(vm: VM, r: nat, i2: nat) {
    r in vm.spaces && Entry(vm.mem, r, i2).v ==>
      && i2 < USED && IsPointer(Entry(vm.mem, r, i2))
      && IsTable(vm.mem, L1(vm.mem, r, i2)) && Used(vm, L1(vm.mem, r, i2), Mid(r, i2))
  }

  ghost predicate LowOk(vm: VM, r: nat, i2: nat, i1: nat) {
    r in vm.spaces && L1(vm.mem, r, i2) != 0 && Entry(vm.mem, L1(vm.mem, r, i2), i1).v ==>
      && IsPointer(Entry(vm.mem, L1(vm.mem, r, i2), i1))
      && IsTable(vm.mem, L0(vm.mem, r, i2, i1)) && Used(vm, L0(vm.mem, r, i2, i1), Low(r, i2, i1))
  }

  /** A user page is data, and its owner's alone; pages above user memory are not the user's to touch. */
  ghost predicate LeafOk(vm: VM, r: nat, vpn: nat) {
    r in vm.spaces && vpn < MAXVPN && LeafPte(vm.mem, r, vpn).v ==>
      && LeafPte(vm.mem, r, vpn).r && LeafPte(vm.mem, r, vpn).ppn != 0
      && (vpn < TRAPFRAME ==>
            IsPage(vm.mem, LeafPte(vm.mem, r, vpn).ppn) && Used(vm, LeafPte(vm.mem, r, vpn).ppn, Leaf(r, vpn)))
      && (TRAPFRAME <= vpn ==> !LeafPte(vm.mem, r, vpn).u)
  }

  /** A page is used for what home says. */
  ghost predicate HomeOk(vm: VM, p: nat) {
    p in vm.home ==> p != 0 && Serves(vm, p, vm.home[p])
  }

  ghost predicate Serves(vm: VM, p: nat, node: Node) {
    match node
    case Root(r) => p == r && r in vm.spaces
    case Mid(r, i2) => r in vm.spaces && i2 < ENTRIES && L1(vm.mem, r, i2) == p
    case Low(r, i2, i1) => r in vm.spaces && i2 < ENTRIES && i1 < ENTRIES && L0(vm.mem, r, i2, i1) == p
    case Leaf(r, vpn) =>
      r in vm.spaces && vpn < TRAPFRAME && LeafPte(vm.mem, r, vpn).v && LeafPte(vm.mem, r, vpn).ppn == p
    case Held => true
  }

  ghost predicate Ok(vm: VM) {
    && (forall r {:trigger RootOk(vm, r)} :: 0 <= r ==> RootOk(vm, r))
    && (forall r, i2 {:trigger MidOk(vm, r, i2)} :: 0 <= r && 0 <= i2 ==> MidOk(vm, r, i2))
    && (forall r, i2, i1 {:trigger LowOk(vm, r, i2, i1)} :: 0 <= r && 0 <= i2 && 0 <= i1 ==> LowOk(vm, r, i2, i1))
    && (forall r, vpn {:trigger LeafOk(vm, r, vpn)} :: 0 <= r && 0 <= vpn ==> LeafOk(vm, r, vpn))
    && (forall p {:trigger HomeOk(vm, p)} :: 0 <= p ==> HomeOk(vm, p))
  }

  // ---------------------------------------------------------------- walks that see no change

  /** Every walk of root takes the same way to the same entry. */
  ghost predicate SameWalk(mem: map<nat, Page>, mem': map<nat, Page>, root: nat) {
    && (forall i2 {:trigger L1(mem', root, i2)} :: 0 <= i2 ==> L1(mem', root, i2) == L1(mem, root, i2))
    && (forall i2, i1 {:trigger L0(mem', root, i2, i1)} :: 0 <= i2 && 0 <= i1 ==>
          L0(mem', root, i2, i1) == L0(mem, root, i2, i1))
    && (forall vpn {:trigger LeafPte(mem', root, vpn)} :: 0 <= vpn ==>
          LeafPte(mem', root, vpn) == LeafPte(mem, root, vpn))
  }

  /** Every translation of every address space is the same. */
  ghost predicate SameMaps(vm: VM, vm': VM) {
    && vm'.spaces == vm.spaces
    && forall r, vpn {:trigger LeafPte(vm'.mem, r, vpn)} :: r in vm.spaces && 0 <= vpn ==>
         LeafPte(vm'.mem, r, vpn) == LeafPte(vm.mem, r, vpn)
  }

  predicate IsTableNode(node: Node) {
    node.Root? || node.Mid? || node.Low?
  }

  predicate Owns(r: nat, node: Node) {
    !node.Held? && node.root == r
  }

  /** The page-table pages are as they were. */
  ghost predicate SameTables(vm: VM, mem': map<nat, Page>) {
    forall t {:trigger t in vm.home} :: t in vm.home && IsTableNode(vm.home[t]) ==>
      t in vm.mem && t in mem' && mem'[t] == vm.mem[t]
  }

  lemma {:induction false} WalkFrame(vm: VM, mem': map<nat, Page>, r: nat)
    requires Ok(vm) && r in vm.spaces
    requires forall t {:trigger t in vm.home} :: t in vm.home && IsTableNode(vm.home[t]) && Owns(r, vm.home[t]) ==>
               t in vm.mem && t in mem' && mem'[t] == vm.mem[t]
    ensures SameWalk(vm.mem, mem', r)
    ensures forall i2 {:trigger Entry(mem', r, i2)} :: 0 <= i2 ==> Entry(mem', r, i2) == Entry(vm.mem, r, i2)
  {
    assert RootOk(vm, r);
    assert IsTable(mem', r);
    forall i2 | 0 <= i2 ensures L1(mem', r, i2) == L1(vm.mem, r, i2) {
      assert MidOk(vm, r, i2);
    }
    forall i2, i1 | 0 <= i2 && 0 <= i1 ensures L0(mem', r, i2, i1) == L0(vm.mem, r, i2, i1) {
      assert MidOk(vm, r, i2) && LowOk(vm, r, i2, i1);
    }
    forall vpn | 0 <= vpn ensures LeafPte(mem', r, vpn) == LeafPte(vm.mem, r, vpn) {
      assert MidOk(vm, r, I2(vpn)) && LowOk(vm, r, I2(vpn), I1(vpn));
    }
  }

  /** A page in use holds what it is used for. */
  lemma {:induction false} UseFits(vm: VM, p: nat)
    requires Ok(vm) && p in vm.home
    ensures p != 0
    ensures IsTableNode(vm.home[p]) ==> IsTable(vm.mem, p)
    ensures vm.home[p].Leaf? ==> IsPage(vm.mem, p)
  {
    assert HomeOk(vm, p);
    match vm.home[p]
    case Root(r) => assert RootOk(vm, r);
    case Mid(r, i2) => assert MidOk(vm, r, i2);
    case Low(r, i2, i1) => assert LowOk(vm, r, i2, i1);
    case Leaf(r, vpn) => assert LeafOk(vm, r, vpn);
    case Held =>
  }

  lemma {:induction false} UsesFit(vm: VM)
    requires Ok(vm)
    ensures forall p {:trigger p in vm.home} :: p in vm.home ==>
              && p != 0 && (IsTableNode(vm.home[p]) ==> p in vm.mem)
              && (vm.home[p].Leaf? ==> IsPage(vm.mem, p))
  {
    forall p | p in vm.home
      ensures p != 0 && (IsTableNode(vm.home[p]) ==> p in vm.mem) && (vm.home[p].Leaf? ==> IsPage(vm.mem, p))
    {
      UseFits(vm, p);
    }
  }

  /** What was a user page's worth of data is still. */
  ghost predicate LeavesKept(vm: VM, mem': map<nat, Page>) {
    forall p {:trigger IsPage(mem', p)} :: 0 <= p && p in vm.home && vm.home[p].Leaf? && IsPage(vm.mem, p) ==>
      IsPage(mem', p)
  }

  /** A change to one page, which is not a user page or stays one. */
  lemma {:induction false} OnePageChanged(vm: VM, p: nat, page: Page)
    requires (p in vm.home ==> !IsTableNode(vm.home[p])) && Ok(vm)
    requires p in vm.home && vm.home[p].Leaf? ==> page.Data? && |page.bytes| == PGSIZE
    ensures LeavesKept(vm, vm.mem[p := page]) && SameTables(vm, vm.mem[p := page])
  {
    UsesFit(vm);
  }

  /** A page that is not in use may be given any contents and then held by the kernel. */
  lemma {:induction false} HoldPage(vm: VM, p: nat, page: Page)
    requires Ok(vm) && p != 0 && p !in vm.home
    ensures var vm' := vm.(mem := vm.mem[p := page], home := vm.home[p := Held]);
            Ok(vm') && SameMaps(vm, vm')
  {
    UsesFit(vm);
    OnePageChanged(vm, p, page);
    var vm' := vm.(mem := vm.mem[p := page], home := vm.home[p := Held]);
    KeepsOk(vm, vm');
  }

  /** A held page may change. */
  lemma {:induction false} FillHeld(vm: VM, p: nat, page: Page)
    requires Ok(vm) && Used(vm, p, Held)
    ensures var vm' := vm.(mem := vm.mem[p := page]); Ok(vm') && SameMaps(vm, vm')
  {
    UsesFit(vm);
    OnePageChanged(vm, p, page);
    KeepsOk(vm, vm.(mem := vm.mem[p := page]));
  }

  /** A held page may be given up. */
  lemma {:induction false} DropHeld(vm: VM, p: nat, page: Page)
    requires Ok(vm) && Used(vm, p, Held)
    ensures var vm' := vm.(mem := vm.mem[p := page], home := vm.home - {p}); Ok(vm') && SameMaps(vm, vm')
  {
    UsesFit(vm);
    OnePageChanged(vm, p, page);
    var vm' := vm.(mem := vm.mem[p := page], home := vm.home - {p});
    forall q {:trigger q in vm.home} | q in vm.home && vm.home[q] != Held
      ensures q in vm'.home && vm'.home[q] == vm.home[q]
    {
      assert q != p;
    }
    assert forall q {:trigger q in vm'.home} :: q in vm'.home ==> q in vm.home && vm'.home[q] == vm.home[q];
    KeepsOk(vm, vm');
  }

  /** A user page may be written. */
  lemma {:induction false} FillLeaf(vm: VM, p: nat, r: nat, vpn: nat, page: Page)
    requires Ok(vm) && Used(vm, p, Leaf(r, vpn)) && page.Data? && |page.bytes| == PGSIZE
    ensures var vm' := vm.(mem := vm.mem[p := page]); Ok(vm') && SameMaps(vm, vm')
  {
    UsesFit(vm);
    OnePageChanged(vm, p, page);
    KeepsOk(vm, vm.(mem := vm.mem[p := page]));
  }

  /**
   A change that leaves the tables and the uses of pages alone, but for pages held or not in use, keeps the invariant.
   */
  lemma {:induction false} KeepsOk(vm: VM, vm': VM)
    requires Ok(vm) && vm'.spaces == vm.spaces && SameTables(vm, vm'.mem)
    requires forall p {:trigger p in vm.home} :: p in vm.home && vm.home[p] != Held ==>
               p in vm'.home && vm'.home[p] == vm.home[p]
    requires forall p {:trigger p in vm'.home} :: p in vm'.home ==>
               p != 0 && (vm'.home[p] == Held || (p in vm.home && vm.home[p] == vm'.home[p]))
    requires LeavesKept(vm, vm'.mem)
    ensures Ok(vm') && SameMaps(vm, vm')
  {
    forall r | r in vm.spaces ensures SameWalk(vm.mem, vm'.mem, r) {
      WalkFrame(vm, vm'.mem, r);
    }
    forall r: nat {:trigger RootOk(vm', r)} ensures RootOk(vm', r) {
      assert RootOk(vm, r);
    }
    forall r: nat, i2: nat {:trigger MidOk(vm', r, i2)} ensures MidOk(vm', r, i2) {
      if r in vm.spaces {
        WalkFrame(vm, vm'.mem, r);
        assert MidOk(vm, r, i2);
      }
    }
    forall r: nat, i2: nat, i1: nat {:trigger LowOk(vm', r, i2, i1)} ensures LowOk(vm', r, i2, i1) {
      if r in vm.spaces && L1(vm.mem, r, i2) != 0 {
        assert MidOk(vm, r, i2) && LowOk(vm, r, i2, i1);
      }
    }
    forall r: nat, vpn: nat {:trigger LeafOk(vm', r, vpn)} ensures LeafOk(vm', r, vpn) {
      if r in vm.spaces {
        assert LeafOk(vm, r, vpn);
      }
    }
    forall p: nat {:trigger HomeOk(vm', p)} ensures HomeOk(vm', p) {
      assert HomeOk(vm, p);
    }
  }

  // ---------------------------------------------------------------- updates of one entry

  function WithEntry(mem: map<nat, Page>, t: nat, i: nat, e: Pte): (r: map<nat, Page>)
    requires IsTable(mem, t) && i < ENTRIES
  {
    mem[t := Table(mem[t].ptes[i := e])]
  }

  lemma {:induction false} EntryOf(mem: map<nat, Page>, t: nat, i: nat, e: Pte, u: nat, j: nat)
    requires IsTable(mem, t) && i < ENTRIES
    ensures IsTable(WithEntry(mem, t, i, e), u) == IsTable(mem, u)
    ensures Entry(WithEntry(mem, t, i, e), u, j) == (if u == t && j == i then e else Entry(mem, u, j))
  {
  }

  function EmptyTable(): Page {
    Table(seq(ENTRIES, _ => NOPTE))
  }

  function Pointer(p: nat): Pte {
    Pte(true, false, false, false, false, p)
  }

  /** The memory once walk() has put the new table p under entry i of table t. */
  function Linked(mem: map<nat, Page>, t: nat, i: nat, p: nat): map<nat, Page>
    requires IsTable(mem, t) && i < ENTRIES && p != t
  {
    WithEntry(mem[p := EmptyTable()], t, i, Pointer(p))
  }

  lemma {:induction false} EntryOfLinked(mem: map<nat, Page>, t: nat, i: nat, p: nat, u: nat, j: nat)
    requires IsTable(mem, t) && i < ENTRIES && p != t
    ensures IsTable(Linked(mem, t, i, p), u) == (u == p || IsTable(mem, u))
    ensures Entry(Linked(mem, t, i, p), u, j) ==
              (if u == p then NOPTE else if u == t && j == i then Pointer(p) else Entry(mem, u, j))
  {
  }

  // A new middle table.

  function MidLinked(vm: VM, r: nat, i2: nat, p: nat): VM
    requires IsTable(vm.mem, r) && i2 < USED && p != r
  {
    vm.(mem := Linked(vm.mem, r, i2, p), home := vm.home[p := Mid(r, i2)])
  }

  lemma {:induction false} MidLinkedWalk(vm: VM, r: nat, i2: nat, p: nat, s: nat)
    requires Ok(vm) && r in vm.spaces && s in vm.spaces && IsTable(vm.mem, r) && i2 < USED
    requires !Entry(vm.mem, r, i2).v && Used(vm, p, Held) && p != r
    ensures var mem' := MidLinked(vm, r, i2, p).mem;
      && (forall j {:trigger Entry(mem', s, j)} :: 0 <= j ==>
            Entry(mem', s, j) == if s == r && j == i2 then Pointer(p) else Entry(vm.mem, s, j))
      && (forall j, k {:trigger L0(mem', s, j, k)} :: 0 <= j && 0 <= k ==> L0(mem', s, j, k) == L0(vm.mem, s, j, k))
      && (forall vpn {:trigger LeafPte(mem', s, vpn)} :: 0 <= vpn ==> LeafPte(mem', s, vpn) == LeafPte(vm.mem, s, vpn))
  {
    var mem' := MidLinked(vm, r, i2, p).mem;
    assert RootOk(vm, r) && RootOk(vm, s) && HomeOk(vm, p);
    forall j | 0 <= j
      ensures Entry(mem', s, j) == if s == r && j == i2 then Pointer(p) else Entry(vm.mem, s, j)
    {
      EntryOfLinked(vm.mem, r, i2, p, s, j);
    }
    forall j, k | 0 <= j && 0 <= k ensures L0(mem', s, j, k) == L0(vm.mem, s, j, k) {
      MidLinkedL0(vm, r, i2, p, s, j, k);
    }
    forall vpn | 0 <= vpn ensures LeafPte(mem', s, vpn) == LeafPte(vm.mem, s, vpn) {
      MidLinkedL0(vm, r, i2, p, s, I2(vpn), I1(vpn));
      assert LowOk(vm, s, I2(vpn), I1(vpn));
      EntryOfLinked(vm.mem, r, i2, p, L0(vm.mem, s, I2(vpn), I1(vpn)), I0(vpn));
    }
  }

  lemma {:induction false} MidLinkedL0(vm: VM, r: nat, i2: nat, p: nat, s: nat, j: nat, k: nat)
    requires Ok(vm) && r in vm.spaces && s in vm.spaces && IsTable(vm.mem, r) && i2 < USED
    requires !Entry(vm.mem, r, i2).v && Used(vm, p, Held) && p != r
    ensures L0(MidLinked(vm, r, i2, p).mem, s, j, k) == L0(vm.mem, s, j, k)
  {
    assert RootOk(vm, r) && RootOk(vm, s) && HomeOk(vm, p) && MidOk(vm, s, j);
    EntryOfLinked(vm.mem, r, i2, p, s, j);
    EntryOfLinked(vm.mem, r, i2, p, p, k);
    EntryOfLinked(vm.mem, r, i2, p, L1(vm.mem, s, j), k);
  }

  /** Putting a new, empty middle table in keeps every translation. */
  lemma {:induction false} LinkMid(vm: VM, r: nat, i2: nat, p: nat)
    requires Ok(vm) && r in vm.spaces && i2 < USED && IsTable(vm.mem, r)
    requires !Entry(vm.mem, r, i2).v && Used(vm, p, Held) && p != r
    ensures Ok(MidLinked(vm, r, i2, p)) && SameMaps(vm, MidLinked(vm, r, i2, p))
    ensures L1(MidLinked(vm, r, i2, p).mem, r, i2) == p
  {
    var vm' := MidLinked(vm, r, i2, p);
    forall s: nat {:trigger RootOk(vm', s)} ensures RootOk(vm', s) {
      assert RootOk(vm, s);
      EntryOfLinked(vm.mem, r, i2, p, s, 0);
    }
    forall s: nat, j: nat {:trigger MidOk(vm', s, j)} ensures MidOk(vm', s, j) {
      if s in vm.spaces {
        MidLinkedWalk(vm, r, i2, p, s);
        assert MidOk(vm, s, j) && HomeOk(vm, p);
        EntryOfLinked(vm.mem, r, i2, p, L1(vm.mem, s, j), 0);
      }
    }
    forall s: nat, j: nat, k: nat {:trigger LowOk(vm', s, j, k)} ensures LowOk(vm', s, j, k) {
      if s in vm.spaces {
        MidLinkedWalk(vm, r, i2, p, s);
        assert MidOk(vm, s, j) && LowOk(vm, s, j, k);
        EntryOfLinked(vm.mem, r, i2, p, p, k);
        EntryOfLinked(vm.mem, r, i2, p, L1(vm.mem, s, j), k);
        EntryOfLinked(vm.mem, r, i2, p, L0(vm.mem, s, j, k), 0);
      }
    }
    forall s: nat, vpn: nat {:trigger LeafOk(vm', s, vpn)} ensures LeafOk(vm', s, vpn) {
      if s in vm.spaces {
        MidLinkedWalk(vm, r, i2, p, s);
        assert LeafOk(vm, s, vpn);
      }
    }
    forall q: nat {:trigger HomeOk(vm', q)} ensures HomeOk(vm', q) {
      MidLinkedHome(vm, r, i2, p, q);
    }
    forall s, vpn {:trigger LeafPte(vm'.mem, s, vpn)} | s in vm.spaces && 0 <= vpn
      ensures LeafPte(vm'.mem, s, vpn) == LeafPte(vm.mem, s, vpn)
    {
      MidLinkedWalk(vm, r, i2, p, s);
    }
    MidLinkedWalk(vm, r, i2, p, r);
  }

  lemma {:induction false} MidLinkedHome(vm: VM, r: nat, i2: nat, p: nat, q: nat)
    requires Ok(vm) && r in vm.spaces && i2 < USED && IsTable(vm.mem, r)
    requires !Entry(vm.mem, r, i2).v && Used(vm, p, Held) && p != r
    ensures HomeOk(MidLinked(vm, r, i2, p), q)
  {
    assert HomeOk(vm, q);
    var vm' := MidLinked(vm, r, i2, p);
    if q == p {
      MidLinkedWalk(vm, r, i2, p, r);
    } else if q in vm.home {
      match vm.home[q]
      case Root(s) =>
      case Mid(s, j) => MidLinkedWalk(vm, r, i2, p, s);
      case Low(s, j, k) => MidLinkedWalk(vm, r, i2, p, s);
      case Leaf(s, vpn) => MidLinkedWalk(vm, r, i2, p, s);
      case Held =>
    }
  }

  // A new lowest table.

  function LowLinked(vm: VM, r: nat, i2: nat, i1: nat, p: nat): VM
    requires IsTable(vm.mem, L1(vm.mem, r, i2)) && i1 < ENTRIES && p != L1(vm.mem, r, i2)
  {
    vm.(mem := Linked(vm.mem, L1(vm.mem, r, i2), i1, p), home := vm.home[p := Low(r, i2, i1)])
  }

  /** A place for a new lowest table: its middle table is there, and it is not. */
  ghost predicate LowVacant(vm: VM, r: nat, i2: nat, i1: nat, p: nat) {
    && r in vm.spaces && i2 < USED && i1 < ENTRIES && Used(vm, p, Held)
    && L1(vm.mem, r, i2) != 0 && IsTable(vm.mem, L1(vm.mem, r, i2)) && p != L1(vm.mem, r, i2)
    && !Entry(vm.mem, L1(vm.mem, r, i2), i1).v
  }

  lemma {:induction false} LowLinkedWalk(vm: VM, r: nat, i2: nat, i1: nat, p: nat, s: nat, j: nat, k: nat)
    requires Ok(vm) && LowVacant(vm, r, i2, i1, p) && s in vm.spaces
    ensures var mem' := LowLinked(vm, r, i2, i1, p).mem;
      && Entry(mem', s, j) == Entry(vm.mem, s, j)
      && L0(mem', s, j, k) == if s == r && j == i2 && k == i1 then p else L0(vm.mem, s, j, k)
  {
    assert RootOk(vm, s) && RootOk(vm, r) && HomeOk(vm, p) && MidOk(vm, r, i2) && MidOk(vm, s, j);
    EntryOfLinked(vm.mem, L1(vm.mem, r, i2), i1, p, s, j);
    EntryOfLinked(vm.mem, L1(vm.mem, r, i2), i1, p, L1(vm.mem, s, j), k);
  }

  lemma {:induction false} LowLinkedLeaf(vm: VM, r: nat, i2: nat, i1: nat, p: nat, s: nat, vpn: nat)
    requires Ok(vm) && LowVacant(vm, r, i2, i1, p) && s in vm.spaces
    ensures LeafPte(LowLinked(vm, r, i2, i1, p).mem, s, vpn) == LeafPte(vm.mem, s, vpn)
  {
    assert RootOk(vm, r) && HomeOk(vm, p) && MidOk(vm, r, i2) && LowOk(vm, s, I2(vpn), I1(vpn));
    LowLinkedWalk(vm, r, i2, i1, p, s, I2(vpn), I1(vpn));
    EntryOfLinked(vm.mem, L1(vm.mem, r, i2), i1, p, p, I0(vpn));
    EntryOfLinked(vm.mem, L1(vm.mem, r, i2), i1, p, L0(vm.mem, s, I2(vpn), I1(vpn)), I0(vpn));
  }

  /** Putting a new, empty lowest table in keeps every translation. */
  lemma {:induction false} LinkLow(vm: VM, r: nat, i2: nat, i1: nat, p: nat)
    requires Ok(vm) && LowVacant(vm, r, i2, i1, p)
    ensures Ok(LowLinked(vm, r, i2, i1, p)) && SameMaps(vm, LowLinked(vm, r, i2, i1, p))
    ensures L0(LowLinked(vm, r, i2, i1, p).mem, r, i2, i1) == p
  {
    var vm' := LowLinked(vm, r, i2, i1, p);
    var m := L1(vm.mem, r, i2);
    forall s: nat {:trigger RootOk(vm', s)} ensures RootOk(vm', s) {
      assert RootOk(vm, s);
      EntryOfLinked(vm.mem, m, i1, p, s, 0);
    }
    forall s: nat, j: nat {:trigger MidOk(vm', s, j)} ensures MidOk(vm', s, j) {
      if s in vm.spaces {
        LowLinkedWalk(vm, r, i2, i1, p, s, j, 0);
        assert MidOk(vm, s, j);
        EntryOfLinked(vm.mem, m, i1, p, L1(vm.mem, s, j), 0);
      }
    }
    forall s: nat, j: nat, k: nat {:trigger LowOk(vm', s, j, k)} ensures LowOk(vm', s, j, k) {
      if s in vm.spaces {
        LowLinkedLow(vm, r, i2, i1, p, s, j, k);
      }
    }
    forall s: nat, vpn: nat {:trigger LeafOk(vm', s, vpn)} ensures LeafOk(vm', s, vpn) {
      if s in vm.spaces {
        LowLinkedLeaf(vm, r, i2, i1, p, s, vpn);
        assert LeafOk(vm, s, vpn) && MidOk(vm, r, i2);
      }
    }
    forall q: nat {:trigger HomeOk(vm', q)} ensures HomeOk(vm', q) {
      LowLinkedHome(vm, r, i2, i1, p, q);
    }
    forall s, vpn {:trigger LeafPte(vm'.mem, s, vpn)} | s in vm.spaces && 0 <= vpn
      ensures LeafPte(vm'.mem, s, vpn) == LeafPte(vm.mem, s, vpn)
    {
      LowLinkedLeaf(vm, r, i2, i1, p, s, vpn);
    }
    LowLinkedWalk(vm, r, i2, i1, p, r, i2, i1);
  }

  lemma {:induction false} LowLinkedLow(vm: VM, r: nat, i2: nat, i1: nat, p: nat, s: nat, j: nat, k: nat)
    requires Ok(vm) && LowVacant(vm, r, i2, i1, p) && s in vm.spaces
    ensures LowOk(LowLinked(vm, r, i2, i1, p), s, j, k)
  {
    var m := L1(vm.mem, r, i2);
    LowLinkedWalk(vm, r, i2, i1, p, s, j, k);
    assert MidOk(vm, s, j) && LowOk(vm, s, j, k) && MidOk(vm, r, i2) && HomeOk(vm, p);
    EntryOfLinked(vm.mem, m, i1, p, L1(vm.mem, s, j), k);
    EntryOfLinked(vm.mem, m, i1, p, L0(vm.mem, s, j, k), 0);
    EntryOfLinked(vm.mem, m, i1, p, p, 0);
  }

  lemma {:induction false} LowLinkedHome(vm: VM, r: nat, i2: nat, i1: nat, p: nat, q: nat)
    requires Ok(vm) && LowVacant(vm, r, i2, i1, p)
    ensures HomeOk(LowLinked(vm, r, i2, i1, p), q)
  {
    assert HomeOk(vm, q);
    if q == p {
      LowLinkedWalk(vm, r, i2, i1, p, r, i2, i1);
    } else if q in vm.home {
      match vm.home[q]
      case Root(s) =>
      case Mid(s, j) => LowLinkedWalk(vm, r, i2, i1, p, s, j, 0);
      case Low(s, j, k) => LowLinkedWalk(vm, r, i2, i1, p, s, j, k);
      case Leaf(s, vpn) => LowLinkedLeaf(vm, r, i2, i1, p, s, vpn);
      case Held =>
    }
  }

  // An entry of a lowest table.

  /** The table walk() returns an entry of. */
  function LowTable(mem: map<nat, Page>, r: nat, vpn: nat): nat {
    L0(mem, r, I2(vpn), I1(vpn))
  }

  function PteSet(vm: VM, r: nat, vpn: nat, e: Pte, home: map<nat, Node>): VM
    requires IsTable(vm.mem, LowTable(vm.mem, r, vpn))
  {
    vm.(mem := WithEntry(vm.mem, LowTable(vm.mem, r, vpn), I0(vpn), e), home := home)
  }

  ghost predicate HasTable(vm: VM, r: nat, vpn: nat) {
    && r in vm.spaces && vpn < MAXVPN
    && LowTable(vm.mem, r, vpn) != 0 && IsTable(vm.mem, LowTable(vm.mem, r, vpn))
  }

  lemma {:induction false} PteSetWalk(vm: VM, r: nat, vpn: nat, e: Pte, home: map<nat, Node>, s: nat, j: nat, k: nat)
    requires Ok(vm) && HasTable(vm, r, vpn) && s in vm.spaces
    ensures var mem' := PteSet(vm, r, vpn, e, home).mem;
      Entry(mem', s, j) == Entry(vm.mem, s, j) && L0(mem', s, j, k) == L0(vm.mem, s, j, k)
  {
    assert RootOk(vm, s) && MidOk(vm, s, j) && LowOk(vm, r, I2(vpn), I1(vpn));
    EntryOf(vm.mem, LowTable(vm.mem, r, vpn), I0(vpn), e, s, j);
    EntryOf(vm.mem, LowTable(vm.mem, r, vpn), I0(vpn), e, L1(vm.mem, s, j), k);
  }

  /** Setting one entry changes one translation. */
  lemma {:induction false} PteSetLeaf(vm: VM, r: nat, vpn: nat, e: Pte, home: map<nat, Node>, s: nat, v: nat)
    requires Ok(vm) && HasTable(vm, r, vpn) && s in vm.spaces && v < MAXVPN
    ensures LeafPte(PteSet(vm, r, vpn, e, home).mem, s, v) ==
              if s == r && v == vpn then e else LeafPte(vm.mem, s, v)
  {
    assert LowOk(vm, s, I2(v), I1(v)) && LowOk(vm, r, I2(vpn), I1(vpn));
    PteSetWalk(vm, r, vpn, e, home, s, I2(v), I1(v));
    EntryOf(vm.mem, LowTable(vm.mem, r, vpn), I0(vpn), e, LowTable(vm.mem, s, v), I0(v));
    if I2(v) == I2(vpn) && I1(v) == I1(vpn) && I0(v) == I0(vpn) {
      IndicesInjective(v, vpn);
    }
  }

  /** home is what becomes of vm.home when entry vpn of r becomes e. */
  ghost predicate Rehomed(vm: VM, r: nat, vpn: nat, e: Pte, home: map<nat, Node>) {
    && (forall q {:trigger q in vm.home} :: q in vm.home && vm.home[q] != Held && vm.home[q] != Leaf(r, vpn) ==>
          q in home && home[q] == vm.home[q])
    && (forall q {:trigger q in home} :: q in home ==>
          || (q != 0 && home[q] == Held)
          || (q in vm.home && home[q] == vm.home[q] && home[q] != Leaf(r, vpn))
          || (home[q] == Leaf(r, vpn) && e.v && e.ppn == q && vpn < TRAPFRAME))
    && (e.v ==> e.r && e.ppn != 0 && (TRAPFRAME <= vpn ==> !e.u))
    && (e.v && vpn < TRAPFRAME ==> e.ppn in home && home[e.ppn] == Leaf(r, vpn) && IsPage(vm.mem, e.ppn))
  }

  lemma {:induction false} PteSetOk(vm: VM, r: nat, vpn: nat, e: Pte, home: map<nat, Node>)
    requires Ok(vm) && HasTable(vm, r, vpn) && Rehomed(vm, r, vpn, e, home)
    ensures Ok(PteSet(vm, r, vpn, e, home))
  {
    var vm' := PteSet(vm, r, vpn, e, home);
    var t := LowTable(vm.mem, r, vpn);
    assert LowOk(vm, r, I2(vpn), I1(vpn));
    forall s: nat {:trigger RootOk(vm', s)} ensures RootOk(vm', s) {
      assert RootOk(vm, s);
      EntryOf(vm.mem, t, I0(vpn), e, s, 0);
    }
    forall s: nat, j: nat {:trigger MidOk(vm', s, j)} ensures MidOk(vm', s, j) {
      if s in vm.spaces {
        PteSetWalk(vm, r, vpn, e, home, s, j, 0);
        assert MidOk(vm, s, j);
        EntryOf(vm.mem, t, I0(vpn), e, L1(vm.mem, s, j), 0);
      }
    }
    forall s: nat, j: nat, k: nat {:trigger LowOk(vm', s, j, k)} ensures LowOk(vm', s, j, k) {
      if s in vm.spaces {
        PteSetWalk(vm, r, vpn, e, home, s, j, k);
        assert MidOk(vm, s, j) && LowOk(vm, s, j, k);
        EntryOf(vm.mem, t, I0(vpn), e, L1(vm.mem, s, j), k);
        EntryOf(vm.mem, t, I0(vpn), e, L0(vm.mem, s, j, k), 0);
      }
    }
    forall s: nat, v: nat {:trigger LeafOk(vm', s, v)} ensures LeafOk(vm', s, v) {
      if s in vm.spaces && v < MAXVPN {
        PteSetLeaf(vm, r, vpn, e, home, s, v);
        assert LeafOk(vm, s, v);
      }
    }
    forall q: nat {:trigger HomeOk(vm', q)} ensures HomeOk(vm', q) {
      PteSetHome(vm, r, vpn, e, home, q);
    }
  }

  lemma {:induction false} PteSetHome(vm: VM, r: nat, vpn: nat, e: Pte, home: map<nat, Node>, q: nat)
    requires Ok(vm) && HasTable(vm, r, vpn) && Rehomed(vm, r, vpn, e, home)
    ensures HomeOk(PteSet(vm, r, vpn, e, home), q)
  {
    assert HomeOk(vm, q);
    if q in home {
      match home[q]
      case Root(s) =>
      case Mid(s, j) => PteSetWalk(vm, r, vpn, e, home, s, j, 0);
      case Low(s, j, k) => PteSetWalk(vm, r, vpn, e, home, s, j, k);
      case Leaf(s, v) => PteSetLeaf(vm, r, vpn, e, home, s, v);
      case Held =>
    }
  }

  // ---------------------------------------------------------------- what an operation on one space may change

  /** The translation of a page: its entry if that is valid. */
  function Lookup(mem: map<nat, Page>, r: nat, vpn: nat): Pte {
    if LeafPte(mem, r, vpn).v then LeafPte(mem, r, vpn) else NOPTE
  }

  /** What is in a page of user memory; nothing if it is not mapped. */
  function UserPage(mem: map<nat, Page>, r: nat, vpn: nat): seq<byte> {
    var e := Lookup(mem, r, vpn);
    if e.v && e.ppn in mem && mem[e.ppn].Data? then mem[e.ppn].bytes else []
  }

  /** Page vpn of r is mapped as it was, to the same bytes. */
  ghost predicate Kept(vm: VM, vm': VM, r: nat, vpn: nat) {
    && Lookup(vm'.mem, r, vpn) == Lookup(vm.mem, r, vpn)
    && (vpn < TRAPFRAME ==> UserPage(vm'.mem, r, vpn) == UserPage(vm.mem, r, vpn))
  }

  ghost predicate AllKept(vm: VM, vm': VM, r: nat) {
    forall v {:trigger Kept(vm, vm', r, v)} :: 0 <= v < MAXVPN ==> Kept(vm, vm', r, v)
  }

  ghost predicate PageSame(vm: VM, vm': VM, p: nat) {
    && p in vm'.home && p in vm.home && vm'.home[p] == vm.home[p]
    && (p in vm.mem ==> p in vm'.mem && vm'.mem[p] == vm.mem[p])
  }

  /**
   Every page that is not r's, whatever it is used for, is used for that still, holds what it held, and there are no
   others.
   */
  ghost predicate Others(vm: VM, vm': VM, r: nat) {
    && (forall p {:trigger p in vm.home} :: p in vm.home && !Owns(r, vm.home[p]) ==> PageSame(vm, vm', p))
    && (forall p {:trigger p in vm'.home} :: p in vm'.home && !Owns(r, vm'.home[p]) ==>
        p in vm.home && vm.home[p] == vm'.home[p])
  }

  ghost predicate OthersSame(vm: VM, vm': VM, r: nat) {
    vm'.spaces == vm.spaces && Others(vm, vm', r)
  }

  lemma {:induction false} OthersSameChain(a: VM, b: VM, c: VM, r: nat)
    requires OthersSame(a, b, r) && OthersSame(b, c, r)
    ensures OthersSame(a, c, r)
  {
  }

  /** Another space sees no change at all. */
  lemma {:induction false} OthersKept(vm: VM, vm': VM, r: nat, s: nat)
    requires Ok(vm) && Others(vm, vm', r) && s in vm.spaces && s != r
    ensures AllKept(vm, vm', s)
  {
    UsesFit(vm);
    WalkFrame(vm, vm'.mem, s);
    forall v {:trigger Kept(vm, vm', s, v)} | 0 <= v < MAXVPN ensures Kept(vm, vm', s, v) {
      assert LeafOk(vm, s, v);
    }
  }

  /** Same translations and same contents of the pages they lead to. */
  lemma {:induction false} SameMapsKept(vm: VM, vm': VM, r: nat)
    requires Ok(vm) && SameMaps(vm, vm') && r in vm.spaces
    requires forall p {:trigger p in vm.home} :: p in vm.home && vm.home[p].Leaf? && vm.home[p].root == r ==>
               p in vm'.mem && p in vm.mem && vm'.mem[p] == vm.mem[p]
    ensures AllKept(vm, vm', r)
  {
    forall v {:trigger Kept(vm, vm', r, v)} | 0 <= v < MAXVPN ensures Kept(vm, vm', r, v) {
      assert LeafOk(vm, r, v);
    }
  }
}
