/**
 malloc() and free() (user/umalloc.c).  Addresses and sizes are in units the size of a
 header; what sbrk() would return is a parameter.
 */
module UserHeap {

  import opened Basics
  import opened FreeRing

  const HEADER: nat := 16        // bytes in a unit
  const MORE: nat := 4096        // the least that is asked of sbrk

  /** The fewest units that hold a header and nbytes bytes. */
  function Units(nbytes: nat): (n: nat)
    ensures 0 < n && Room(n) >= nbytes && (n == 1 || Room(n - 1) < nbytes)
  {
    (nbytes + HEADER - 1) / HEADER + 1
  }

  /** The bytes after the header of a block of n units. */
  function Room(n: nat): nat
    requires 0 < n
  {
    (n - 1) * HEADER
  }

  /** As many as are needed, and at least 64 kilobytes. */
  function Asked(nu: nat): (n: nat)
    ensures n >= nu && n * HEADER >= 0x1_0000 && (n == nu || n * HEADER == 0x1_0000)
  {
    if nu < MORE then MORE else nu
  }

  /** What becomes of a number when it is passed as a C int. */
  function AsInt(n: nat): int {
    var m := n % 0x1_0000_0000;
    if m < 0x8000_0000 then m else m - 0x1_0000_0000
  }

  /** sbrk() takes an int: what morecore() asks for arrives as asked exactly when the allocation is below 2 GB. */
  lemma {:induction false} SbrkArgument(nbytes: nat)
    requires nbytes < 0x1_0000_0000
    ensures AsInt(Asked(Units(nbytes)) * HEADER) == Asked(Units(nbytes)) * HEADER <==> nbytes <= 0x7FFF_FFE0
  {
  }

  // ---------------------------------------------------------------- what is promised to users

  ghost predicate InUse(h: H, b: nat) {
    b in h.blocks && !h.blocks[b].free
  }

  /** A block in use is still in use, and nothing in it has changed. */
  ghost predicate UserSame(h: H, h': H, c: nat) {
    InUse(h, c) && InUse(h', c) && h'.blocks[c].size == h.blocks[c].size && SameUnits(h, h', c)
  }

  ghost predicate SameUnits(h: H, h': H, c: nat) {
    forall u {:trigger h.own[u]} :: u in h.own && h.own[u] == c ==>
      u in h'.own && h'.own[u] == c && u in h.mem && u in h'.mem && h'.mem[u] == h.mem[u]
  }

  /** The same blocks are in use, with the same contents, but for block b. */
  ghost predicate UsersSame(h: H, h': H, b: nat) {
    && (forall c {:trigger InUse(h, c)} :: InUse(h, c) && c != b ==> UserSame(h, h', c))
    && (forall c {:trigger InUse(h', c)} :: InUse(h', c) && c != b ==> InUse(h, c))
  }

  lemma {:induction false} UsersChain(g: H, h: H, h': H, b: nat)
    requires UsersSame(g, h, b) && UsersSame(h, h', b)
    ensures UsersSame(g, h', b)
  {
    forall c {:trigger InUse(g, c)} | InUse(g, c) && c != b ensures UserSame(g, h', c) {
      assert UserSame(g, h, c) && InUse(h, c) && UserSame(h, h', c);
    }
    forall c {:trigger InUse(h', c)} | InUse(h', c) && c != b ensures InUse(g, c) {
      assert InUse(h, c);
    }
  }

  ghost predicate SameHeap(h: H, h': H) {
    h'.base == h.base && forall u {:trigger u in h'.own} :: u in h'.own <==> u in h.own
  }

  lemma {:induction false} InsertUsers(h: H, t: nat, b: nat)
    requires Ok(h) && Belongs(h, t, b) && h.ring[t] in h.mem && b in h.mem
    ensures UsersSame(h, Insert(h, t, b), b) && SameHeap(h, Insert(h, t, b))
  {
    var h' := Insert(h, t, b);
    assert RingOk(h, t) && BlockOk(h, b);
    if 0 < t { assert BlockOk(h, h.ring[t]); assert h.ring[t] in h.own; }
    assert b in h.own;
    forall c {:trigger InUse(h, c)} | InUse(h, c) && c != b ensures UserSame(h, h', c) {
      assert BlockOk(h, c);
      forall u {:trigger h.own[u]} | u in h.own && h.own[u] == c
        ensures u in h'.own && h'.own[u] == c && u in h.mem && u in h'.mem && h'.mem[u] == h.mem[u]
      {
        assert OwnOk(h, u);
      }
    }
  }

  lemma {:induction false} MergeUsers(h: H, t: nat, b: nat)
    requires Ok(h) && Touches(h, t)
    ensures UsersSame(h, Merge(h, t), b) && SameHeap(h, Merge(h, t))
  {
    var h' := Merge(h, t);
    var q, r := h.ring[t], h.ring[t + 1];
    assert RingOk(h, t) && RingOk(h, t + 1) && BlockOk(h, q) && BlockOk(h, r);
    assert q in h.own && r in h.own;
    forall c {:trigger InUse(h, c)} | InUse(h, c) && c != b ensures UserSame(h, h', c) {
      forall u {:trigger h.own[u]} | u in h.own && h.own[u] == c
        ensures u in h'.own && h'.own[u] == c && u in h.mem && u in h'.mem && h'.mem[u] == h.mem[u]
      {
        assert OwnOk(h, u);
      }
    }
    forall u {:trigger u in h'.own} ensures u in h'.own <==> u in h.own {
    }
  }

  // ---------------------------------------------------------------- gaps

  /** Every gap is there, but perhaps at x and y. */
  ghost predicate GapsBut2(h: H, x: nat, y: nat) {
    forall k: nat {:trigger GapAt(h, k)} :: k != x && k != y ==> GapAt(h, k)
  }

  lemma {:induction false} InsertGaps(h: H, t: nat, b: nat)
    requires Ok(h) && Coalesced(h) && Belongs(h, t, b) && h.ring[t] in h.mem && b in h.mem
    ensures GapsBut2(Insert(h, t, b), t, t + 1)
  {
    var h' := Insert(h, t, b);
    forall k: nat {:trigger GapAt(h', k)} | k != t && k != t + 1 ensures GapAt(h', k) {
      assert GapAt(h, k) && (0 < k ==> GapAt(h, k - 1));
    }
  }

  lemma {:induction false} MergeGaps(h: H, x: nat, t: nat)
    requires Ok(h) && Touches(h, t) && x <= t && GapsBut2(h, x, t)
    ensures if x < t then GapsBut2(Merge(h, t), x, x) else Coalesced(Merge(h, t))
  {
    var h' := Merge(h, t);
    forall k: nat {:trigger GapAt(h', k)} | x < t ==> k != x ensures GapAt(h', k) {
      assert (k != x && k != t ==> GapAt(h, k)) && (t <= k ==> GapAt(h, k + 1));
      if k < |h.ring| && h.ring[k] == h.ring[t] { PlaceUnique(h, k, t); }
      if k + 1 < |h.ring| && h.ring[k + 1] == h.ring[t] { PlaceUnique(h, k + 1, t); }
    }
  }

  /** Two neighbours in the ring that do not touch have a gap. */
  lemma {:induction false} GapOrTouch(h: H, t: nat)
    requires Ok(h)
    ensures GapAt(h, t) || Touches(h, t)
  {
    if 0 < t && t + 1 < |h.ring| {
      assert RingOk(h, t) && RingOk(h, t + 1) && SortedAt(h.ring, t) && LinkOk(h, t) && LinkOk(h, t + 1);
      BlocksApart(h, h.ring[t], h.ring[t + 1]);
    }
  }

  // ---------------------------------------------------------------- what free() makes of the heap

  ghost function Joined(h: H, t: nat): H {
    if Touches(h, t) then Merge(h, t) else h
  }

  /** Block b goes in after the header at t, and is joined to the next and to the one before where they touch. */
  ghost function Freed(h: H, t: nat, b: nat): H
    requires Belongs(h, t, b) && h.ring[t] in h.mem && b in h.mem
  {
    Joined(Joined(Insert(h, t, b), t + 1), t)
  }

  lemma {:induction false} JoinedOk(h: H, x: nat, t: nat, b: nat)
    requires Ok(h) && x <= t < |h.ring| && GapsBut2(h, x, t)
    ensures var h' := Joined(h, t);
      && Ok(h') && UsersSame(h, h', b) && SameHeap(h, h') && t < |h'.ring|
      && (forall k {:trigger h'.ring[k]} :: 0 <= k <= t ==> h'.ring[k] == h.ring[k])
      && (if x < t then GapsBut2(h', x, x) else Coalesced(h'))
  {
    GapOrTouch(h, t);
    if Touches(h, t) {
      MergeOk(h, t);
      MergeUsers(h, t, b);
      MergeGaps(h, x, t);
    } else {
      assert forall c {:trigger InUse(h, c)} :: InUse(h, c) ==> UserSame(h, h, c) by {
        forall c {:trigger InUse(h, c)} | InUse(h, c) ensures UserSame(h, h, c) {
          UserItself(h, c);
        }
      }
    }
  }

  lemma {:induction false} UserItself(h: H, c: nat)
    requires Ok(h) && InUse(h, c)
    ensures UserSame(h, h, c)
  {
    forall u {:trigger h.own[u]} | u in h.own && h.own[u] == c ensures u in h.mem {
      assert OwnOk(h, u);
    }
  }

  /** Halfway: the block is in the ring, joined to the one after it. */
  lemma {:induction false} HalfFreedOk(h: H, t: nat, b: nat)
    requires Ok(h) && Coalesced(h) && Belongs(h, t, b)
    ensures h.ring[t] in h.mem && b in h.mem
    ensures var h2 := Joined(Insert(h, t, b), t + 1);
      Ok(h2) && UsersSame(h, h2, b) && SameHeap(h, h2) && t + 1 < |h2.ring| && h2.ring[t] == h.ring[t] &&
        GapsBut2(h2, t, t)
  {
    InsertOk(h, t, b);
    InsertUsers(h, t, b);
    InsertGaps(h, t, b);
    var h1 := Insert(h, t, b);
    JoinedOk(h1, t, t + 1, b);
    UsersChain(h, h1, Joined(h1, t + 1), b);
  }

  lemma {:induction false} FreedOk(h: H, t: nat, b: nat)
    requires Ok(h) && Coalesced(h) && Belongs(h, t, b)
    ensures h.ring[t] in h.mem && b in h.mem
    ensures var h' := Freed(h, t, b);
      Ok(h') && Coalesced(h') && UsersSame(h, h', b) && SameHeap(h, h') && t < |h'.ring| && h'.ring[t] == h.ring[t]
  {
    HalfFreedOk(h, t, b);
    var h2 := Joined(Insert(h, t, b), t + 1);
    JoinedOk(h2, t, t, b);
    UsersChain(h, h2, Joined(h2, t), b);
  }

  /** The freed block is inside a free block. */
  ghost predicate WithinFree(h: H, b: nat, n: nat) {
    exists q {:trigger h.blocks[q]} :: q in h.blocks && h.blocks[q].free && q <= b && b + n <= q + h.blocks[q].size
  }

  lemma {:induction false} FreedWithin(h: H, t: nat, b: nat)
    requires Ok(h) && Belongs(h, t, b) && h.ring[t] in h.mem && b in h.mem
    ensures WithinFree(Freed(h, t, b), b, h.blocks[b].size)
  {
    var h1 := Insert(h, t, b);
    var h2 := Joined(h1, t + 1);
    assert h1.ring[t + 1] == b;
    assert h2.blocks[b].free && h2.blocks[b].size >= h.blocks[b].size && t + 1 < |h2.ring| && h2.ring[t + 1] == b;
    var h3 := Joined(h2, t);
    if Touches(h2, t) {
      var q := h2.ring[t];
      assert h3.blocks[q].free && q + h3.blocks[q].size >= b + h.blocks[b].size;
    } else {
      assert h3.blocks[b].free;
    }
  }

  /** What free() writes, once it has found the header p after which b belongs. */
  function LinkedMem(mem: map<nat, Unit>, p: nat, b: nat): map<nat, Unit>
    requires p in mem && b in mem && (b + mem[b].size == mem[p].ptr ==> mem[p].ptr in mem)
  {
    var nxt := mem[p].ptr;
    var mem1 := mem[b := if b + mem[b].size == nxt then Unit(mem[nxt].ptr, mem[b].size + mem[nxt].size)
                         else mem[b].(ptr := nxt)];
    mem1[p := if p + mem1[p].size == b then Unit(mem1[b].ptr, mem1[p].size + mem1[b].size) else mem1[p].(ptr := b)]
  }

  /** The memory that free() leaves is that of Freed. */
  lemma {:induction false} FreedMem(h: H, t: nat, b: nat)
    requires Ok(h) && Belongs(h, t, b)
    ensures h.ring[t] in h.mem && b in h.mem
    ensures b + h.mem[b].size == h.mem[h.ring[t]].ptr ==> h.mem[h.ring[t]].ptr in h.mem
    ensures LinkedMem(h.mem, h.ring[t], b) == Freed(h, t, b).mem
  {
    var p := h.ring[t];
    InsertOk(h, t, b);
    assert LinkOk(h, t) && BlockOk(h, b) && RingOk(h, t);
    var nxt := h.mem[p].ptr;
    var h1 := Insert(h, t, b);
    var h2 := Joined(h1, t + 1);
    assert h1.ring[t + 1] == b && h1.ring[t] == p;
    FreedNext(h, t, b);
    FreedPrev(h, t, b, h2);
  }

  lemma {:induction false} FreedNext(h: H, t: nat, b: nat)
    requires Ok(h) && Belongs(h, t, b) && h.ring[t] in h.mem && b in h.mem
    ensures var h1, nxt := Insert(h, t, b), h.mem[h.ring[t]].ptr;
      && (b + h.mem[b].size == nxt <==> Touches(h1, t + 1))
      && (Touches(h1, t + 1) ==> h1.ring[t + 2] == nxt && nxt in h.blocks && nxt != h.ring[t] && nxt != b)
      && (Touches(h1, t + 1) ==> h.mem[nxt].size == h.blocks[nxt].size && h1.mem[nxt] == h.mem[nxt])
  {
    var h1 := Insert(h, t, b);
    assert LinkOk(h, t) && LinkOk(h, t + 1) && BlockOk(h, b) && RingOk(h, t + 1) && SortedAt(h.ring, t);
    if t + 1 < |h.ring| {
      assert BlockOk(h, h.ring[t + 1]);
      assert h1.ring[t + 2] == h.ring[t + 1] && h1.ring[t + 1] == b;
    }
  }

  lemma {:induction false} FreedPrev(h: H, t: nat, b: nat, h2: H)
    requires Ok(h) && Belongs(h, t, b) && h.ring[t] in h.mem && b in h.mem && h2 == Joined(Insert(h, t, b), t + 1)
    ensures Touches(h2, t) <==> h.ring[t] + h.mem[h.ring[t]].size == b
    ensures t + 1 < |h2.ring| && h2.ring[t] == h.ring[t] && h2.ring[t + 1] == b
    ensures 0 < t ==> h.ring[t] in h2.blocks && h2.blocks[h.ring[t]].size == h.mem[h.ring[t]].size
    ensures b in h2.blocks && b in h2.mem && h2.blocks[b].size == h2.mem[b].size
  {
    var h1 := Insert(h, t, b);
    assert LinkOk(h, t) && BlockOk(h, b) && RingOk(h, t) && RingOk(h, t + 1);
    assert h1.ring[t] == h.ring[t] && h1.ring[t + 1] == b;
    if 0 < t { assert BlockOk(h, h.ring[t]); }
    if Touches(h1, t + 1) {
      assert h1.ring[t + 2] == h.ring[t + 1];
      assert SortedAt(h.ring, t) && BlockOk(h, h.ring[t + 1]);
    }
  }

  // ---------------------------------------------------------------- where a block belongs

  /** The last header, at or before k, that is below b. */
  ghost function LastBelow(ring: seq<nat>, b: nat, k: nat): (t: nat)
    requires k < |ring| && ring[0] < b
    ensures t <= k && ring[t] < b && (t < k ==> b <= ring[t + 1])
  {
    if ring[k] < b then k else LastBelow(ring, b, k - 1)
  }

  lemma {:induction false} PlaceExists(h: H, b: nat) returns (t: nat)
    requires Ok(h) && InUse(h, b)
    ensures Belongs(h, t, b)
  {
    assert BlockOk(h, b);
    t := LastBelow(h.ring, b, |h.ring| - 1);
    if t + 1 < |h.ring| {
      assert RingOk(h, t + 1);
    }
  }

  /** The tests in the loop of free(), at the header at k, find exactly whether b belongs there. */
  lemma {:induction false} PlaceTest(h: H, k: nat, b: nat)
    requires Ok(h) && InUse(h, b) && k < |h.ring|
    ensures h.ring[k] in h.mem
    ensures var p, nxt := h.ring[k], h.mem[h.ring[k]].ptr;
      (b > p && b < nxt) || (p >= nxt && (b > p || b < nxt)) <==> Belongs(h, k, b)
  {
    assert LinkOk(h, k) && SortedAt(h.ring, k) && BlockOk(h, b);
    if 0 < k { Ascending(h, 0, k); }
  }

  /** Steps from k to t, going round. */
  function Steps(n: nat, k: nat, t: nat): nat
    requires k < n && t < n
  {
    if k <= t then t - k else t + n - k
  }

  // ---------------------------------------------------------------- taking a block

  lemma {:induction false} TakeUsers(h: H, t: nat)
    requires Ok(h) && 0 < t < |h.ring| && h.ring[t] in h.blocks && h.ring[t] in h.mem && h.ring[t - 1] in h.mem
    ensures UsersSame(h, Take(h, t), h.ring[t]) && SameHeap(h, Take(h, t))
  {
    var h' := Take(h, t);
    assert RingOk(h, t) && RingOk(h, t - 1);
    if 1 < t { assert BlockOk(h, h.ring[t - 1]); assert h.ring[t - 1] in h.own; }
    forall c {:trigger InUse(h, c)} | InUse(h, c) && c != h.ring[t] ensures UserSame(h, h', c) {
      forall u {:trigger h.own[u]} | u in h.own && h.own[u] == c
        ensures u in h'.own && h'.own[u] == c && u in h.mem && u in h'.mem && h'.mem[u] == h.mem[u]
      {
        assert OwnOk(h, u);
      }
    }
  }

  lemma {:induction false} TakeGaps(h: H, t: nat)
    requires Ok(h) && Coalesced(h) && 0 < t < |h.ring| && h.ring[t] in h.blocks && h.ring[t] in h.mem &&
      h.ring[t - 1] in h.mem
    ensures Coalesced(Take(h, t))
  {
    var h' := Take(h, t);
    forall k: nat {:trigger GapAt(h', k)} ensures GapAt(h', k) {
      assert GapAt(h, k) && GapAt(h, k + 1);
      assert SortedAt(h.ring, k + 1) && RingOk(h, k);
    }
  }

  lemma {:induction false} CutUsers(h: H, t: nat, n: nat)
    requires Ok(h) && 0 < t < |h.ring| && h.ring[t] in h.blocks && 0 < n < h.blocks[h.ring[t]].size
    requires h.ring[t] in h.mem && Tail(h, h.ring[t], n) in h.mem && Tail(h, h.ring[t], n) !in h.blocks
    ensures UsersSame(h, Cut(h, t, n), Tail(h, h.ring[t], n)) && SameHeap(h, Cut(h, t, n))
  {
    var h' := Cut(h, t, n);
    var q := h.ring[t];
    var p := Tail(h, q, n);
    assert RingOk(h, t) && BlockOk(h, q);
    assert q in h.own && p in h.own;
    forall c {:trigger InUse(h, c)} | InUse(h, c) && c != p ensures UserSame(h, h', c) {
      forall u {:trigger h.own[u]} | u in h.own && h.own[u] == c
        ensures u in h'.own && h'.own[u] == c && u in h.mem && u in h'.mem && h'.mem[u] == h.mem[u]
      {
        assert OwnOk(h, u);
      }
    }
    forall u {:trigger u in h'.own} ensures u in h'.own <==> u in h.own {
      assert p <= u < p + n ==> u in h.own;
    }
  }

  lemma {:induction false} CutGaps(h: H, t: nat, n: nat)
    requires Ok(h) && Coalesced(h) && 0 < t < |h.ring| && h.ring[t] in h.blocks && 0 < n < h.blocks[h.ring[t]].size
    requires h.ring[t] in h.mem && Tail(h, h.ring[t], n) in h.mem && Tail(h, h.ring[t], n) !in h.blocks
    ensures Coalesced(Cut(h, t, n))
  {
    var h' := Cut(h, t, n);
    forall k: nat {:trigger GapAt(h', k)} ensures GapAt(h', k) {
      assert GapAt(h, k) && RingOk(h, k);
    }
  }

  /** The block given out: n units, in use now, none of which was in use before. */
  ghost predicate GivenOut(h: H, h': H, b: nat, n: nat) {
    && InUse(h', b) && h'.blocks[b].size == n && UsersSame(h, h', b) && !InUse(h, b)
    && forall u {:trigger u in h.own} :: b <= u < b + n && u in h.own ==>
        h.own[u] in h.blocks && h.blocks[h.own[u]].free
  }

  /** Block b has room for nbytes bytes after its header, and no block smaller would. */
  ghost predicate Fits(h: H, b: nat, nbytes: nat) {
    && b in h.blocks && 1 <= h.blocks[b].size && (h.blocks[b].size - 1) * 16 >= nbytes
    && (nbytes > 0 ==> (h.blocks[b].size - 2) * 16 < nbytes) && (nbytes == 0 ==> h.blocks[b].size == 1)
  }

  /** What malloc() does when it finds a block that is large enough: the whole of it, or its end. */
  ghost function Given(h: H, t: nat, n: nat): H
    requires 0 < t < |h.ring| && h.ring[t] in h.blocks && 0 < n <= h.blocks[h.ring[t]].size
    requires h.ring[t] in h.mem && h.ring[t - 1] in h.mem
    requires n < h.blocks[h.ring[t]].size ==> Tail(h, h.ring[t], n) in h.mem
  {
    if n == h.blocks[h.ring[t]].size then Take(h, t) else Cut(h, t, n)
  }

  lemma {:induction false} GivenOk(h: H, t: nat, n: nat)
    requires Ok(h) && Coalesced(h) && 0 < t < |h.ring| && h.ring[t] in h.blocks && 0 < n <= h.blocks[h.ring[t]].size
    ensures h.ring[t] in h.mem && h.ring[t - 1] in h.mem
    ensures n < h.blocks[h.ring[t]].size ==> Tail(h, h.ring[t], n) in h.mem
    ensures h.mem[h.ring[t]].size == h.blocks[h.ring[t]].size
    ensures var h', size := Given(h, t, n), h.blocks[h.ring[t]].size;
      && Ok(h') && Coalesced(h') && SameHeap(h, h') && GivenOut(h, h', h.ring[t] + (size - n), n)
      && t - 1 < |h'.ring| && h'.ring[t - 1] == h.ring[t - 1]
  {
    var q := h.ring[t];
    assert RingOk(h, t) && BlockOk(h, q) && LinkOk(h, t) && LinkOk(h, t - 1);
    if n == h.blocks[q].size {
      TakeOk(h, t);
      TakeUsers(h, t);
      TakeGaps(h, t);
    } else {
      CutOk(h, t, n);
      CutUsers(h, t, n);
      CutGaps(h, t, n);
    }
  }

  // ---------------------------------------------------------------- going round the ring

  /** The place that is j + 1 places after f, in a ring of n. */
  function Round(n: nat, f: nat, j: nat): (k: nat)
    requires f < n && j < n
    ensures k < n
    ensures k == f <==> j == n - 1
  {
    if f + 1 + j < n then f + 1 + j else f + 1 + j - n
  }

  /** The first j places after f have blocks too small for n units. */
  ghost predicate TooSmall(h: H, f: nat, j: nat, n: nat)
    requires f < |h.ring| && j <= |h.ring|
  {
    forall i {:trigger Round(|h.ring|, f, i)} :: 0 <= i < j ==> SizeAt(h, Round(|h.ring|, f, i)) < n
  }

  function SizeAt(h: H, k: nat): nat {
    if k < |h.ring| && h.ring[k] in h.mem then h.mem[h.ring[k]].size else 0
  }

  /** Block b is the end, n units of it, of the first free block after freep that is large enough. */
  ghost predicate FirstFit(h: H, freep: nat, b: nat, n: nat) {
    exists f, j {:trigger FitAt(h, f, j, b, n)} ::
      0 <= f < |h.ring| && h.ring[f] == freep && 0 <= j && FitAt(h, f, j, b, n)
  }

  ghost predicate FitAt(h: H, f: nat, j: nat, b: nat, n: nat)
    requires f < |h.ring|
  {
    && j < |h.ring| && TooSmall(h, f, j, n) && n <= SizeAt(h, Round(|h.ring|, f, j))
    && b + n == h.ring[Round(|h.ring|, f, j)] + SizeAt(h, Round(|h.ring|, f, j))
  }

  /** No free block has n units. */
  ghost predicate NoFit(h: H, n: nat) {
    forall b {:trigger h.blocks[b]} :: b in h.blocks && h.blocks[b].free ==> h.blocks[b].size < n
  }

  /** Having been all the way round, malloc() has seen every free block. */
  lemma {:induction false} AllSeen(h: H, f: nat, n: nat)
    requires Ok(h) && f < |h.ring| && TooSmall(h, f, |h.ring|, n)
    ensures NoFit(h, n)
  {
    forall b {:trigger h.blocks[b]} | b in h.blocks && h.blocks[b].free ensures h.blocks[b].size < n {
      assert Listed(h, b) && BlockOk(h, b);
      var k :| 0 <= k < |h.ring| && h.ring[k] == b;
      var i := if k > f then k - f - 1 else k + |h.ring| - f - 1;
      assert Round(|h.ring|, f, i) == k;
    }
  }

  // ---------------------------------------------------------------- the allocator

  /** Memory that sbrk() has just given: n units at a, all zero. */
  function Grown(mem: map<nat, Unit>, a: nat, n: nat): (r: map<nat, Unit>)
    ensures forall u {:trigger u in r} :: u in r <==> u in mem || a <= u < a + n
    ensures forall u {:trigger r[u]} :: u in r ==> r[u] == if a <= u < a + n then Unit(0, 0) else mem[u]
    decreases n
  {
    if n == 0 then mem else Grown(mem, a, n - 1)[a + n - 1 := Unit(0, 0)]
  }

  class Heap {
    var mem: map<nat, Unit>
    var freep: nat              // 0 before the first call
    const base: nat
    ghost var ring: seq<nat>
    ghost var blocks: map<nat, Block>
    ghost var own: map<nat, nat>

    ghost function State(): H
      reads this
    {
      H(mem, ring, blocks, own, base)
    }

    ghost predicate Valid()
      reads this
    {
      if freep == 0 then ring == [] && blocks == map[] && own == map[] && 0 < base
      else Ok(State()) && Coalesced(State()) && freep in ring
    }

    constructor (base: nat)
      requires 0 < base
      ensures Valid() && freep == 0 && this.base == base && blocks == map[] && own == map[]
    {
      this.base := base;
      mem, freep, ring, blocks, own := map[], 0, [], map[], map[];
    }

    /** The search in free(): it comes to the header after which b belongs, whichever it starts from. */
    method FindPlace(b: nat) returns (p: nat, ghost t: nat)
      requires Ok(State()) && freep in ring && InUse(State(), b)
      ensures Belongs(State(), t, b) && ring[t] == p
    {
      ghost var goal := PlaceExists(State(), b);
      p := freep;
      t :| 0 <= t < |ring| && ring[t] == freep;
      PlaceTest(State(), t, b);
      while !(b > p && b < mem[p].ptr)
        invariant t < |ring| && ring[t] == p && p in mem
        decreases Steps(|ring|, t, goal)
      {
        PlaceTest(State(), t, b);
        if p >= mem[p].ptr && (b > p || b < mem[p].ptr) {
          break;
        }
        assert t != goal;
        assert LinkOk(State(), t);
        t := if t + 1 < |ring| then t + 1 else 0;
        p := mem[p].ptr;
        PlaceTest(State(), t, b);
      }
      PlaceTest(State(), t, b);
    }

    /** Gives block b back.  It is joined to the free blocks it touches; every other block in use is as it was. */
    method Free(b: nat)
      requires Valid() && InUse(State(), b)
      modifies this
      ensures Valid() && freep != 0 && SameHeap(old(State()), State())
      ensures UsersSame(old(State()), State(), b) && !InUse(State(), b)
      ensures WithinFree(State(), b, old(blocks[b].size))
    {
      ghost var h := State();
      var p;
      ghost var t;
      p, t := FindPlace(b);
      FreedAll(h, t, b);
      Link(p, b);
      freep := p;
      ghost var h' := Freed(h, t, b);
      ring, blocks, own := h'.ring, h'.blocks, h'.own;
      assert State() == h';
      assert ring[t] == freep;
    }

    /** Links b in after p, joining blocks that touch. */
    method Link(p: nat, b: nat)
      requires p in mem && b in mem && (b + mem[b].size == mem[p].ptr ==> mem[p].ptr in mem)
      modifies `mem
      ensures mem == LinkedMem(old(mem), p, b)
    {
      var nxt := mem[p].ptr;
      if b + mem[b].size == nxt {
        mem := mem[b := Unit(mem[nxt].ptr, mem[b].size + mem[nxt].size)];
      } else {
        mem := mem[b := mem[b].(ptr := nxt)];
      }
      if p + mem[p].size == b {
        mem := mem[p := Unit(mem[b].ptr, mem[p].size + mem[b].size)];
      } else {
        mem := mem[p := mem[p].(ptr := b)];
      }
    }

    /** Asks sbrk for at least nu units and frees them, so that there is a free block that large; None if sbrk fails. */
    method Morecore(nu: nat, sbrk: Option<nat>) returns (ok: bool)
      requires Valid() && freep != 0 && 0 < nu && (sbrk.Some? ==> Fresh(State(), sbrk.value, Asked(nu)))
      modifies this
      ensures Valid() && freep != 0 && ok == sbrk.Some?
      ensures !ok ==> State() == old(State()) && freep == old(freep)
      ensures ok ==> !NoFit(State(), nu) && Extended(old(State()), State(), sbrk.value, Asked(nu))
    {
      if sbrk == None { return false; }
      var a, n := sbrk.value, Asked(nu);
      ghost var h := State();
      var grown := Grown(mem, a, n);
      assert a in grown;
      mem := grown[a := grown[a].(size := n)];
      ExtendOk(h, a, n, mem);
      ghost var h1 := Extend(h, a, n, mem);
      ExtendGaps(h, a, n, mem);
      ExtendUsers(h, a, n, mem);
      blocks, own := h1.blocks, h1.own;
      assert State() == h1;
      Free(a);
      ExtendedThenFreed(h, h1, State(), a, n);
      FitWithin(State(), a, n, nu);
      ok := true;
    }

    /**
     A block of nbytes bytes, none of them in use before; every block in use stays as it was.
     0 only if no free block is large enough and sbrk fails; sbrk is called at most once.
     */
    method Malloc(nbytes: nat, sbrk: Option<nat>) returns (r: nat, ghost grew: bool)
      requires Valid() && nbytes <= 0x7FFF_FFE0
      requires sbrk.Some? ==> Fresh(State(), sbrk.value, Asked(Units(nbytes)))
      modifies this
      ensures Valid() && freep != 0
      ensures r == 0 ==> sbrk == None && NoFit(old(State()), Units(nbytes)) && UsersSame(old(State()), State(), 0)
      ensures r != 0 ==> GivenOut(old(State()), State(), r - 1, Units(nbytes))
      ensures r != 0 ==> Fits(State(), r - 1, nbytes)
      ensures r != 0 && !grew ==> FirstFit(old(State()), old(freep), r - 1, Units(nbytes))
      ensures grew ==> sbrk.Some? && NoFit(old(State()), Units(nbytes))
      ensures if grew then HeapGrew(old(State()), State(), sbrk.value, Asked(Units(nbytes)))
        else SameHeap(old(State()), State())
    {
      var nunits := Units(nbytes);
      if freep == 0 {
        mem := mem[base := Unit(base, 0)];
        freep := base;
        ring := [base];
        FirstRing(State());
      }
      UsersItself(old(State()), State());
      r := Search(nunits);
      grew := r == 0;
      if r == 0 {
        ghost var h := State();
        var ok := Morecore(nunits, sbrk);
        if !ok { grew := false; return; }
        ghost var h1 := State();
        r := Search(nunits);
        GrownGivenOut(old(State()), h, h1, State(), sbrk.value, Asked(nunits), r - 1, nunits);
      }
    }

    /**
     malloc()'s way round the ring from freep: it stops at the first block that is large enough, or, with 0, back at
     freep.
     */
    method Search(nunits: nat) returns (r: nat)
      requires Valid() && freep != 0 && 0 < nunits
      modifies this
      ensures Valid() && freep != 0 && SameHeap(old(State()), State())
      ensures r == 0 ==> NoFit(State(), nunits) && State() == old(State()) && freep == old(freep)
      ensures r != 0 ==> GivenOut(old(State()), State(), r - 1, nunits)
      ensures r != 0 ==> FirstFit(old(State()), old(freep), r - 1, nunits)
    {
      ghost var h := State();
      ghost var f :| 0 <= f < |ring| && ring[f] == freep;
      var prevp := freep;
      assert LinkOk(h, f) && LinkOk(h, Round(|ring|, f, 0));
      var p := mem[prevp].ptr;
      ghost var j, k := 0, f;     // p is j places on; prevp is at k
      while true
        invariant 0 <= j < |ring| && State() == h && freep == old(freep) && f < |ring|
        invariant p == ring[Round(|ring|, f, j)] && p in mem && 0 <= k < |ring| && prevp == ring[k] && prevp in mem
        invariant Round(|ring|, f, j) == if k + 1 < |ring| then k + 1 else 0
        invariant TooSmall(h, f, j, nunits)
        decreases |ring| - j
      {
        ghost var t := Round(|ring|, f, j);
        if mem[p].size >= nunits {
          r := Allot(p, prevp, t, nunits);
          assert FitAt(h, f, j, r - 1, nunits);
          return;
        }
        if p == freep {
          PlaceUnique(h, t, f);
          AllSeen(h, f, nunits);
          return 0;
        }
        assert LinkOk(h, t) && LinkOk(h, Round(|ring|, f, j + 1));
        j, k := j + 1, t;
        prevp, p := p, mem[p].ptr;
      }
    }

    /** The block p, which is large enough, or the end of it. */
    method Allot(p: nat, prevp: nat, ghost t: nat, nunits: nat) returns (r: nat)
      requires Valid() && freep != 0 && 0 < nunits && t < |ring| && ring[t] == p && p in mem && mem[p].size >= nunits
      requires 0 < t ==> ring[t - 1] == prevp
      modifies this
      ensures Valid() && freep == prevp != 0 && SameHeap(old(State()), State()) && r != 0
      ensures r - 1 + nunits == p + old(mem[p].size)
      ensures GivenOut(old(State()), State(), r - 1, nunits)
    {
      ghost var h := State();
      assert RingOk(h, t) && BlockOk(h, p);
      GivenOk(h, t, nunits);
      var q := p;
      if mem[p].size == nunits {
        mem := mem[prevp := mem[prevp].(ptr := mem[p].ptr)];
      } else {
        var left := mem[p].size - nunits;
        mem := mem[p := mem[p].(size := left)];
        q := p + left;
        mem := mem[q := mem[q].(size := nunits)];
      }
      freep := prevp;
      ghost var h' := Given(h, t, nunits);
      ring, blocks, own := h'.ring, h'.blocks, h'.own;
      assert State() == h';
      assert ring[t - 1] == freep;
      FreepIsNotNull(h, t - 1);
      r := q + 1;
    }
  }

  // ---------------------------------------------------------------- glue

  lemma {:induction false} FreepIsNotNull(h: H, t: nat)
    requires Ok(h) && t < |h.ring|
    ensures h.ring[t] != 0
  {
    if 0 < t { Ascending(h, 0, t); }
  }

  lemma {:induction false} FreedNotInUse(h: H, t: nat, b: nat)
    requires Belongs(h, t, b) && h.ring[t] in h.mem && b in h.mem
    ensures !InUse(Freed(h, t, b), b)
  {
    assert Insert(h, t, b).ring[t + 1] == b;
  }

  /** What free() makes of the heap, all told. */
  lemma {:induction false} FreedAll(h: H, t: nat, b: nat)
    requires Ok(h) && Coalesced(h) && Belongs(h, t, b)
    ensures h.ring[t] in h.mem && b in h.mem && h.ring[t] != 0
    ensures b + h.mem[b].size == h.mem[h.ring[t]].ptr ==> h.mem[h.ring[t]].ptr in h.mem
    ensures LinkedMem(h.mem, h.ring[t], b) == Freed(h, t, b).mem
    ensures var h' := Freed(h, t, b);
      && Ok(h') && Coalesced(h') && UsersSame(h, h', b) && SameHeap(h, h') && t < |h'.ring| && h'.ring[t] == h.ring[t]
      && WithinFree(h', b, h.blocks[b].size) && !InUse(h', b)
  {
    FreedOk(h, t, b);
    FreedWithin(h, t, b);
    FreedMem(h, t, b);
    FreedNotInUse(h, t, b);
    FreepIsNotNull(h, t);
  }

  lemma {:induction false} UsersItself(h: H, h': H)
    requires Ok(h) || h.blocks == map[]
    requires h'.blocks == h.blocks && h'.own == h.own && (Ok(h) ==> h'.mem == h.mem)
    ensures UsersSame(h, h', 0) && !InUse(h, 0)
  {
    if Ok(h) {
      assert BlockOk(h, 0);
      forall c {:trigger InUse(h, c)} | InUse(h, c) ensures UserSame(h, h', c) {
        UserItself(h, c);
      }
    }
  }

  /** One header, pointing at itself. */
  lemma {:induction false} FirstRing(h: H)
    requires h.ring == [h.base] && h.blocks == map[] && h.own == map[] && 0 < h.base
    requires h.base in h.mem && h.mem[h.base] == Unit(h.base, 0)
    ensures Ok(h) && Coalesced(h)
  {
    forall k: nat {:trigger LinkOk(h, k)} ensures LinkOk(h, k) {}
    forall k: nat {:trigger GapAt(h, k)} ensures GapAt(h, k) {}
  }

  /** The heap has n more units, at a, in free blocks; the blocks in use are as they were. */
  ghost predicate Extended(h: H, h': H, a: nat, n: nat) {
    UsersSame(h, h', a) && !InUse(h, a) && !InUse(h', a) && HeapGrew(h, h', a, n)
  }

  ghost predicate HeapGrew(h: H, h': H, a: nat, n: nat) {
    h'.base == h.base && forall u {:trigger u in h'.own} :: u in h'.own <==> u in h.own || a <= u < a + n
  }

  lemma {:induction false} ExtendGaps(h: H, a: nat, n: nat, mem: map<nat, Unit>)
    requires Ok(h) && Coalesced(h) && Fresh(h, a, n)
    ensures Coalesced(Extend(h, a, n, mem))
  {
    var h' := Extend(h, a, n, mem);
    assert BlockOk(h, a) && a !in h.own;
    forall k: nat {:trigger GapAt(h', k)} ensures GapAt(h', k) {
      assert GapAt(h, k) && RingOk(h, k);
    }
  }

  lemma {:induction false} ExtendUsers(h: H, a: nat, n: nat, mem: map<nat, Unit>)
    requires Ok(h) && Fresh(h, a, n)
    requires forall u {:trigger u in h.mem} :: u in h.mem && !(a <= u < a + n) ==> u in mem && mem[u] == h.mem[u]
    ensures UsersSame(h, Extend(h, a, n, mem), a) && !InUse(h, a) && HeapGrew(h, Extend(h, a, n, mem), a, n)
  {
    var h' := Extend(h, a, n, mem);
    assert BlockOk(h, a) && a !in h.own;
    forall c {:trigger InUse(h, c)} | InUse(h, c) && c != a ensures UserSame(h, h', c) {
      forall u {:trigger h.own[u]} | u in h.own && h.own[u] == c
        ensures u in h'.own && h'.own[u] == c && u in h.mem && u in h'.mem && h'.mem[u] == h.mem[u]
      {
        assert OwnOk(h, u);
      }
    }
  }

  lemma {:induction false} ExtendedThenFreed(h: H, h1: H, h2: H, a: nat, n: nat)
    requires UsersSame(h, h1, a) && !InUse(h, a) && HeapGrew(h, h1, a, n)
    requires UsersSame(h1, h2, a) && !InUse(h2, a) && SameHeap(h1, h2)
    ensures Extended(h, h2, a, n)
  {
    UsersChain(h, h1, h2, a);
  }

  lemma {:induction false} FitWithin(h: H, a: nat, n: nat, nu: nat)
    requires WithinFree(h, a, n) && nu <= n
    ensures !NoFit(h, nu)
  {
    var q :| q in h.blocks && h.blocks[q].free && q <= a && a + n <= q + h.blocks[q].size;
    assert h.blocks[q].size >= nu;
  }

  /** A block given out after the heap has grown was free, or not there, before. */
  lemma {:induction false} GrownGivenOut(g: H, h: H, h1: H, h2: H, a: nat, n: nat, b: nat, nu: nat)
    requires UsersSame(g, h, 0) && !InUse(g, 0) && SameHeap(g, h) && g.blocks == h.blocks && g.own == h.own
    requires Ok(h) && Ok(h1) && Ok(h2) && Extended(h, h1, a, n) && GivenOut(h1, h2, b, nu) && SameHeap(h1, h2)
    ensures GivenOut(g, h2, b, nu) && HeapGrew(g, h2, a, n)
  {
    forall u {:trigger u in g.own} | b <= u < b + nu && u in g.own
      ensures g.own[u] in g.blocks && g.blocks[g.own[u]].free
    {
      assert OwnOk(h, u) && u in h1.own;
      assert InUse(h, g.own[u]) ==> UserSame(h, h1, g.own[u]);
    }
    forall c {:trigger InUse(g, c)} | InUse(g, c) && c != b ensures UserSame(g, h2, c) {
      assert UserSame(g, h, c) && InUse(h, c) && UserSame(h, h1, c) && InUse(h1, c) && UserSame(h1, h2, c);
    }
    forall c {:trigger InUse(h2, c)} | InUse(h2, c) && c != b ensures InUse(g, c) {
      assert InUse(h1, c) && InUse(h, c);
    }
  }
}
