/**
 The free list of the user-level allocator (user/umalloc.c): a ring of headers in the
 memory that is being allocated, in order of address, starting at a header of size 0.

 Memory is counted in units the size of a header.  Every unit of the heap is in exactly
 one block, in use or free; own says which.  The blocks and their owners are not part of
 the state the code has: it has only what is in memory.
 */
module FreeRing {

  datatype Unit = Unit(ptr: nat, size: nat)

  datatype Block = Block(size: nat, free: bool)

  datatype H = H(mem: map<nat, Unit>, ring: seq<nat>, blocks: map<nat, Block>, own: map<nat, nat>, base: nat)

  /** The element after the one at k, going round. */
  function Nxt(ring: seq<nat>, k: nat): nat
    requires k < |ring|
  {
    if k + 1 < |ring| then ring[k + 1] else ring[0]
  }

  // ---------------------------------------------------------------- the invariant

  ghost predicate LinkOk(h: H, k: nat) {
    k < |h.ring| ==> h.ring[k] in h.mem && h.mem[h.ring[k]].ptr == Nxt(h.ring, k)
  }

  ghost predicate SortedAt(ring: seq<nat>, k: nat) {
    k + 1 < |ring| ==> ring[k] < ring[k + 1]
  }

  /** Every header in the ring but the first is a free block's. */
  ghost predicate RingOk(h: H, k: nat) {
    0 < k < |h.ring| ==> h.ring[k] in h.blocks && h.blocks[h.ring[k]].free
  }

  ghost predicate Listed(h: H, b: nat) {
    b in h.blocks && h.blocks[b].free ==> b in h.ring
  }

  ghost predicate BlockOk(h: H, b: nat) {
    b in h.blocks ==>
      && h.base < b && 0 < h.blocks[b].size && b in h.mem && h.mem[b].size == h.blocks[b].size
      && Covers(h.own, b, h.blocks[b].size)
  }

  /** The n units from b on are b's. */
  ghost predicate Covers(own: map<nat, nat>, b: nat, n: nat) {
    forall u: nat {:trigger u in own} :: b <= u < b + n ==> u in own && own[u] == b
  }

  ghost predicate OwnOk(h: H, u: nat) {
    u in h.own ==> u in h.mem && h.own[u] in h.blocks && h.own[u] <= u < h.own[u] + h.blocks[h.own[u]].size
  }

  ghost predicate BaseOk(h: H) {
    0 < |h.ring| && h.ring[0] == h.base && 0 < h.base && h.base in h.mem && h.mem[h.base].size == 0 && h.base !in h.own
  }

  ghost predicate Ok(h: H) {
    && BaseOk(h)
    && (forall k: nat {:trigger LinkOk(h, k)} :: LinkOk(h, k))
    && (forall k: nat {:trigger SortedAt(h.ring, k)} :: SortedAt(h.ring, k))
    && (forall k: nat {:trigger RingOk(h, k)} :: RingOk(h, k))
    && (forall b: nat {:trigger Listed(h, b)} :: Listed(h, b))
    && (forall b: nat {:trigger BlockOk(h, b)} :: BlockOk(h, b))
    && (forall u: nat {:trigger OwnOk(h, u)} :: OwnOk(h, u))
  }

  /** The free block at k does not touch the next one. */
  ghost predicate GapAt(h: H, k: nat) {
    0 < k && k + 1 < |h.ring| && h.ring[k] in h.blocks ==> h.ring[k] + h.blocks[h.ring[k]].size < h.ring[k + 1]
  }

  ghost predicate Coalesced(h: H) {
    forall k: nat {:trigger GapAt(h, k)} :: GapAt(h, k)
  }

  // ---------------------------------------------------------------- order

  lemma {:induction false} Ascending(h: H, j: nat, k: nat)
    requires Ok(h) && j < k < |h.ring|
    ensures h.ring[j] < h.ring[k]
    decreases k
  {
    assert SortedAt(h.ring, k - 1);
    if j < k - 1 {
      Ascending(h, j, k - 1);
    }
  }

  lemma {:induction false} PlaceUnique(h: H, j: nat, k: nat)
    requires Ok(h) && j < |h.ring| && k < |h.ring| && h.ring[j] == h.ring[k]
    ensures j == k
  {
    if j < k { Ascending(h, j, k); }
    if k < j { Ascending(h, k, j); }
  }

  /** No two free blocks touch: whatever the ring looks like, a free block is as large as it can be. */
  lemma {:induction false} NoAdjacentFree(h: H, a: nat, b: nat)
    requires Ok(h) && Coalesced(h) && a in h.blocks && h.blocks[a].free && b in h.blocks && h.blocks[b].free
    ensures a + h.blocks[a].size != b
  {
    assert Listed(h, a) && Listed(h, b) && BlockOk(h, a) && BlockOk(h, b);
    var j :| 0 <= j < |h.ring| && h.ring[j] == a;
    var k :| 0 <= k < |h.ring| && h.ring[k] == b;
    if a < b {
      if k <= j { if k < j { Ascending(h, k, j); } }
      assert j < k;
      assert GapAt(h, j);
      if j + 1 < k { Ascending(h, j + 1, k); }
    }
  }

  /** Blocks do not overlap. */
  lemma {:induction false} BlocksApart(h: H, a: nat, b: nat)
    requires Ok(h) && a in h.blocks && b in h.blocks && a < b
    ensures a + h.blocks[a].size <= b
  {
    assert BlockOk(h, a) && BlockOk(h, b);
    assert b in h.own;
  }

  // ---------------------------------------------------------------- putting a block in the ring

  /** Block b belongs in the ring after the header at t. */
  ghost predicate Belongs(h: H, t: nat, b: nat) {
    && t < |h.ring| && b in h.blocks && !h.blocks[b].free
    && h.ring[t] < b && (t + 1 < |h.ring| ==> b < h.ring[t + 1])
  }

  function Inserted(ring: seq<nat>, t: nat, b: nat): (r: seq<nat>)
    requires t < |ring|
    ensures |r| == |ring| + 1
    ensures forall k {:trigger r[k]} :: 0 <= k < |r| ==> r[k] == if k <= t then ring[k] else if k == t + 1 then b
      else ring[k - 1]
  {
    ring[..t + 1] + [b] + ring[t + 1..]
  }

  ghost function Insert(h: H, t: nat, b: nat): H
    requires Belongs(h, t, b) && h.ring[t] in h.mem && b in h.mem
  {
    var p := h.ring[t];
    h.(mem := h.mem[b := h.mem[b].(ptr := h.mem[p].ptr)][p := h.mem[p].(ptr := b)],
       ring := Inserted(h.ring, t, b), blocks := h.blocks[b := Block(h.blocks[b].size, true)])
  }

  lemma {:induction false} InsertOk(h: H, t: nat, b: nat)
    requires Ok(h) && Belongs(h, t, b)
    ensures h.ring[t] in h.mem && b in h.mem && Ok(Insert(h, t, b))
  {
    assert LinkOk(h, t) && BlockOk(h, b) && RingOk(h, t);
    var h' := Insert(h, t, b);
    forall k: nat {:trigger LinkOk(h', k)} ensures LinkOk(h', k) {
      InsertLink(h, t, b, k);
    }
    forall k: nat {:trigger SortedAt(h'.ring, k)} ensures SortedAt(h'.ring, k) {
      assert SortedAt(h.ring, k) && (0 < k ==> SortedAt(h.ring, k - 1));
    }
    forall k: nat {:trigger RingOk(h', k)} ensures RingOk(h', k) {
      assert RingOk(h, k) && (0 < k ==> RingOk(h, k - 1));
    }
    forall c: nat {:trigger Listed(h', c)} ensures Listed(h', c) {
      assert Listed(h, c);
      if c == b || c in h.ring { InsertListed(h.ring, t, b, c); }
    }
    forall c: nat {:trigger BlockOk(h', c)} ensures BlockOk(h', c) {
      assert BlockOk(h, c);
    }
    forall u: nat {:trigger OwnOk(h', u)} ensures OwnOk(h', u) {
      assert OwnOk(h, u);
    }
  }

  lemma {:induction false} InsertListed(ring: seq<nat>, t: nat, b: nat, c: nat)
    requires t < |ring| && (c == b || c in ring)
    ensures c in Inserted(ring, t, b)
  {
    var r := Inserted(ring, t, b);
    if c == b {
      assert r[t + 1] == b;
    } else {
      var k :| 0 <= k < |ring| && ring[k] == c;
      assert r[if k <= t then k else k + 1] == c;
    }
  }

  lemma {:induction false} InsertLink(h: H, t: nat, b: nat, k: nat)
    requires Ok(h) && Belongs(h, t, b) && h.ring[t] in h.mem && b in h.mem
    ensures LinkOk(Insert(h, t, b), k)
  {
    assert LinkOk(h, t) && LinkOk(h, k) && (0 < k ==> LinkOk(h, k - 1)) && RingOk(h, k) && (0 < k ==> RingOk(h, k - 1));
    assert BlockOk(h, b);
    if k < |h.ring| && h.ring[k] == h.ring[t] { PlaceUnique(h, k, t); }
    if 0 < k && k - 1 < |h.ring| && h.ring[k - 1] == h.ring[t] { PlaceUnique(h, k - 1, t); }
  }

  // ---------------------------------------------------------------- joining two free blocks

  function Removed(ring: seq<nat>, t: nat): (r: seq<nat>)
    requires t < |ring|
    ensures |r| == |ring| - 1
    ensures forall k {:trigger r[k]} :: 0 <= k < |r| ==> r[k] == if k < t then ring[k] else ring[k + 1]
  {
    ring[..t] + ring[t + 1..]
  }

  lemma {:induction false} RemovedListed(ring: seq<nat>, t: nat, c: nat)
    requires t < |ring| && c in ring && c != ring[t]
    ensures c in Removed(ring, t)
  {
    var k :| 0 <= k < |ring| && ring[k] == c;
    assert Removed(ring, t)[if k < t then k else k - 1] == c;
  }

  /** The units from a, n of them, are b's. */
  function Claimed(own: map<nat, nat>, a: nat, n: nat, b: nat): (r: map<nat, nat>)
    ensures forall u {:trigger u in r} :: u in r <==> u in own || a <= u < a + n
    ensures forall u {:trigger r[u]} :: u in r ==> r[u] == if a <= u < a + n then b else own[u]
    decreases n
  {
    if n == 0 then own else Claimed(own, a, n - 1, b)[a + n - 1 := b]
  }

  /** The free block at t ends where the next one begins. */
  ghost predicate Touches(h: H, t: nat) {
    && 0 < t && t + 1 < |h.ring| && h.ring[t] in h.blocks && h.ring[t + 1] in h.blocks
    && h.ring[t] + h.blocks[h.ring[t]].size == h.ring[t + 1]
    && h.ring[t] in h.mem && h.ring[t + 1] in h.mem
  }

  ghost function Merge(h: H, t: nat): H
    requires Touches(h, t)
  {
    var q, r := h.ring[t], h.ring[t + 1];
    var size := h.blocks[q].size + h.blocks[r].size;
    h.(mem := h.mem[q := Unit(h.mem[r].ptr, size)], ring := Removed(h.ring, t + 1),
       blocks := h.blocks[q := Block(size, true)] - {r}, own := Claimed(h.own, r, h.blocks[r].size, q))
  }

  lemma {:induction false} MergeOk(h: H, t: nat)
    requires Ok(h) && Touches(h, t)
    ensures Ok(Merge(h, t))
  {
    var h' := Merge(h, t);
    var q, r := h.ring[t], h.ring[t + 1];
    assert RingOk(h, t) && RingOk(h, t + 1) && BlockOk(h, q) && BlockOk(h, r) && OwnOk(h, h.base);
    forall k: nat {:trigger LinkOk(h', k)} ensures LinkOk(h', k) {
      MergeLink(h, t, k);
    }
    forall k: nat {:trigger SortedAt(h'.ring, k)} ensures SortedAt(h'.ring, k) {
      assert SortedAt(h.ring, k) && SortedAt(h.ring, k + 1);
    }
    forall k: nat {:trigger RingOk(h', k)} ensures RingOk(h', k) {
      assert RingOk(h, k) && RingOk(h, k + 1);
      if k < |h.ring| && h.ring[k] == r { PlaceUnique(h, k, t + 1); }
      if k + 1 < |h.ring| && h.ring[k + 1] == r { PlaceUnique(h, k + 1, t + 1); }
    }
    forall c: nat {:trigger Listed(h', c)} ensures Listed(h', c) {
      assert Listed(h, c);
      if c in h.ring && c != r { RemovedListed(h.ring, t + 1, c); }
      if c == q { assert h'.ring[t] == q; }
    }
    forall c: nat {:trigger BlockOk(h', c)} ensures BlockOk(h', c) {
      MergeBlock(h, t, c);
    }
    forall u: nat {:trigger OwnOk(h', u)} ensures OwnOk(h', u) {
      assert OwnOk(h, u);
      assert r <= u < r + h.blocks[r].size ==> u in h.own;
    }
  }

  lemma {:induction false} MergeBlock(h: H, t: nat, c: nat)
    requires Ok(h) && Touches(h, t)
    ensures BlockOk(Merge(h, t), c)
  {
    var q, r := h.ring[t], h.ring[t + 1];
    assert RingOk(h, t) && RingOk(h, t + 1) && BlockOk(h, q) && BlockOk(h, r) && BlockOk(h, c);
    if c in h.blocks && c != q && c != r {
      if c < r { BlocksApart(h, c, r); } else { BlocksApart(h, r, c); }
    }
  }

  lemma {:induction false} MergeLink(h: H, t: nat, k: nat)
    requires Ok(h) && Touches(h, t)
    ensures LinkOk(Merge(h, t), k)
  {
    assert LinkOk(h, t) && LinkOk(h, t + 1) && LinkOk(h, k) && LinkOk(h, k + 1);
    if k < |h.ring| && h.ring[k] == h.ring[t] { PlaceUnique(h, k, t); }
    if k + 1 < |h.ring| && h.ring[k + 1] == h.ring[t] { PlaceUnique(h, k + 1, t); }
  }

  // ---------------------------------------------------------------- taking a whole block out of the ring

  ghost function Take(h: H, t: nat): H
    requires 0 < t < |h.ring| && h.ring[t] in h.blocks && h.ring[t] in h.mem && h.ring[t - 1] in h.mem
  {
    var p, q := h.ring[t - 1], h.ring[t];
    h.(mem := h.mem[p := h.mem[p].(ptr := h.mem[q].ptr)], ring := Removed(h.ring, t),
       blocks := h.blocks[q := Block(h.blocks[q].size, false)])
  }

  lemma {:induction false} TakeOk(h: H, t: nat)
    requires Ok(h) && 0 < t < |h.ring|
    ensures h.ring[t] in h.blocks && h.ring[t] in h.mem && h.ring[t - 1] in h.mem && Ok(Take(h, t))
  {
    assert LinkOk(h, t) && LinkOk(h, t - 1) && RingOk(h, t);
    var h' := Take(h, t);
    var q := h.ring[t];
    forall k: nat {:trigger LinkOk(h', k)} ensures LinkOk(h', k) {
      TakeLink(h, t, k);
    }
    forall k: nat {:trigger SortedAt(h'.ring, k)} ensures SortedAt(h'.ring, k) {
      assert SortedAt(h.ring, k) && SortedAt(h.ring, k + 1);
    }
    forall k: nat {:trigger RingOk(h', k)} ensures RingOk(h', k) {
      assert RingOk(h, k) && RingOk(h, k + 1);
      if k < |h.ring| && h.ring[k] == q { PlaceUnique(h, k, t); }
      if k + 1 < |h.ring| && h.ring[k + 1] == q { PlaceUnique(h, k + 1, t); }
    }
    forall c: nat {:trigger Listed(h', c)} ensures Listed(h', c) {
      assert Listed(h, c);
      if c in h.ring && c != q { RemovedListed(h.ring, t, c); }
    }
    forall c: nat {:trigger BlockOk(h', c)} ensures BlockOk(h', c) {
      assert BlockOk(h, c);
    }
    forall u: nat {:trigger OwnOk(h', u)} ensures OwnOk(h', u) {
      assert OwnOk(h, u);
    }
  }

  lemma {:induction false} TakeLink(h: H, t: nat, k: nat)
    requires Ok(h) && 0 < t < |h.ring| && h.ring[t] in h.blocks && h.ring[t] in h.mem && h.ring[t - 1] in h.mem
    ensures LinkOk(Take(h, t), k)
  {
    assert LinkOk(h, t) && LinkOk(h, t - 1) && LinkOk(h, k) && LinkOk(h, k + 1);
    if k < |h.ring| && h.ring[k] == h.ring[t - 1] { PlaceUnique(h, k, t - 1); }
    if k + 1 < |h.ring| && h.ring[k + 1] == h.ring[t - 1] { PlaceUnique(h, k + 1, t - 1); }
  }

  // ---------------------------------------------------------------- cutting the end off a block

  /** The block that is cut off the end of block q. */
  function Tail(h: H, q: nat, n: nat): nat
    requires q in h.blocks && n < h.blocks[q].size
  {
    q + (h.blocks[q].size - n)
  }

  ghost function Cut(h: H, t: nat, n: nat): H
    requires 0 < t < |h.ring| && h.ring[t] in h.blocks && 0 < n < h.blocks[h.ring[t]].size
    requires h.ring[t] in h.mem && Tail(h, h.ring[t], n) in h.mem
  {
    var q := h.ring[t];
    var p, left := Tail(h, q, n), h.blocks[q].size - n;
    h.(mem := h.mem[q := h.mem[q].(size := left)][p := h.mem[p].(size := n)],
       blocks := h.blocks[q := Block(left, true)][p := Block(n, false)], own := Claimed(h.own, p, n, p))
  }

  lemma {:induction false} CutOk(h: H, t: nat, n: nat)
    requires Ok(h) && 0 < t < |h.ring| && h.ring[t] in h.blocks && 0 < n < h.blocks[h.ring[t]].size
    ensures h.ring[t] in h.mem && Tail(h, h.ring[t], n) in h.mem && Tail(h, h.ring[t], n) !in h.blocks
    ensures Ok(Cut(h, t, n))
  {
    var q := h.ring[t];
    var p := Tail(h, q, n);
    assert RingOk(h, t) && BlockOk(h, q) && LinkOk(h, t);
    assert p in h.own && OwnOk(h, p) && BlockOk(h, p);
    var h' := Cut(h, t, n);
    forall k: nat {:trigger LinkOk(h', k)} ensures LinkOk(h', k) {
      assert LinkOk(h, k) && RingOk(h, k);
    }
    forall k: nat {:trigger RingOk(h', k)} ensures RingOk(h', k) {
      assert RingOk(h, k);
    }
    forall c: nat {:trigger Listed(h', c)} ensures Listed(h', c) {
      assert Listed(h, c);
    }
    forall c: nat {:trigger BlockOk(h', c)} ensures BlockOk(h', c) {
      CutBlock(h, t, n, c);
    }
    forall u: nat {:trigger OwnOk(h', u)} ensures OwnOk(h', u) {
      assert OwnOk(h, u);
      assert p <= u < p + n ==> u in h.own;
    }
  }

  lemma {:induction false} CutBlock(h: H, t: nat, n: nat, c: nat)
    requires Ok(h) && 0 < t < |h.ring| && h.ring[t] in h.blocks && 0 < n < h.blocks[h.ring[t]].size
    requires h.ring[t] in h.mem && Tail(h, h.ring[t], n) in h.mem && Tail(h, h.ring[t], n) !in h.blocks
    ensures BlockOk(Cut(h, t, n), c)
  {
    var q := h.ring[t];
    assert BlockOk(h, q) && BlockOk(h, c);
    if c in h.blocks && c != q {
      if c < q { BlocksApart(h, c, q); } else { BlocksApart(h, q, c); }
    }
  }

  // ---------------------------------------------------------------- more memory

  /** n units at a, which the heap does not have. */
  ghost predicate Fresh(h: H, a: nat, n: nat) {
    0 < n && h.base < a && forall u {:trigger u in h.own} :: a <= u < a + n ==> u !in h.own
  }

  /**
   The new memory, with a header at its start, is a block in use: the next thing that happens to it is to be freed.
   */
  ghost function Extend(h: H, a: nat, n: nat, mem: map<nat, Unit>): H {
    h.(mem := mem, blocks := h.blocks[a := Block(n, false)], own := Claimed(h.own, a, n, a))
  }

  lemma {:induction false} ExtendOk(h: H, a: nat, n: nat, mem: map<nat, Unit>)
    requires Ok(h) && Fresh(h, a, n)
    requires forall u {:trigger u in mem} :: a <= u < a + n ==> u in mem
    requires mem[a].size == n
    requires forall u {:trigger u in h.mem} :: u in h.mem && !(a <= u < a + n) ==> u in mem && mem[u] == h.mem[u]
    ensures a !in h.blocks && Ok(Extend(h, a, n, mem))
  {
    var h' := Extend(h, a, n, mem);
    assert BlockOk(h, a);
    assert a in mem && a !in h.own;
    forall k: nat {:trigger LinkOk(h', k)} ensures LinkOk(h', k) {
      assert LinkOk(h, k) && RingOk(h, k);
      if 0 < k < |h.ring| { assert BlockOk(h, h.ring[k]); assert h.ring[k] in h.own; }
    }
    forall k: nat {:trigger RingOk(h', k)} ensures RingOk(h', k) {
      assert RingOk(h, k);
      if 0 < k < |h.ring| { assert BlockOk(h, h.ring[k]); assert h.ring[k] in h.own; }
    }
    forall c: nat {:trigger Listed(h', c)} ensures Listed(h', c) {
      assert Listed(h, c);
    }
    forall c: nat {:trigger BlockOk(h', c)} ensures BlockOk(h', c) {
      assert BlockOk(h, c);
      if c in h.blocks { assert c in h.own; }
    }
    forall u: nat {:trigger OwnOk(h', u)} ensures OwnOk(h', u) {
      assert OwnOk(h, u);
      if u in h.own { assert BlockOk(h, h.own[u]); }
    }
  }
}
