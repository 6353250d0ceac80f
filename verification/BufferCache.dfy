/**
 The buffer cache (kernel/bio.c): NBUF buffers on a circular doubly linked list
 through a list head, most recently released first.  A pointer to a buffer is its
 index in `buf`; the list head is index NBUF.
 */
module BufferCache {
  import opened Basics
  import opened Blocks

  datatype Buf = Buf(dev: nat, blockno: nat, valid: bool, refcnt: nat, locked: bool, data: Block) {
    predicate Caches(d: nat, n: nat) {
      dev == d && blockno == n
    }
  }

  ghost predicate Apart(b: Buf, c: Buf) {
    b.dev != 0 ==> !c.Caches(b.dev, b.blockno)
  }

  /** No block of a real device (dev 0 marks a buffer never used) has two buffers. */
  ghost predicate Unique(bufs: seq<Buf>) {
    forall i, j {:trigger Apart(bufs[i], bufs[j])} :: 0 <= i < j < |bufs| ==> Apart(bufs[i], bufs[j])
  }

  ghost predicate Cached(bufs: seq<Buf>, dev: nat, blockno: nat) {
    exists i :: 0 <= i < |bufs| && bufs[i].Caches(dev, blockno)
  }

  /** Only the block a buffer caches matters for uniqueness. */
  lemma {:induction false} SameBlocksUnique(was: seq<Buf>, now: seq<Buf>)
    requires Unique(was) && |was| == |now|
    requires forall i :: 0 <= i < |was| ==> was[i].Caches(now[i].dev, now[i].blockno)
    ensures Unique(now)
  {
    forall i, j {:trigger Apart(now[i], now[j])} | 0 <= i < j < |now| ensures Apart(now[i], now[j]) {
      assert Apart(was[i], was[j]);
    }
  }

  lemma {:induction false} RecycledUnique(bufs: seq<Buf>, i: nat, dev: nat, blockno: nat)
    requires Unique(bufs) && i < |bufs| && !Cached(bufs, dev, blockno)
    ensures Unique(Recycled(bufs, i, dev, blockno))
  {
    var now := Recycled(bufs, i, dev, blockno);
    forall j, k {:trigger Apart(now[j], now[k])} | 0 <= j < k < |now| ensures Apart(now[j], now[k]) {
      assert Apart(bufs[j], bufs[k]);
    }
  }

  ghost predicate HasUnused(bufs: seq<Buf>) {
    exists i :: 0 <= i < |bufs| && bufs[i].refcnt == 0
  }

  /** The buffers once i has one reference more. */
  function Referenced(bufs: seq<Buf>, i: nat): (r: seq<Buf>)
    requires i < |bufs|
  {
    bufs[i := bufs[i].(refcnt := bufs[i].refcnt + 1)]
  }

  /** The buffers once i, unused before, is assigned to a block. */
  function Recycled(bufs: seq<Buf>, i: nat, dev: nat, blockno: nat): (r: seq<Buf>)
    requires i < |bufs|
  {
    bufs[i := bufs[i].(dev := dev, blockno := blockno, valid := false, refcnt := 1)]
  }

  /**
   What bget() does to the buffers: r is the buffer already caching the block,
   else an unused one assigned to it, and None is the "bget: no buffers" panic.
   */
  ghost predicate Gets(was: seq<Buf>, dev: nat, blockno: nat, r: Option<nat>, now: seq<Buf>) {
    if Cached(was, dev, blockno) then
      r.Some? && r.value < |was| && was[r.value].Caches(dev, blockno) && now == Referenced(was, r.value)
    else if HasUnused(was) then
      r.Some? && r.value < |was| && was[r.value].refcnt == 0 && now == Recycled(was, r.value, dev, blockno)
    else
      r.None? && now == was
  }

  /** pos gives every buffer its own place on the list, from 0 behind the head. */
  ghost predicate Places(pos: seq<nat>) {
    && (forall b :: 0 <= b < |pos| ==> pos[b] < |pos|)
    && forall b, c :: 0 <= b < c < |pos| ==> pos[b] != pos[c]
  }

  /** c is what follows place k on a list of n buffers: the buffer at place k + 1, or the head. */
  ghost predicate Follows(pos: seq<nat>, k: int, c: nat) {
    if k + 1 == |pos| then c == |pos| else c < |pos| && pos[c] == k + 1
  }

  ghost predicate Precedes(pos: seq<nat>, k: int, c: nat) {
    if k == 0 then c == |pos| else c < |pos| && pos[c] == k - 1
  }

  /** The forward links of the circular list through the head. */
  ghost predicate LinkedNext(pos: seq<nat>, next: seq<nat>) {
    && |next| == |pos| + 1
    && Follows(pos, -1, next[|pos|])
    && forall b {:trigger next[b]} :: 0 <= b < |pos| ==> Follows(pos, pos[b], next[b])
  }

  /** The backward links. */
  ghost predicate LinkedPrev(pos: seq<nat>, prev: seq<nat>) {
    && |prev| == |pos| + 1
    && Precedes(pos, |pos|, prev[|pos|])
    && forall b {:trigger prev[b]} :: 0 <= b < |pos| ==> Precedes(pos, pos[b], prev[b])
  }

  /** Buffers nearer the front were released to zero references more recently. */
  ghost predicate ByRecency(pos: seq<nat>, stamp: seq<nat>, clock: nat) {
    && |stamp| == |pos|
    && (forall b :: 0 <= b < |stamp| ==> stamp[b] < clock)
    && forall b, c :: 0 <= b < |stamp| && 0 <= c < |stamp| && pos[b] < pos[c] ==> stamp[b] > stamp[c]
  }

  /** The places after b has moved to the front. */
  function Front(pos: seq<nat>, b: nat): (r: seq<nat>)
    requires b < |pos|
    ensures |r| == |pos|
    ensures forall c :: 0 <= c < |pos| ==>
              r[c] == if c == b then 0 else if pos[c] < pos[b] then pos[c] + 1 else pos[c]
  {
    seq(|pos|, c requires 0 <= c < |pos| =>
      if c == b then 0 else if pos[c] < pos[b] then pos[c] + 1 else pos[c])
  }

  lemma {:induction false} FrontPlaces(pos: seq<nat>, b: nat)
    requires Places(pos) && b < |pos|
    ensures Places(Front(pos, b))
  {
  }

  lemma {:induction false} FrontRecency(pos: seq<nat>, b: nat, stamp: seq<nat>, clock: nat)
    requires b < |pos| && ByRecency(pos, stamp, clock)
    ensures ByRecency(Front(pos, b), stamp[b := clock], clock + 1)
  {
  }

  /** brelse()'s assignments to next fields: b leaves its place, behind p, and goes behind the head. */
  function RelinkNext(next: seq<nat>, p: nat, b: nat, head: nat): (r: seq<nat>)
    requires p < |next| && b < |next| && head < |next|
  {
    var s := next[p := next[b]];
    s[b := s[head]][head := b]
  }

  /** brelse()'s assignments to prev fields; first is the list's first element once b has left. */
  function RelinkPrev(prev: seq<nat>, n: nat, b: nat, head: nat, first: nat): (r: seq<nat>)
    requires n < |prev| && b < |prev| && first < |prev|
  {
    prev[n := prev[b]][b := head][first := b]
  }

  lemma {:induction false} RelinkedNext(pos: seq<nat>, next: seq<nat>, p: nat, b: nat)
    requires Places(pos) && LinkedNext(pos, next) && b < |pos| && Precedes(pos, pos[b], p)
    ensures LinkedNext(Front(pos, b), RelinkNext(next, p, b, |pos|))
  {
    var N := |pos|;
    var r, q := RelinkNext(next, p, b, N), Front(pos, b);
    assert Follows(pos, pos[b], next[b]);
    forall c {:trigger r[c]} | 0 <= c < N ensures Follows(q, q[c], r[c]) {
      assert Follows(pos, pos[c], next[c]);
    }
  }

  lemma {:induction false} RelinkedPrev(pos: seq<nat>, prev: seq<nat>, n: nat, b: nat, first: nat)
    requires Places(pos) && LinkedPrev(pos, prev) && b < |pos| && Follows(pos, pos[b], n)
    requires Follows(pos, if pos[b] == 0 then 0 else -1, first)
    ensures LinkedPrev(Front(pos, b), RelinkPrev(prev, n, b, |pos|, first))
  {
    var N := |pos|;
    var r, q := RelinkPrev(prev, n, b, N, first), Front(pos, b);
    assert Precedes(pos, pos[b], prev[b]);
    forall c {:trigger r[c]} | 0 <= c < N ensures Precedes(q, q[c], r[c]) {
      assert Precedes(pos, pos[c], prev[c]);
    }
  }

  /** Where binit() leaves the buffers: the last one put on the list is first. */
  function InitialPlaces(n: nat): (pos: seq<nat>)
    ensures |pos| == n && forall b :: 0 <= b < n ==> pos[b] == n - 1 - b
  {
    seq(n, b requires 0 <= b < n => n - 1 - b)
  }

  lemma {:induction false} InitialList(n: nat, next: seq<nat>, prev: seq<nat>)
    requires |next| == |prev| == n + 1
    requires next[n] == if n == 0 then n else n - 1
    requires prev[n] == if n == 0 then n else 0
    requires forall c :: 0 <= c < n ==> next[c] == if c == 0 then n else c - 1
    requires forall c :: 0 <= c < n ==> prev[c] == if c == n - 1 then n else c + 1
    ensures var pos := InitialPlaces(n);
            && Places(pos) && LinkedNext(pos, next) && LinkedPrev(pos, prev)
            && ByRecency(pos, seq(n, c requires 0 <= c < n => c), n)
  {
  }

  class BCache {
    const NBUF: nat
    const buf: array<Buf>
    const next: array<nat>
    const prev: array<nat>
    ghost var bufs: seq<Buf>   // the contents of buf
    ghost var pos: seq<nat>    // a buffer's place on the list
    ghost var stamp: seq<nat>  // when it was last released to zero references
    ghost var clock: nat

    ghost predicate Valid()
      reads this, buf, next, prev
    {
      && buf.Length == NBUF && next.Length == prev.Length == NBUF + 1 && next != prev
      && |pos| == NBUF && Places(pos)
      && LinkedNext(pos, next[..]) && LinkedPrev(pos, prev[..])
      && ByRecency(pos, stamp, clock)
      && bufs == buf[..] && Unique(bufs)
    }

    /** binit(): each buffer in turn is put behind the head, so the last one is first. */
    constructor (n: nat)
      ensures Valid() && fresh(buf) && fresh(next) && fresh(prev) && NBUF == n
      ensures bufs == seq(n, _ => Buf(0, 0, false, 0, false, ZeroBlock()))
      ensures pos == InitialPlaces(n)
    {
      NBUF := n;
      var bs := new Buf[n](_ => Buf(0, 0, false, 0, false, ZeroBlock()));
      var nx, pv := new nat[n + 1](_ => n), new nat[n + 1](_ => n);
      var b := 0;
      while b < n
        invariant 0 <= b <= n
        invariant nx[n] == (if b == 0 then n else b - 1)
        invariant pv[n] == (if b == 0 then n else 0)
        invariant forall c :: 0 <= c < b ==> nx[c] == if c == 0 then n else c - 1
        invariant forall c :: 0 <= c < b ==> pv[c] == if c == b - 1 then n else c + 1
        invariant forall i :: 0 <= i < n ==> bs[i] == Buf(0, 0, false, 0, false, ZeroBlock())
      {
        nx[b] := nx[n];
        pv[b] := n;
        pv[nx[n]] := b;
        nx[n] := b;
        b := b + 1;
      }
      buf, next, prev := bs, nx, pv;
      bufs := seq(n, _ => Buf(0, 0, false, 0, false, ZeroBlock()));
      InitialList(n, nx[..], pv[..]);
      pos := InitialPlaces(n);
      stamp := seq(n, c requires 0 <= c < n => c);
      clock := n;
    }

    /** bget()'s forward walk: the buffer of the block, or the head if there is none. */
    method FindCached(dev: nat, blockno: nat) returns (b: nat)
      requires Valid()
      ensures b == NBUF <==> !Cached(bufs, dev, blockno)
      ensures b != NBUF ==> b < NBUF && bufs[b].Caches(dev, blockno)
    {
      b := next[NBUF];
      ghost var k := 0;
      while b != NBUF
        invariant 0 <= k <= NBUF && Follows(pos, k - 1, b)
        invariant forall c :: 0 <= c < NBUF && pos[c] < k ==> !buf[c].Caches(dev, blockno)
        decreases NBUF - k
      {
        if buf[b].Caches(dev, blockno) {
          assert buf[..][b].Caches(dev, blockno);
          return;
        }
        k := k + 1;
        b := next[b];
      }
    }

    /** bget()'s backward walk: of the unused buffers, the one released least recently. */
    method FindUnused() returns (b: nat)
      requires Valid()
      ensures b == NBUF <==> !HasUnused(bufs)
      ensures b != NBUF ==> b < NBUF && bufs[b].refcnt == 0
      ensures b != NBUF ==> forall i :: 0 <= i < NBUF && bufs[i].refcnt == 0 ==> stamp[b] <= stamp[i]
    {
      b := prev[NBUF];
      ghost var k := NBUF;
      while b != NBUF
        invariant 0 <= k <= NBUF && Precedes(pos, k, b)
        invariant forall c :: 0 <= c < NBUF && pos[c] >= k ==> buf[c].refcnt > 0
        decreases k
      {
        if buf[b].refcnt == 0 {
          assert buf[..][b].refcnt == 0;
          return;
        }
        k := k - 1;
        b := prev[b];
      }
    }

    /**
     bget(): the buffer already caching the block, else the least recently
     released of the unused ones, now assigned to it; None is the
     "bget: no buffers" panic.  The wait for the buffer's sleep lock comes after.
     */
    method Bget(dev: nat, blockno: nat) returns (r: Option<nat>)
      requires Valid()
      modifies buf, `bufs
      ensures Valid()
      ensures Gets(old(bufs), dev, blockno, r, bufs)
      ensures r.Some? && !Cached(old(bufs), dev, blockno) ==>
                forall i :: 0 <= i < NBUF && old(bufs)[i].refcnt == 0 ==> stamp[r.value] <= stamp[i]
    {
      var b := FindCached(dev, blockno);
      if b != NBUF {
        assert old(buf[..])[b].Caches(dev, blockno);
        buf[b] := buf[b].(refcnt := buf[b].refcnt + 1);
        bufs := buf[..];
        SameBlocksUnique(old(bufs), bufs);
        return Some(b);
      }
      b := FindUnused();
      if b != NBUF {
        RecycledUnique(bufs, b, dev, blockno);
        buf[b] := buf[b].(dev := dev, blockno := blockno, valid := false, refcnt := 1);
        bufs := buf[..];
        assert bufs == Recycled(old(bufs), b, dev, blockno);
        return Some(b);
      }
      r := None;
    }

    /** The six pointer assignments of brelse(). */
    method Relink(b: nat)
      requires Valid() && b < NBUF
      modifies next, prev
      ensures LinkedNext(Front(pos, b), next[..]) && LinkedPrev(Front(pos, b), prev[..])
    {
      ghost var p, n := prev[b], next[b];
      ghost var first := if pos[b] == 0 then n else next[NBUF];
      assert Precedes(pos, pos[b], prev[..][b]) && Follows(pos, pos[b], next[..][b]);
      RelinkedNext(pos, next[..], p, b);
      RelinkedPrev(pos, prev[..], n, b, first);
      prev[next[b]] := prev[b];
      next[prev[b]] := next[b];
      next[b] := next[NBUF];
      prev[b] := NBUF;
      prev[next[NBUF]] := b;
      next[NBUF] := b;
      assert next[..] == RelinkNext(old(next[..]), p, b, NBUF);
      assert prev[..] == RelinkPrev(old(prev[..]), n, b, NBUF, first);
    }

    /**
     brelse(): unlocks, drops a reference, and a buffer left without any moves to
     the front of the list.
     */
    method Brelse(b: nat)
      requires Valid() && b < NBUF && bufs[b].locked && bufs[b].refcnt > 0
      modifies this, buf, next, prev
      ensures Valid()
      ensures bufs == old(bufs)[b := old(bufs)[b].(locked := false, refcnt := old(bufs)[b].refcnt - 1)]
      ensures old(bufs)[b].refcnt > 1 ==> pos == old(pos) && stamp == old(stamp) && clock == old(clock)
      ensures old(bufs)[b].refcnt == 1 ==>
                pos == Front(old(pos), b) && stamp == old(stamp)[b := old(clock)] && clock == old(clock) + 1
    {
      buf[b] := buf[b].(locked := false, refcnt := buf[b].refcnt - 1);
      bufs := buf[..];
      SameBlocksUnique(old(bufs), bufs);
      if buf[b].refcnt == 0 {
        Relink(b);
        FrontPlaces(pos, b);
        FrontRecency(pos, b, stamp, clock);
        pos := Front(pos, b);
        stamp := stamp[b := clock];
        clock := clock + 1;
      }
    }

    method Bpin(b: nat)
      requires Valid() && b < NBUF
      modifies buf, `bufs
      ensures Valid() && bufs == old(bufs)[b := old(bufs)[b].(refcnt := old(bufs)[b].refcnt + 1)]
    {
      buf[b] := buf[b].(refcnt := buf[b].refcnt + 1);
      bufs := buf[..];
      SameBlocksUnique(old(bufs), bufs);
    }

    method Bunpin(b: nat)
      requires Valid() && b < NBUF && bufs[b].refcnt > 0
      modifies buf, `bufs
      ensures Valid() && bufs == old(bufs)[b := old(bufs)[b].(refcnt := old(bufs)[b].refcnt - 1)]
    {
      buf[b] := buf[b].(refcnt := buf[b].refcnt - 1);
      bufs := buf[..];
      SameBlocksUnique(old(bufs), bufs);
    }
  }
}
