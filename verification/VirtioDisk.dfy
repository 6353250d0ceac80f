/**
 The disk driver's bookkeeping (kernel/virtio_disk.c) together with a device that
 completes requests in any order: descriptors, the avail and used rings (VIRTIO 1.1,
 sections 2.6 and 5.2) and their 16-bit indices.

 virtio_disk_rw() holds the driver's lock except while it sleeps; what it does between
 two sleeps is one method.  The device is two more: it fetches the next request in the
 avail ring, and it completes one it has fetched.  Buffers are numbered.
 */
module VirtioDisk {

  import opened Basics
  import opened Wrapping

  const WRAP: nat := 0x1_0000      // indices are 16 bits; a multiple of NUM, which is 8

  const BSIZE: nat := 1024
  const SECTOR: nat := 512

  datatype Addr = NoAddr | OpAddr(i: nat) | DataAddr(b: nat) | StatusAddr(i: nat)

  /** flags: does the device write here, and is there a next descriptor. */
  datatype Desc = Desc(addr: Addr, write: bool, more: bool, next: nat)

  datatype Op = Op(write: bool, sector: nat)

  datatype Info = Info(b: Option<nat>, status: nat)

  /** How far a request has come; n is its place in the count of all requests ever posted, or completed. */
  datatype Phase = Posted(n: nat) | Fetched | Completed(n: nat) | Seen

  /** A request: its buffer, the second and third descriptor of its chain, and what is asked. */
  datatype Req = Req(b: nat, i1: nat, i2: nat, op: Op, phase: Phase)

  /**
   The state: what driver and device share, and what is not in memory but can be said of it: the requests in flight by
   the head of their chain, who has a descriptor, which request a buffer is in, and counters that do not wrap around.
   */
  datatype V = V(free: seq<bool>, desc: seq<Desc>, ops: seq<Op>, info: seq<Info>,
                 availRing: seq<nat>, usedRing: seq<nat>, busy: set<nat>,
                 reqs: map<nat, Req>, owner: map<nat, nat>, held: set<nat>, using: map<nat, nat>,
                 posted: nat, fetched: nat, completed: nat, seen: nat)

  // ---------------------------------------------------------------- the invariant

  ghost predicate Shaped(v: V) {
    && 0 < |v.free| && WRAP % |v.free| == 0
    && |v.desc| == |v.ops| == |v.info| == |v.availRing| == |v.usedRing| == |v.free|
    && v.fetched <= v.posted && v.seen <= v.completed
  }

  /** A descriptor is free, or part of one chain, or in the hands of someone allocating. */
  ghost predicate DescOk(v: V, d: nat) {
    && (d < |v.free| ==> (v.free[d] <==> d !in v.owner && d !in v.held))
    && (d in v.owner ==>
        d < |v.free| && d !in v.held && v.owner[d] in v.reqs && InChain(v.reqs[v.owner[d]], v.owner[d], d))
    && (d in v.held ==> d < |v.free|)
  }

  predicate InChain(r: Req, h: nat, d: nat) {
    d == h || d == r.i1 || d == r.i2
  }

  /** The descriptors of a request say what it asks, and its records are its own. */
  ghost predicate ReqOk(v: V, h: nat)
    requires Shaped(v)
  {
    h in v.reqs ==>
      var r := v.reqs[h];
      && h < |v.free| && r.i1 < |v.free| && r.i2 < |v.free| && h != r.i1 && h != r.i2 && r.i1 != r.i2
      && h in v.owner && v.owner[h] == h && r.i1 in v.owner && v.owner[r.i1] == h && r.i2 in v.owner &&
          v.owner[r.i2] == h
      && v.desc[h] == Desc(OpAddr(h), false, true, r.i1) && v.desc[r.i1] == Desc(DataAddr(r.b), !r.op.write, true, r.i2)
      && v.desc[r.i2] == Desc(StatusAddr(h), true, false, 0) && v.ops[h] == r.op
      && v.info[h].b == Some(r.b) && r.b in v.using && v.using[r.b] == h
      && (r.phase.Completed? || r.phase.Seen? ==> v.info[h].status == 0)
      && (r.b in v.busy <==> r.phase != Seen)
      && (r.phase.Posted? ==> v.fetched <= r.phase.n < v.posted && v.availRing[r.phase.n % |v.free|] == h)
      && (r.phase.Completed? ==> v.seen <= r.phase.n < v.completed && v.usedRing[r.phase.n % |v.free|] == h)
  }

  ghost predicate BufOk(v: V, b: nat) {
    && (b in v.using ==> v.using[b] in v.reqs && v.reqs[v.using[b]].b == b)
    && (b in v.busy ==> b in v.using)
  }

  /** The avail ring holds the requests posted and not yet fetched, in order. */
  ghost predicate AvailOk(v: V, n: nat)
    requires Shaped(v)
  {
    v.fetched <= n < v.posted ==>
      v.availRing[n % |v.free|] in v.reqs && v.reqs[v.availRing[n % |v.free|]].phase == Posted(n)
  }

  /** The used ring holds the requests completed and not yet seen, in order. */
  ghost predicate UsedOk(v: V, n: nat)
    requires Shaped(v)
  {
    v.seen <= n < v.completed ==>
      v.usedRing[n % |v.free|] in v.reqs && v.reqs[v.usedRing[n % |v.free|]].phase == Completed(n)
  }

  ghost predicate Ok(v: V) {
    && Shaped(v)
    && (forall d: nat {:trigger DescOk(v, d)} :: DescOk(v, d))
    && (forall h: nat {:trigger ReqOk(v, h)} :: ReqOk(v, h))
    && (forall b: nat {:trigger BufOk(v, b)} :: BufOk(v, b))
    && (forall n: nat {:trigger AvailOk(v, n)} :: AvailOk(v, n))
    && (forall n: nat {:trigger UsedOk(v, n)} :: UsedOk(v, n))
  }

  // ---------------------------------------------------------------- how many

  /** The descriptors of the chains whose heads are in hs. */
  ghost predicate ChainsOf(v: V, hs: set<nat>, ds: set<nat>) {
    forall d {:trigger d in ds} :: d in ds <==> d in v.owner && v.owner[d] in hs
  }

  lemma {:induction false} ChainCount(v: V, hs: set<nat>) returns (ds: set<nat>)
    requires Ok(v) && hs <= v.reqs.Keys
    ensures ChainsOf(v, hs, ds) && |ds| == 3 * |hs|
    decreases |hs|
  {
    if hs == {} {
      ds := {};
    } else {
      var h :| h in hs;
      var rest := ChainCount(v, hs - {h});
      var r := v.reqs[h];
      assert ReqOk(v, h);
      ds := rest + {h, r.i1, r.i2};
      assert h !in rest && r.i1 !in rest && r.i2 !in rest;
      assert |ds| == |rest| + 3 by {
        assert ds == (rest + {h}) + {r.i1} + {r.i2};
      }
      forall d {:trigger d in ds} ensures d in ds <==> d in v.owner && v.owner[d] in hs {
        assert DescOk(v, d);
      }
    }
  }

  /** Never more requests in flight than there are descriptors for, even with some being allocated. */
  lemma {:induction false} InFlightBound(v: V)
    requires Ok(v)
    ensures 3 * |v.reqs| + |v.held| <= |v.free|
  {
    var ds := ChainCount(v, v.reqs.Keys);
    forall d | d in ds + v.held ensures d in Upto(|v.free|) {
      assert DescOk(v, d);
    }
    assert ds !! v.held by {
      forall d | d in ds ensures d !in v.held { assert DescOk(v, d); }
    }
    assert |ds + v.held| == |ds| + |v.held|;
    SubsetSize(ds + v.held, Upto(|v.free|));
    assert |v.reqs| == |v.reqs.Keys|;
  }

  /** The heads in the avail ring are as many as it says, so it never holds more than there are requests. */
  lemma {:induction false} AvailHeads(v: V, n: nat) returns (hs: set<nat>)
    requires Ok(v) && v.fetched <= n <= v.posted
    ensures |hs| == n - v.fetched && hs <= v.reqs.Keys
    ensures forall h {:trigger h in hs} :: h in hs ==> v.reqs[h].phase.Posted? && v.reqs[h].phase.n < n
    decreases n
  {
    if n == v.fetched {
      hs := {};
    } else {
      hs := AvailHeads(v, n - 1);
      assert AvailOk(v, n - 1);
      var h := v.availRing[(n - 1) % |v.free|];
      assert h !in hs;
      hs := hs + {h};
    }
  }

  lemma {:induction false} UsedHeads(v: V, n: nat) returns (hs: set<nat>)
    requires Ok(v) && v.seen <= n <= v.completed
    ensures |hs| == n - v.seen && hs <= v.reqs.Keys
    ensures forall h {:trigger h in hs} :: h in hs ==> v.reqs[h].phase.Completed? && v.reqs[h].phase.n < n
    decreases n
  {
    if n == v.seen {
      hs := {};
    } else {
      hs := UsedHeads(v, n - 1);
      assert UsedOk(v, n - 1);
      var h := v.usedRing[(n - 1) % |v.free|];
      assert h !in hs;
      hs := hs + {h};
    }
  }

  /** Neither ring is ever full. */
  lemma {:induction false} RingsFit(v: V)
    requires Ok(v)
    ensures 3 * (v.posted - v.fetched) + |v.held| <= |v.free| && 3 * (v.completed - v.seen) <= |v.free|
  {
    InFlightBound(v);
    var a := AvailHeads(v, v.posted);
    SubsetSize(a, v.reqs.Keys);
    var u := UsedHeads(v, v.completed);
    SubsetSize(u, v.reqs.Keys);
    assert |v.reqs| == |v.reqs.Keys|;
  }

  // ---------------------------------------------------------------- descriptors

  /** alloc_desc() takes descriptor d. */
  function Claim(v: V, d: nat): V
    requires d < |v.free|
  {
    v.(free := v.free[d := false], held := v.held + {d})
  }

  lemma {:induction false} ClaimOk(v: V, d: nat)
    requires Ok(v) && d < |v.free| && v.free[d]
    ensures Ok(Claim(v, d)) && d !in v.held
  {
    var v' := Claim(v, d);
    assert DescOk(v, d);
    forall e: nat {:trigger DescOk(v', e)} ensures DescOk(v', e) { assert DescOk(v, e); }
    KeepRest(v, v');
  }

  const NODESC: Desc := Desc(NoAddr, false, false, 0)

  /** free_desc() gives descriptor d back. */
  function Unclaim(v: V, d: nat): V
    requires d < |v.free| && d < |v.desc|
  {
    v.(free := v.free[d := true], desc := v.desc[d := NODESC], held := v.held - {d})
  }

  /** The panics in free_desc() cannot be reached. */
  lemma {:induction false} UnclaimOk(v: V, d: nat)
    requires Ok(v) && d in v.held
    ensures d < |v.free| && !v.free[d] && Ok(Unclaim(v, d))
  {
    assert DescOk(v, d);
    var v' := Unclaim(v, d);
    forall e: nat {:trigger DescOk(v', e)} ensures DescOk(v', e) { assert DescOk(v, e); }
    KeepRest(v, v');
  }

  /** A change to descriptors that are in no chain keeps everything that is not about them. */
  lemma {:induction false} KeepRest(v: V, v': V)
    requires Ok(v) && Shaped(v') && |v'.free| == |v.free|
    requires v' == v.(free := v'.free, desc := v'.desc, held := v'.held)
    requires forall d {:trigger v'.desc[d]} :: 0 <= d < |v.desc| && d in v.owner ==> v'.desc[d] == v.desc[d]
    ensures forall h: nat {:trigger ReqOk(v', h)} :: ReqOk(v', h)
    ensures forall b: nat {:trigger BufOk(v', b)} :: BufOk(v', b)
    ensures forall n: nat {:trigger AvailOk(v', n)} :: AvailOk(v', n)
    ensures forall n: nat {:trigger UsedOk(v', n)} :: UsedOk(v', n)
  {
    forall h: nat {:trigger ReqOk(v', h)} ensures ReqOk(v', h) { assert ReqOk(v, h); }
    forall b: nat {:trigger BufOk(v', b)} ensures BufOk(v', b) { assert BufOk(v, b); }
    forall n: nat {:trigger AvailOk(v', n)} ensures AvailOk(v', n) { assert AvailOk(v, n); }
    forall n: nat {:trigger UsedOk(v', n)} ensures UsedOk(v', n) { assert UsedOk(v, n); }
  }

  // ---------------------------------------------------------------- posting a request

  /** Three descriptors in the hands of virtio_disk_rw(), and a buffer that is in no request. */
  ghost predicate CanPost(v: V, b: nat, i0: nat, i1: nat, i2: nat) {
    && i0 != i1 && i0 != i2 && i1 != i2 && v.held == {i0, i1, i2} && b !in v.using
    && i0 < |v.free| && i1 < |v.free| && i2 < |v.free|
  }

  function Formatted(desc: seq<Desc>, b: nat, op: Op, i0: nat, i1: nat, i2: nat): (r: seq<Desc>)
    requires i0 < |desc| && i1 < |desc| && i2 < |desc|
    ensures |r| == |desc|
  {
    desc[i0 := Desc(OpAddr(i0), false, true, i1)]
        [i1 := Desc(DataAddr(b), !op.write, true, i2)]
        [i2 := Desc(StatusAddr(i0), true, false, 0)]
  }

  ghost function Post(v: V, b: nat, op: Op, i0: nat, i1: nat, i2: nat): V
    requires Shaped(v) && CanPost(v, b, i0, i1, i2)
  {
    v.(desc := Formatted(v.desc, b, op, i0, i1, i2), ops := v.ops[i0 := op], info := v.info[i0 := Info(Some(b), 0xff)],
       availRing := v.availRing[v.posted % |v.free| := i0], busy := v.busy + {b},
       reqs := v.reqs[i0 := Req(b, i1, i2, op, Posted(v.posted))], owner := v.owner[i0 := i0][i1 := i0][i2 := i0],
       held := {}, using := v.using[b := i0], posted := v.posted + 1)
  }

  lemma {:induction false} PostOk(v: V, b: nat, op: Op, i0: nat, i1: nat, i2: nat)
    requires Ok(v) && CanPost(v, b, i0, i1, i2)
    ensures i0 !in v.reqs && Ok(Post(v, b, op, i0, i1, i2))
  {
    var v' := Post(v, b, op, i0, i1, i2);
    assert DescOk(v, i0) && DescOk(v, i1) && DescOk(v, i2) && ReqOk(v, i0) && BufOk(v, b);
    RingsFit(v);
    forall d: nat {:trigger DescOk(v', d)} ensures DescOk(v', d) {
      assert DescOk(v, d);
      PostDesc(v, b, op, i0, i1, i2, d);
    }
    forall h: nat {:trigger ReqOk(v', h)} ensures ReqOk(v', h) {
      assert ReqOk(v, h);
      PostReq(v, b, op, i0, i1, i2, h);
    }
    forall c: nat {:trigger BufOk(v', c)} ensures BufOk(v', c) {
      assert BufOk(v, c);
    }
    forall n: nat {:trigger AvailOk(v', n)} ensures AvailOk(v', n) {
      assert AvailOk(v, n);
      if v.fetched <= n < v.posted { PlacesDiffer(n, v.posted, |v.free|); }
    }
    forall n: nat {:trigger UsedOk(v', n)} ensures UsedOk(v', n) {
      assert UsedOk(v, n);
    }
  }

  lemma {:induction false} PostDesc(v: V, b: nat, op: Op, i0: nat, i1: nat, i2: nat, d: nat)
    requires Shaped(v) && CanPost(v, b, i0, i1, i2) && DescOk(v, d) && i0 !in v.reqs
    ensures DescOk(Post(v, b, op, i0, i1, i2), d)
  {
  }

  lemma {:induction false} PostReq(v: V, b: nat, op: Op, i0: nat, i1: nat, i2: nat, h: nat)
    requires Shaped(v) && CanPost(v, b, i0, i1, i2) && ReqOk(v, h) && v.posted < v.fetched + |v.free|
    requires i0 !in v.owner && i1 !in v.owner && i2 !in v.owner && b !in v.busy
    ensures ReqOk(Post(v, b, op, i0, i1, i2), h)
  {
    if h != i0 && h in v.reqs && v.reqs[h].phase.Posted? {
      PlacesDiffer(v.reqs[h].phase.n, v.posted, |v.free|);
    }
  }

  // ---------------------------------------------------------------- the device

  /** A request moves on. */
  function Moved(reqs: map<nat, Req>, h: nat, phase: Phase): map<nat, Req>
    requires h in reqs
  {
    reqs[h := reqs[h].(phase := phase)]
  }

  ghost function Fetch(v: V): V
    requires Ok(v) && v.fetched < v.posted
  {
    assert AvailOk(v, v.fetched);
    v.(reqs := Moved(v.reqs, v.availRing[v.fetched % |v.free|], Fetched), fetched := v.fetched + 1)
  }

  lemma {:induction false} FetchOk(v: V)
    requires Ok(v) && v.fetched < v.posted
    ensures v.availRing[v.fetched % |v.free|] in v.reqs && Ok(Fetch(v))
  {
    var v' := Fetch(v);
    assert AvailOk(v, v.fetched);
    forall d: nat {:trigger DescOk(v', d)} ensures DescOk(v', d) { assert DescOk(v, d); }
    forall h: nat {:trigger ReqOk(v', h)} ensures ReqOk(v', h) {
      assert ReqOk(v, h);
    }
    forall b: nat {:trigger BufOk(v', b)} ensures BufOk(v', b) { assert BufOk(v, b); }
    forall n: nat {:trigger AvailOk(v', n)} ensures AvailOk(v', n) { assert AvailOk(v, n); }
    forall n: nat {:trigger UsedOk(v', n)} ensures UsedOk(v', n) { assert UsedOk(v, n); }
  }

  ghost function Complete(v: V, h: nat): V
    requires Shaped(v) && h in v.reqs && h < |v.info|
  {
    v.(info := v.info[h := v.info[h].(status := 0)], usedRing := v.usedRing[v.completed % |v.free| := h],
       reqs := Moved(v.reqs, h, Completed(v.completed)), completed := v.completed + 1)
  }

  lemma {:induction false} CompleteOk(v: V, h: nat)
    requires Ok(v) && h in v.reqs && v.reqs[h].phase == Fetched
    ensures h < |v.info| && Ok(Complete(v, h))
  {
    assert ReqOk(v, h);
    var v' := Complete(v, h);
    RoomInUsed(v, h);
    forall d: nat {:trigger DescOk(v', d)} ensures DescOk(v', d) { assert DescOk(v, d); }
    forall g: nat {:trigger ReqOk(v', g)} ensures ReqOk(v', g) {
      assert ReqOk(v, g);
      if g in v.reqs && v.reqs[g].phase.Completed? { PlacesDiffer(v.reqs[g].phase.n, v.completed, |v.free|); }
    }
    forall b: nat {:trigger BufOk(v', b)} ensures BufOk(v', b) { assert BufOk(v, b); }
    forall n: nat {:trigger AvailOk(v', n)} ensures AvailOk(v', n) { assert AvailOk(v, n); }
    forall n: nat {:trigger UsedOk(v', n)} ensures UsedOk(v', n) {
      assert UsedOk(v, n);
      if v.seen <= n < v.completed { PlacesDiffer(n, v.completed, |v.free|); }
    }
  }

  lemma {:induction false} RoomInUsed(v: V, h: nat)
    requires Ok(v) && h in v.reqs
    ensures v.completed < v.seen + |v.free|
  {
    RingsFit(v);
  }

  // ---------------------------------------------------------------- the interrupt, and the end of a request

  ghost function See(v: V): V
    requires Ok(v) && v.seen < v.completed
  {
    assert UsedOk(v, v.seen);
    var h := v.usedRing[v.seen % |v.free|];
    v.(busy := v.busy - {v.reqs[h].b}, reqs := Moved(v.reqs, h, Seen), seen := v.seen + 1)
  }

  lemma {:induction false} SeeOk(v: V)
    requires Ok(v) && v.seen < v.completed
    ensures var h := v.usedRing[v.seen % |v.free|];
      h in v.reqs && h < |v.info| && v.info[h] == Info(Some(v.reqs[h].b), 0) && v.reqs[h].b in v.busy && Ok(See(v))
  {
    assert UsedOk(v, v.seen);
    var h := v.usedRing[v.seen % |v.free|];
    var v' := See(v);
    assert ReqOk(v, h);
    forall d: nat {:trigger DescOk(v', d)} ensures DescOk(v', d) { assert DescOk(v, d); }
    forall g: nat {:trigger ReqOk(v', g)} ensures ReqOk(v', g) { assert ReqOk(v, g); }
    forall b: nat {:trigger BufOk(v', b)} ensures BufOk(v', b) { assert BufOk(v, b); }
    forall n: nat {:trigger AvailOk(v', n)} ensures AvailOk(v', n) { assert AvailOk(v, n); }
    forall n: nat {:trigger UsedOk(v', n)} ensures UsedOk(v', n) { assert UsedOk(v, n); }
  }

  /** The request is over; its descriptors are about to be freed. */
  ghost function Release(v: V, h: nat): V
    requires h in v.reqs && h < |v.info|
  {
    var r := v.reqs[h];
    v.(info := v.info[h := v.info[h].(b := None)], reqs := v.reqs - {h}, owner := v.owner - {h, r.i1, r.i2},
       held := v.held + {h, r.i1, r.i2}, using := v.using - {r.b})
  }

  lemma {:induction false} ReleaseOk(v: V, h: nat)
    requires Ok(v) && h in v.reqs && v.reqs[h].phase == Seen
    ensures h < |v.info| && Ok(Release(v, h))
  {
    assert ReqOk(v, h);
    var v' := Release(v, h);
    forall d: nat {:trigger DescOk(v', d)} ensures DescOk(v', d) { assert DescOk(v, d); }
    forall g: nat {:trigger ReqOk(v', g)} ensures ReqOk(v', g) { assert ReqOk(v, g); }
    forall b: nat {:trigger BufOk(v', b)} ensures BufOk(v', b) { assert BufOk(v, b); }
    forall n: nat {:trigger AvailOk(v', n)} ensures AvailOk(v', n) { assert AvailOk(v, n); }
    forall n: nat {:trigger UsedOk(v', n)} ensures UsedOk(v', n) { assert UsedOk(v, n); }
  }

  // ---------------------------------------------------------------- driver and device

  /** No descriptor is free but these. */
  ghost predicate FreeOnly(free: seq<bool>, ds: set<nat>) {
    forall d {:trigger free[d]} :: 0 <= d < |free| && free[d] ==> d in ds
  }

  lemma {:induction false} FreeOnlyMore(free: seq<bool>, a: nat, ds: set<nat>)
    requires a < |free| && FreeOnly(free[a := false], ds)
    ensures FreeOnly(free, ds + {a})
  {
    forall d {:trigger free[d]} | 0 <= d < |free| && free[d] ensures d in ds + {a} {
      assert d != a ==> free[a := false][d];
    }
  }

  /** Fewer than three descriptors are free. */
  ghost predicate FewFree(free: seq<bool>) {
    exists x, y :: FreeOnly(free, {x, y})
  }

  /**
   Requests that were completed before place n in the count, and no others, have been seen; their buffers are done.
   */
  ghost predicate SeenFrom(rs: map<nat, Req>, bs: set<nat>, v: V) {
    && v.reqs.Keys == rs.Keys
    && (forall h {:trigger SeenAt(rs, v, h)} :: h in rs ==> SeenAt(rs, v, h))
    && (forall b {:trigger b in v.busy} :: b in v.busy ==> b in bs)
    && (forall h {:trigger rs[h]} :: h in rs && rs[h].b in bs ==> (rs[h].b in v.busy <==> v.reqs[h].phase != Seen))
  }

  ghost predicate SeenAt(rs: map<nat, Req>, v: V, h: nat)
    requires h in rs && h in v.reqs
  {
    v.reqs[h] == if rs[h].phase.Completed? && rs[h].phase.n < v.seen then rs[h].(phase := Seen) else rs[h]
  }

  /** At the start nothing that is completed has been seen. */
  lemma {:induction false} SeenStart(v: V)
    requires Ok(v)
    ensures SeenFrom(v.reqs, v.busy, v)
  {
    forall h | h in v.reqs ensures SeenAt(v.reqs, v, h) && (v.reqs[h].b in v.busy <==> v.reqs[h].phase != Seen) {
      assert ReqOk(v, h);
    }
  }

  lemma {:induction false} SeenMore(rs: map<nat, Req>, bs: set<nat>, v: V)
    requires Ok(v) && v.seen < v.completed && SeenFrom(rs, bs, v)
    ensures SeenFrom(rs, bs, See(v))
  {
    SeeOk(v);
    assert UsedOk(v, v.seen);
    var id := v.usedRing[v.seen % |v.free|];
    var v' := See(v);
    forall h | h in rs ensures SeenAt(rs, v', h) {
      assert SeenAt(rs, v, h) && ReqOk(v, h);
    }
    forall h {:trigger rs[h]} | h in rs && rs[h].b in bs ensures rs[h].b in v'.busy <==> v'.reqs[h].phase != Seen {
      assert SeenAt(rs, v, h) && ReqOk(v', h) && v'.reqs[h].b == rs[h].b;
    }
  }

  class Disk {
    var free: seq<bool>
    var desc: seq<Desc>
    var ops: seq<Op>
    var info: seq<Info>
    var availRing: seq<nat>
    var availIdx: nat           // avail->idx
    var usedRing: seq<nat>
    var usedIdx: nat            // used->idx, which the device advances
    var seenIdx: nat            // disk.used_idx: how far the driver has looked
    var fetchIdx: nat           // how far the device has looked in the avail ring
    var busy: set<nat>          // buffers b with b->disk == 1
    var data: map<nat, seq<int>>      // what buffers hold
    var platter: map<nat, seq<int>>   // what sectors hold
    ghost var reqs: map<nat, Req>
    ghost var owner: map<nat, nat>
    ghost var held: set<nat>
    ghost var using: map<nat, nat>
    ghost var posted: nat
    ghost var fetched: nat
    ghost var completed: nat
    ghost var seen: nat

    ghost function State(): V
      reads this
    {
      V(free, desc, ops, info, availRing, usedRing, busy, reqs, owner, held, using, posted, fetched, completed, seen)
    }

    ghost predicate Valid()
      reads this
    {
      && Ok(State()) && availIdx == posted % WRAP && usedIdx == completed % WRAP
      && seenIdx == seen % WRAP && fetchIdx == fetched % WRAP
    }

    constructor (num: nat)
      requires 0 < num && WRAP % num == 0
      ensures Valid() && held == {} && reqs == map[] && |free| == num
    {
      free := seq(num, _ => true);
      desc := seq(num, _ => NODESC);
      ops := seq(num, _ => Op(false, 0));
      info := seq(num, _ => Info(None, 0));
      availRing := seq(num, _ => 0);
      usedRing := seq(num, _ => 0);
      availIdx, usedIdx, seenIdx, fetchIdx, busy, data, platter := 0, 0, 0, 0, {}, map[], map[];
      reqs, owner, held, using, posted, fetched, completed, seen := map[], map[], {}, map[], 0, 0, 0, 0;
      new;
      var v := State();
      forall d: nat {:trigger DescOk(v, d)} ensures DescOk(v, d) {}
      forall h: nat {:trigger ReqOk(v, h)} ensures ReqOk(v, h) {}
      forall b: nat {:trigger BufOk(v, b)} ensures BufOk(v, b) {}
      forall n: nat {:trigger AvailOk(v, n)} ensures AvailOk(v, n) {}
      forall n: nat {:trigger UsedOk(v, n)} ensures UsedOk(v, n) {}
    }

    /** The first free descriptor, marked as not free; -1 if there is none. */
    method AllocDesc() returns (i: int)
      requires Valid()
      modifies `free, `held
      ensures Valid() && -1 <= i < |free|
      ensures i < 0 ==> State() == old(State()) && FreeOnly(free, {})
      ensures i >= 0 ==> old(free[i]) && i !in old(held) && State() == Claim(old(State()), i)
    {
      i := 0;
      while i < |free|
        invariant 0 <= i <= |free|
        invariant forall d :: 0 <= d < i ==> !free[d]
      {
        if free[i] {
          ClaimOk(State(), i);
          free := free[i := false];
          held := held + {i};
          return;
        }
        i := i + 1;
      }
      i := -1;
    }

    /** The panics, for a descriptor out of range or already free, cannot be reached by a caller that has it. */
    method FreeDesc(i: nat)
      requires Valid() && i in held
      modifies `free, `desc, `held
      ensures Valid() && i < |old(free)| == |old(desc)| && State() == Unclaim(old(State()), i)
    {
      UnclaimOk(State(), i);
      assert i < |free|;
      assert !free[i];
      desc := desc[i := NODESC];
      free := free[i := true];
      held := held - {i};
    }

    /** Three descriptors, or none; none only when there are fewer than three. */
    method Alloc3() returns (ok: bool, i0: nat, i1: nat, i2: nat)
      requires Valid() && held == {}
      modifies `free, `desc, `held
      ensures Valid()
      ensures ok ==>
        held == {i0, i1, i2} && i0 != i1 && i0 != i2 && i1 != i2 && i0 < |free| && i1 < |free| && i2 < |free|
      ensures !ok ==> held == {} && FewFree(old(free))
    {
      ghost var was := free;
      var a := AllocDesc();
      if a < 0 {
        assert FreeOnly(was, {0, 0});
        return false, 0, 0, 0;
      }
      var b := AllocDesc();
      if b < 0 {
        FreeOnlyMore(was, a, {});
        assert {a as nat, a as nat} == {} + {a as nat};
        FreeDesc(a);
        return false, 0, 0, 0;
      }
      var c := AllocDesc();
      if c < 0 {
        FreeOnlyMore(was[a := false], b, {});
        FreeOnlyMore(was, a, {b as nat});
        assert {a as nat, b as nat} == {b as nat} + {a as nat} && {b as nat} == {} + {b as nat};
        FreeDesc(a);
        FreeDesc(b);
        return false, 0, 0, 0;
      }
      return true, a, b, c;
    }

    /**
     virtio_disk_rw() up to where it has told the device; false, with nothing done, if it must sleep for descriptors.
     */
    method Start(b: nat, blockno: nat, write: bool) returns (ok: bool, head: nat)
      requires Valid() && held == {} && b !in using
      modifies this
      ensures Valid() && held == {} && data == old(data) && platter == old(platter)
      ensures !ok ==> reqs == old(reqs) && busy == old(busy) && FewFree(old(free))
      ensures ok ==>
        head !in old(reqs) && head in reqs && reqs[head].b == b && reqs[head].op == Op(write, 2 * blockno) &&
          reqs[head].phase.Posted?
      ensures ok ==> reqs == old(reqs)[head := reqs[head]] && busy == old(busy) + {b}
    {
      ok, head := Ask(b, Op(write, blockno * (BSIZE / SECTOR)));
    }

    method Ask(b: nat, op: Op) returns (ok: bool, head: nat)
      requires Valid() && held == {} && b !in using
      modifies this
      ensures Valid() && held == {} && data == old(data) && platter == old(platter)
      ensures !ok ==> reqs == old(reqs) && busy == old(busy) && FewFree(old(free))
      ensures ok ==>
        head !in old(reqs) && head in reqs && reqs[head].b == b && reqs[head].op == op && reqs[head].phase.Posted?
      ensures ok ==> reqs == old(reqs)[head := reqs[head]] && busy == old(busy) + {b}
    {
      var i1, i2;
      ok, head, i1, i2 := Alloc3();
      if ok {
        PostOk(State(), b, op, head, i1, i2);
        Publish(b, op, head, i1, i2);
      }
    }

    /** Formats the descriptors, marks the buffer as the disk's, and tells the device. */
    method Publish(b: nat, op: Op, head: nat, i1: nat, i2: nat)
      requires Shaped(State()) && availIdx == posted % WRAP && CanPost(State(), b, head, i1, i2)
      modifies `desc, `ops, `busy, `info, `availRing, `availIdx, `reqs, `owner, `held, `using, `posted
      ensures State() == Post(old(State()), b, op, head, i1, i2) && availIdx == posted % WRAP
    {
      ghost var v' := Post(State(), b, op, head, i1, i2);
      Format(b, op, head, i1, i2);
      busy := busy + {b};
      info := info[head := Info(Some(b), 0xff)];
      PushAvail(head);
      reqs, owner, held, using, posted := v'.reqs, v'.owner, v'.held, v'.using, v'.posted;
    }

    method PushAvail(head: nat)
      requires 0 < |free| == |availRing| && WRAP % |free| == 0 && availIdx == posted % WRAP
      modifies `availRing, `availIdx
      ensures availRing == old(availRing)[posted % |free| := head] && availIdx == (posted + 1) % WRAP
    {
      PlaceOfWrapped(posted, WRAP, |free|);
      WrappedSum(posted, 1, WRAP);
      availRing := availRing[availIdx % |free| := head];
      availIdx := (availIdx + 1) % WRAP;
    }

    /** Writes the operation and the three descriptors. */
    method Format(b: nat, op: Op, i0: nat, i1: nat, i2: nat)
      requires i0 < |desc| && i1 < |desc| && i2 < |desc| && i0 < |ops|
      modifies `desc, `ops
      ensures desc == Formatted(old(desc), b, op, i0, i1, i2) && ops == old(ops)[i0 := op]
    {
      ops := ops[i0 := op];
      desc := desc[i0 := Desc(OpAddr(i0), false, true, i1)];
      desc := desc[i1 := Desc(DataAddr(b), !op.write, true, i2)];
      desc := desc[i2 := Desc(StatusAddr(i0), true, false, 0)];
    }

    /** The device takes the next request from the avail ring: the oldest that it has not taken. */
    method DeviceFetch() returns (h: nat)
      requires Valid() && fetchIdx != availIdx
      modifies `fetchIdx, `reqs, `fetched
      ensures Valid() && h in old(reqs) && old(reqs[h].phase) == Posted(old(fetched))
      ensures reqs == Moved(old(reqs), h, Fetched) && fetched == old(fetched) + 1
    {
      assert fetched < posted;
      FetchOk(State());
      PlaceOfWrapped(fetched, WRAP, |free|);
      WrappedSum(fetched, 1, WRAP);
      ghost var v' := Fetch(State());
      assert AvailOk(State(), fetched);
      h := availRing[fetchIdx % |free|];
      fetchIdx := (fetchIdx + 1) % WRAP;
      reqs, fetched := v'.reqs, v'.fetched;
      assert State() == v';
    }

    /** The device does what the chain at h says, and reports it.  What it finds there is what the request asked. */
    method DeviceComplete(h: nat)
      requires Valid() && h in reqs && reqs[h].phase == Fetched
      modifies this
      ensures Valid() && busy == old(busy) && held == old(held)
      ensures reqs == Moved(old(reqs), h, Completed(old(completed)))
      ensures var r := old(reqs[h]);
        if r.op.write then data == old(data) && platter == if r.b in data then old(platter)[r.op.sector := data[r.b]]
          else old(platter)
        else platter == old(platter) && data == if r.op.sector in platter then old(data)[r.b := platter[r.op.sector]]
          else old(data)
    {
      CompleteOk(State(), h);
      Transfer(h);
      Report(h);
    }

    method Transfer(h: nat)
      requires Valid() && h in reqs
      modifies `data, `platter
      ensures var r := reqs[h];
        if r.op.write then data == old(data) && platter == if r.b in data then old(platter)[r.op.sector := data[r.b]]
          else old(platter)
        else platter == old(platter) && data == if r.op.sector in platter then old(data)[r.b := platter[r.op.sector]]
          else old(data)
    {
      assert ReqOk(State(), h);
      var op := ops[desc[h].addr.i];
      var second := desc[desc[h].next];
      var third := desc[second.next];
      var b := second.addr.b;
      // The device reads what it may not write, writes what it may, and follows a chain only as far as it says.
      if !desc[h].more || desc[h].write || !second.more || third.more || !third.write { return; }
      if op.write && !second.write {
        if b in data { platter := platter[op.sector := data[b]]; }
      } else if !op.write && second.write {
        if op.sector in platter { data := data[b := platter[op.sector]]; }
      }
    }

    /** The device writes the status where the third descriptor says, and adds the chain to the used ring. */
    method Report(h: nat)
      requires Valid() && h in reqs && reqs[h].phase == Fetched
      modifies `info, `usedRing, `usedIdx, `reqs, `completed
      ensures h < |old(info)| && State() == Complete(old(State()), h) && usedIdx == completed % WRAP
    {
      assert ReqOk(State(), h);
      ghost var v' := Complete(State(), h);
      var status := desc[desc[desc[h].next].next].addr.i;
      info := info[status := info[status].(status := 0)];
      PushUsed(h);
      reqs, completed := v'.reqs, v'.completed;
    }

    method PushUsed(h: nat)
      requires 0 < |free| == |usedRing| && WRAP % |free| == 0 && usedIdx == completed % WRAP
      modifies `usedRing, `usedIdx
      ensures usedRing == old(usedRing)[completed % |free| := h] && usedIdx == (completed + 1) % WRAP
    {
      PlaceOfWrapped(completed, WRAP, |free|);
      WrappedSum(completed, 1, WRAP);
      usedRing := usedRing[usedIdx % |free| := h];
      usedIdx := (usedIdx + 1) % WRAP;
    }

    /** One turn of the loop in the interrupt handler. */
    method SeeOne()
      requires Valid() && seen < completed
      modifies `busy, `seenIdx, `reqs, `seen
      ensures Valid() && Ok(old(State())) && State() == See(old(State()))
    {
      ghost var v := State();
      SeeOk(v);
      assert UsedOk(v, seen);
      PlaceOfWrapped(seen, WRAP, |free|);
      WrappedSum(seen, 1, WRAP);
      var id := usedRing[seenIdx % |free|];
      assert info[id].status == 0;
      busy := busy - {info[id].b.value};
      seenIdx := (seenIdx + 1) % WRAP;
      ghost var v' := See(v);
      reqs, seen := v'.reqs, v'.seen;
      assert State() == v';
    }

    /** The interrupt handler: every completed request's buffer, and no other, is marked as done. */
    method Intr()
      requires Valid()
      modifies `busy, `seenIdx, `reqs, `seen
      ensures Valid() && seen == completed && SeenFrom(old(reqs), old(busy), State())
    {
      CaughtUp();
      SeenStart(State());
      while seenIdx != usedIdx
        invariant Valid() && seen <= completed && SeenFrom(old(reqs), old(busy), State())
        invariant seenIdx != usedIdx <==> seen < completed
        decreases completed - seen
      {
        SeenMore(old(reqs), old(busy), State());
        SeeOne();
        CaughtUp();
      }
    }

    /** Comparing 16-bit indices tells whether there is anything to see. */
    lemma {:induction false} CaughtUp()
      requires Valid()
      ensures seenIdx != usedIdx <==> seen < completed
    {
      RingsFit(State());
      if seen < completed { PlacesDiffer(seen, completed, WRAP); }
    }

    /** The end of virtio_disk_rw(), once the buffer is done: the request is gone and its descriptors are free. */
    method Finish(b: nat, head: nat)
      requires Valid() && held == {} && head in reqs && reqs[head].b == b && b !in busy
      modifies this
      ensures Valid() && held == {} && reqs == old(reqs) - {head} && busy == old(busy)
      ensures data == old(data) && platter == old(platter)
    {
      ghost var v := State();
      assert ReqOk(v, head);
      ReleaseOk(v, head);
      info := info[head := info[head].(b := None)];
      ghost var r, v' := reqs[head], Release(v, head);
      reqs, owner, held, using := v'.reqs, v'.owner, v'.held, v'.using;
      assert State() == v';
      FreeChain(head, r);
    }

    /** Follows a chain of descriptors, freeing each. */
    method FreeChain(head: nat, ghost r: Req)
      requires Valid() && held == {head, r.i1, r.i2} && head != r.i1 && head != r.i2 && r.i1 != r.i2
      requires head < |desc| && r.i1 < |desc| && r.i2 < |desc|
      requires desc[head].more && desc[head].next == r.i1 && desc[r.i1].more && desc[r.i1].next == r.i2 &&
        !desc[r.i2].more
      modifies `free, `desc, `held
      ensures Valid() && held == {}
    {
      var i := head;
      ghost var left := 3;
      while true
        invariant Valid() && i in held && i < |desc| && 1 <= left <= 3 && |desc| == |old(desc)|
        invariant left == 3 ==> i == head && held == {head, r.i1, r.i2} && desc == old(desc)
        invariant left == 2 ==> i == r.i1 && held == {r.i1, r.i2} && desc == old(desc)[head := NODESC]
        invariant left == 1 ==> i == r.i2 && held == {r.i2} && desc[r.i2] == old(desc)[r.i2]
        decreases left
      {
        var more, nxt := desc[i].more, desc[i].next;
        FreeDesc(i);
        if more { i := nxt; } else { break; }
        left := left - 1;
      }
    }
  }
}
