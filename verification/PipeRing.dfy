/**
 Pipes (kernel/pipe.c): a ring of bytes with 32-bit counters that wrap around.

 pipewrite() and piperead() hold the pipe's lock except while they sleep, so a call is a
 succession of critical sections; each is one method here, and any interleaving of calls
 is some order of them.  What copyin() and copyout() can reach, and whether the process
 has been killed, are parameters.
 */
module PipeRing {

  import opened Basics
  import opened Wrapping

  const WRAP: nat := 0x1_0000_0000    // a multiple of PIPESIZE, which is 512

  /** How one critical section of pipewrite() ends: the call returns, or it sleeps and goes on later. */
  datatype Outcome = Finished | Sleeps | Broken | Fault

  // ---------------------------------------------------------------- the pipe

  class Pipe {
    const size: nat
    const data: array<byte>
    var nread: nat
    var nwrite: nat
    var readopen: bool
    var writeopen: bool
    ghost var written: seq<byte>      // everything ever put in
    ghost var delivered: seq<byte>    // everything ever taken out

    ghost predicate Valid()
      reads this, data
    {
      && 0 < size < WRAP && WRAP % size == 0 && data.Length == size
      && nread == |delivered| % WRAP && nwrite == |written| % WRAP
      && |delivered| <= |written| <= |delivered| + size && delivered == written[..|delivered|]
      && (forall j {:trigger written[j]} :: |delivered| <= j < |written| ==> data[j % size] == written[j])
    }

    /** How many bytes would still go in. */
    ghost function Room(): nat
      reads this, data
      requires Valid()
    {
      |delivered| + size - |written|
    }

    constructor (size: nat)
      requires 0 < size < WRAP && WRAP % size == 0
      ensures Valid() && written == delivered == [] && readopen && writeopen && this.size == size && fresh(data)
    {
      this.size := size;
      data := new byte[size];
      nread, nwrite, readopen, writeopen, written, delivered := 0, 0, true, true, [], [];
    }

    /** The test for a full pipe, on counters that have wrapped around any number of times. */
    lemma {:induction false} FullTest()
      requires Valid()
      ensures nwrite == (nread + size) % WRAP <==> |written| == |delivered| + size
      ensures nwrite == nread <==> |written| == |delivered|
    {
      WrappedSum(|delivered|, size, WRAP);
      if |written| < |delivered| + size { PlacesDiffer(|written|, |delivered| + size, WRAP); }
      if |delivered| < |written| { PlacesDiffer(|delivered|, |written|, WRAP); }
    }

    /** pi->data[pi->nwrite++ % PIPESIZE] = ch, when there is room. */
    method Put(ch: byte)
      requires Valid() && |written| < |delivered| + size
      modifies `nwrite, `written, data
      ensures Valid() && written == old(written) + [ch]
    {
      PlaceOfWrapped(|written|, WRAP, size);
      WrappedSum(|written|, 1, WRAP);
      forall j | |delivered| <= j < |written| ensures j % size != |written| % size {
        PlacesDiffer(j, |written|, size);
      }
      data[nwrite % size] := ch;
      nwrite := (nwrite + 1) % WRAP;
      written := written + [ch];
    }

    /** pi->data[pi->nread % PIPESIZE] and pi->nread++, when there is something. */
    method Get() returns (ch: byte)
      requires Valid() && |delivered| < |written|
      modifies `nread, `delivered
      ensures Valid() && delivered == old(delivered) + [ch]
    {
      PlaceOfWrapped(|delivered|, WRAP, size);
      WrappedSum(|delivered|, 1, WRAP);
      ch := data[nread % size];
      assert ch == written[|delivered|];
      nread := (nread + 1) % WRAP;
      delivered := delivered + [ch];
      assert delivered == written[..|delivered|];
    }

    /**
     pipewrite(), from when it has the lock, with the first i bytes of src written, to when it gives it up.
     Bytes of src up to reach can be copied in.
     */
    method WriteSome(src: seq<byte>, i: nat, reach: nat, killed: bool) returns (i': nat, o: Outcome)
      requires Valid() && i <= |src|
      modifies `nwrite, `written, data
      ensures Valid() && i <= i' <= |src| && written == old(written) + src[i..i']
      ensures i < |src| && (!readopen || killed) ==> o == Broken && i' == i
      ensures !readopen ==> written == old(written)
      ensures i == |src| ==> o == Finished && i' == i
      ensures i < |src| && readopen && !killed ==>
        i' == Min(|src|, Min(i + old(Room()), if reach < i then i else reach))
      ensures i < |src| && readopen && !killed ==>
        o == if i' == |src| then Finished else if |written| == |delivered| + size then Sleeps else Fault
    {
      i' := i;
      while i' < |src|
        invariant i <= i' <= |src| && Valid() && written == old(written) + src[i..i']
        invariant i' > i ==> readopen && !killed && i' <= reach
        invariant i' - i <= old(Room()) && Room() == old(Room()) - (i' - i)
        decreases |src| - i'
      {
        if !readopen || killed { return i', Broken; }
        FullTest();
        if nwrite == (nread + size) % WRAP { return i', Sleeps; }
        if reach <= i' { return i', Fault; }
        Put(src[i']);
        assert src[i..i' + 1] == src[i..i'] + [src[i']];
        i' := i' + 1;
      }
      o := Finished;
    }

    /**
     piperead(), from when it finds the pipe not empty or closed to when it gives up the lock; reach bytes can be
     copied out.
     */
    method ReadSome(n: nat, reach: nat) returns (bytes: seq<byte>)
      requires Valid()
      modifies `nread, `delivered
      ensures Valid() && delivered == old(delivered) + bytes
      ensures |bytes| == Min(n, Min(reach, |written| - |old(delivered)|))
    {
      bytes := [];
      while |bytes| < n
        invariant |bytes| <= n && |bytes| <= reach && Valid() && delivered == old(delivered) + bytes
        decreases n - |bytes|
      {
        FullTest();
        if nread == nwrite { break; }
        if |bytes| == reach { break; }
        var ch := Get();
        bytes := bytes + [ch];
      }
    }

    /** The test that piperead() sleeps on. */
    method MustWait() returns (b: bool)
      requires Valid()
      ensures b <==> |delivered| == |written| && writeopen
    {
      FullTest();
      b := nread == nwrite && writeopen;
    }

    method Close(writable: bool) returns (free: bool)
      requires Valid()
      modifies `readopen, `writeopen
      ensures Valid() && free == (!readopen && !writeopen)
      ensures readopen == (old(readopen) && writable) && writeopen == (old(writeopen) && !writable)
    {
      if writable { writeopen := false; } else { readopen := false; }
      free := !readopen && !writeopen;
    }
  }

  // ---------------------------------------------------------------- messages

  /** Messages end to end. */
  ghost function Flat(msgs: seq<seq<byte>>): seq<byte> {
    if msgs == [] then [] else Flat(msgs[..|msgs| - 1]) + msgs[|msgs| - 1]
  }

  ghost predicate AllOf(msgs: seq<seq<byte>>, k: nat) {
    forall i {:trigger msgs[i]} :: 0 <= i < |msgs| ==> |msgs[i]| == k
  }

  lemma {:induction false} FlatLength(msgs: seq<seq<byte>>, k: nat)
    requires AllOf(msgs, k)
    ensures |Flat(msgs)| == |msgs| * k
  {
    if msgs != [] {
      FlatLength(msgs[..|msgs| - 1], k);
      assert |msgs| * k == (|msgs| - 1) * k + k;
    }
  }

  /** Message r is where it should be. */
  lemma {:induction false} FlatAt(msgs: seq<seq<byte>>, k: nat, r: nat)
    requires AllOf(msgs, k) && r < |msgs|
    ensures r * k + k <= |Flat(msgs)| && Flat(msgs)[..r * k] == Flat(msgs[..r]) &&
      Flat(msgs)[r * k..r * k + k] == msgs[r]
  {
    var n := |msgs| - 1;
    FlatLength(msgs, k);
    FlatLength(msgs[..n], k);
    assert (n + 1) * k == n * k + k;
    if r < n {
      FlatAt(msgs[..n], k, r);
      assert msgs[..n][..r] == msgs[..r];
      assert Flat(msgs)[..n * k] == Flat(msgs[..n]);
    }
  }

  /** A critical section of a call that transfers one message. */
  datatype Turn = Write(msg: seq<byte>) | Read

  /** What should come of some turns: the messages that went in, and how many of them came out. */
  datatype Traffic = Traffic(sent: seq<seq<byte>>, taken: nat)

  /** A write goes in if fewer than room messages are waiting, and a read takes one if there is one. */
  function After(t: Traffic, turn: Turn, room: nat): (r: Traffic)
    ensures t.taken <= |t.sent| <= t.taken + room ==> r.taken <= |r.sent| <= r.taken + room
  {
    match turn
    case Write(msg) => if |t.sent| < t.taken + room then Traffic(t.sent + [msg], t.taken) else t
    case Read => if t.taken < |t.sent| then Traffic(t.sent, t.taken + 1) else t
  }

  function Exchange(turns: seq<Turn>, room: nat): (t: Traffic)
    ensures t.taken <= |t.sent| <= t.taken + room
  {
    if turns == [] then Traffic([], 0) else After(Exchange(turns[..|turns| - 1], room), turns[|turns| - 1], room)
  }

  /** The pipe has seen that traffic, and got is what was read. */
  ghost predicate Carries(p: Pipe, k: nat, room: nat, t: Traffic, got: seq<seq<byte>>)
    reads p, p.data
  {
    && p.Valid() && p.readopen && p.writeopen && 0 < k && p.size == room * k
    && AllOf(t.sent, k) && t.taken <= |t.sent| && got == t.sent[..t.taken]
    && p.written == Flat(t.sent) && p.delivered == Flat(got)
  }

  /**
   Writers and readers of messages of k bytes, taking turns in any order; k divides the size of the pipe and no one is
   killed or faults.  Every message goes in whole, if there is room for one, or not at all, and every read returns one
   whole message, the oldest, if there is one: the pipe is a queue of size / k messages.
   */
  method Transfers(p: Pipe, k: nat, turns: seq<Turn>) returns (got: seq<seq<byte>>)
    requires p.Valid() && p.written == [] && p.readopen && p.writeopen && 0 < k && p.size % k == 0
    requires forall i {:trigger turns[i]} :: 0 <= i < |turns| && turns[i].Write? ==> |turns[i].msg| == k
    modifies p, p.data
    ensures var t := Exchange(turns, p.size / k);
      p.Valid() && got == t.sent[..t.taken] && p.written == Flat(t.sent) && p.delivered == Flat(got)
  {
    got := [];
    ghost var room := p.size / k;
    var i := 0;
    while i < |turns|
      invariant 0 <= i <= |turns| && Carries(p, k, room, Exchange(turns[..i], room), got)
    {
      assert turns[..i + 1][..i] == turns[..i];
      match turns[i] {
        case Write(msg) => WriteOne(p, k, room, msg, got, Exchange(turns[..i], room));
        case Read => got := ReadOne(p, k, room, got, Exchange(turns[..i], room));
      }
      i := i + 1;
    }
    assert turns[..i] == turns;
  }

  /** The bytes in the pipe, counted in messages. */
  lemma {:induction false} Waiting(p: Pipe, k: nat, room: nat, got: seq<seq<byte>>, msgs: seq<seq<byte>>)
    requires 0 < k && p.size == room * k && p.written == Flat(msgs) && p.delivered == Flat(got)
    requires AllOf(msgs, k) && |got| <= |msgs| && got == msgs[..|got|]
    ensures |p.written| < |p.delivered| + p.size <==> |msgs| < |got| + room
    ensures |p.delivered| == |p.written| <==> |got| == |msgs|
    ensures |p.written| < |p.delivered| + p.size ==> |p.written| + k <= |p.delivered| + p.size
  {
    FlatLength(msgs, k);
    FlatLength(got, k);
    InUnits(|msgs|, |got|, room, k);
  }

  lemma {:induction false} InUnits(m: nat, g: nat, c: nat, k: nat)
    requires 0 < k && g <= m
    ensures m * k < g * k + c * k <==> m < g + c
    ensures g * k == m * k <==> g == m
    ensures m < g + c ==> m * k + k <= g * k + c * k
  {
    assert g * k + c * k == (g + c) * k;
    if m < g + c { Farther(m, g + c, k); } else if g + c < m { Farther(g + c, m, k); }
    if g < m { Farther(g, m, k); }
  }

  lemma {:induction false} Farther(a: nat, b: nat, k: nat)
    requires a < b && 0 < k
    ensures a * k + k <= b * k
  {
    MulAtLeast(b - a, k);
    assert b * k == a * k + (b - a) * k;
  }

  /** One message goes in whole, if there is room for it, and otherwise not at all. */
  method WriteOne(p: Pipe, k: nat, ghost room: nat, msg: seq<byte>, ghost got: seq<seq<byte>>, ghost t: Traffic)
    requires Carries(p, k, room, t, got) && |msg| == k
    modifies p, p.data
    ensures Carries(p, k, room, After(t, Write(msg), room), got)
  {
    Waiting(p, k, room, got, t.sent);
    var n, o := p.WriteSome(msg, 0, k, false);
    assert o == Finished ==> msg[0..n] == msg;
    assert (t.sent + [msg])[..|t.sent|] == t.sent;
  }

  /** One message comes out whole, if there is one. */
  method ReadOne(p: Pipe, k: nat, ghost room: nat, got: seq<seq<byte>>, ghost t: Traffic) returns (more: seq<seq<byte>>)
    requires Carries(p, k, room, t, got)
    modifies p, p.data
    ensures Carries(p, k, room, After(t, Read, room), more)
  {
    Waiting(p, k, room, got, t.sent);
    var wait := p.MustWait();
    if wait { return got; }
    FlatLength(got, k);
    FlatAt(t.sent, k, |got|);
    var bytes := p.ReadSome(k, k);
    more := got + [bytes];
    assert p.delivered[|got| * k..] == bytes;
    assert more[..|more| - 1] == got;
  }
}
