/**
 Every run of readi(), writei() and itrunc() (kernel/fs.c) on the files of a disk is a
 run on sequences of bytes, up to a write that needs more blocks than are free, and
 which write that is can be told from the calls.
 */
module FileRuns {

  import opened Basics
  import opened Blocks
  import opened Bitmap
  import opened Inodes
  import opened FileSystem

  datatype Call = Read(i: nat, off: nat, n: nat) | Write(i: nat, off: nat, src: seq<byte>) | Truncate(i: nat)

  /** Files as bytes, the slots of each that name a block, and how many blocks are free. */
  datatype Machine = Machine(files: seq<seq<byte>>, slots: seq<set<nat>>, free: nat)

  /** The arguments are C unsigned numbers, and there is such an inode. */
  predicate Proper(c: Call, n: nat) {
    c.i < n && (c.Read? ==> c.off < U32_LIMIT && c.n < U32_LIMIT) &&
      (c.Write? ==> c.off < U32_LIMIT && |c.src| < U32_LIMIT)
  }

  /** The requests that writei() does not refuse. */
  predicate Accepted(file: seq<byte>, off: nat, src: seq<byte>) {
    off <= |file| && off + |src| < U32_LIMIT && off + |src| <= MAXSIZE
  }

  /** The slots that n bytes at off go through. */
  function Touched(off: nat, n: nat): set<nat> {
    set j | 0 <= j < SLOTS && Touches(off / BSIZE, BlocksEnd(off, n), j)
  }

  /** The call is a write that needs more blocks than there are. */
  predicate Stops(m: Machine, c: Call) {
    && c.Write? && c.i < |m.files| == |m.slots| && Accepted(m.files[c.i], c.off, c.src)
    && |Touched(c.off, |c.src|) - m.slots[c.i]| > m.free
  }

  /** A call that does not stop. */
  function After(m: Machine, c: Call): Machine {
    if c.i >= |m.files| || c.i >= |m.slots| then m
    else
      match c
      case Read(_, _, _) => m
      case Write(i, off, src) =>
        var need := |Touched(off, |src|) - m.slots[i]|;
        if !Accepted(m.files[i], off, src) || need > m.free then m
        else
          Machine(m.files[i := Spliced(m.files[i], off, src)],
                  m.slots[i := m.slots[i] + Touched(off, |src|)], m.free - need)
      case Truncate(i) => Machine(m.files[i := []], m.slots[i := {}], m.free + |m.slots[i]|)
  }

  /** What a call returns: the bytes read, as far as the file goes. */
  function Result(m: Machine, c: Call): seq<byte> {
    if c.Read? && c.i < |m.files| && c.off <= |m.files[c.i]| && c.off + c.n < U32_LIMIT
      then m.files[c.i][c.off..Min(c.off + c.n, |m.files[c.i]|)] else []
  }

  function AfterAll(m: Machine, calls: seq<Call>): Machine {
    if calls == [] then m else After(AfterAll(m, calls[..|calls| - 1]), calls[|calls| - 1])
  }

  function Results(m: Machine, calls: seq<Call>): seq<seq<byte>> {
    if calls == [] then []
    else Results(m, calls[..|calls| - 1]) + [Result(AfterAll(m, calls[..|calls| - 1]), calls[|calls| - 1])]
  }

  /** Call k gets through. */
  predicate Passes(m: Machine, calls: seq<Call>, k: nat) {
    k < |calls| && !Stops(AfterAll(m, calls[..k]), calls[k])
  }

  // ---------------------------------------------------------------- no block is lost

  function InFiles(slots: seq<set<nat>>): nat {
    if slots == [] then 0 else InFiles(slots[..|slots| - 1]) + |slots[|slots| - 1]|
  }

  lemma {:induction false} InFilesWith(slots: seq<set<nat>>, i: nat, s: set<nat>)
    requires i < |slots|
    ensures InFiles(slots[i := s]) + |slots[i]| == InFiles(slots) + |s|
  {
    var n, slots' := |slots| - 1, slots[i := s];
    if i < n {
      InFilesWith(slots[..n], i, s);
      assert slots'[..n] == slots[..n][i := s];
    } else {
      assert slots'[..n] == slots[..n];
    }
  }

  /** Over every run, the free blocks and those of the files come to the same. */
  lemma {:induction false} BlocksConserved(m: Machine, calls: seq<Call>)
    ensures var m' := AfterAll(m, calls); m'.free + InFiles(m'.slots) == m.free + InFiles(m.slots)
  {
    if calls != [] {
      var m1, c := AfterAll(m, calls[..|calls| - 1]), calls[|calls| - 1];
      BlocksConserved(m, calls[..|calls| - 1]);
      if c.i < |m1.slots| {
        if c.Write? {
          var t := Touched(c.off, |c.src|);
          InFilesWith(m1.slots, c.i, m1.slots[c.i] + t);
          assert m1.slots[c.i] + t == m1.slots[c.i] + (t - m1.slots[c.i]);
        } else {
          InFilesWith(m1.slots, c.i, {});
        }
      }
    }
  }

  // ---------------------------------------------------------------- the machine of a file system

  ghost function Slots(fs: FS, i: nat): set<nat> {
    set j | 0 <= j < SLOTS && Addr(fs, i, j) != 0
  }

  ghost function Image(g: Geometry, fs: FS, used: set<nat>): (m: Machine)
    ensures |m.files| == |m.slots| == |fs.inodes| && m.free == FreeCount(used, g.size)
    ensures forall i {:trigger m.files[i]} :: 0 <= i < |m.files| ==> m.files[i] == Contents(fs, i)
    ensures forall i {:trigger m.slots[i]} :: 0 <= i < |m.slots| ==> m.slots[i] == Slots(fs, i)
  {
    Machine(seq(|fs.inodes|, i requires 0 <= i < |fs.inodes| => Contents(fs, i)),
            seq(|fs.inodes|, i requires 0 <= i < |fs.inodes| => Slots(fs, i)), FreeCount(used, g.size))
  }

  /** The machine is known by the contents and slots. */
  lemma {:induction false} ImageIs(g: Geometry, fs: FS, used: set<nat>, fs': FS, used': set<nat>, i: nat,
                                   file: seq<byte>,
                                   s: set<nat>)
    requires |fs'.inodes| == |fs.inodes| && i < |fs.inodes| && Contents(fs', i) == file && Slots(fs', i) == s
    requires forall k :: 0 <= k < |fs.inodes| && k != i ==> Contents(fs', k) == Contents(fs, k)
    requires forall k, j {:trigger Addr(fs', k, j)} :: 0 <= k && 0 <= j && k != i ==> Addr(fs', k, j) == Addr(fs, k, j)
    ensures var m := Image(g, fs, used);
            Image(g, fs', used') == Machine(m.files[i := file], m.slots[i := s], FreeCount(used', g.size))
  {
    var m, m' := Image(g, fs, used), Image(g, fs', used');
    assert m'.files == m.files[i := file];
    forall k | 0 <= k < |fs.inodes| ensures m'.slots[k] == m.slots[i := s][k] {
      if k != i { assert Slots(fs', k) == Slots(fs, k); }
    }
  }

  /** The slots for blocks a up to b that are empty, the indirect block's aside. */
  ghost function Gaps(fs: FS, i: nat, a: nat, b: nat): set<nat> {
    set j | 0 <= j < SLOTS && IsGap(fs, i, a, b, j)
  }

  ghost predicate IsGap(fs: FS, i: nat, a: nat, b: nat, j: nat) {
    j != NDIRECT && Touches(a, b, j) && Addr(fs, i, j) == 0
  }

  lemma {:induction false} GapsFrom(fs: FS, i: nat, a: nat, b: nat)
    requires a < b <= MAXFILE
    ensures DataSlot(a) !in Gaps(fs, i, a + 1, b)
    ensures Gaps(fs, i, a, b) == Gaps(fs, i, a + 1, b) + if Addr(fs, i, DataSlot(a)) == 0 then {DataSlot(a)} else {}
  {
    forall j ensures j in Gaps(fs, i, a, b) <==>
                     j in Gaps(fs, i, a + 1, b) || (j == DataSlot(a) && Addr(fs, i, DataSlot(a)) == 0)
    {
      if 0 <= j < SLOTS {
        assert IsGap(fs, i, a, b, j) <==> IsGap(fs, i, a + 1, b, j) || (j == DataSlot(a) && Addr(fs, i, j) == 0);
      }
    }
  }

  lemma {:induction false} EntriesCounted(fs: FS, i: nat, a: nat, b: nat)
    requires b <= MAXFILE
    ensures Entries(fs, i, a, b) == |Gaps(fs, i, a, b)|
    decreases b - a
  {
    if a < b {
      EntriesCounted(fs, i, a + 1, b);
      GapsFrom(fs, i, a, b);
    } else {
      assert forall j :: 0 <= j ==> !IsGap(fs, i, a, b, j);
      assert Gaps(fs, i, a, b) == {};
    }
  }

  /** What the code counts slot by slot is the number of slots that are touched and empty. */
  lemma {:induction false} NeedCounted(fs: FS, i: nat, off: nat, n: nat)
    requires off + n <= MAXSIZE
    ensures Need(fs, i, off, n) == |Touched(off, n) - Slots(fs, i)|
  {
    var a, b := off / BSIZE, BlocksEnd(off, n);
    EntriesCounted(fs, i, a, b);
    var ind := a < b && NDIRECT < b && Addr(fs, i, NDIRECT) == 0;
    forall j ensures j in Touched(off, n) - Slots(fs, i) <==> j in Gaps(fs, i, a, b) || (j == NDIRECT && ind) {
      if 0 <= j < SLOTS {
        assert IsGap(fs, i, a, b, j) || (j == NDIRECT && ind) <==> Touches(a, b, j) && Addr(fs, i, j) == 0;
      }
    }
    assert Touched(off, n) - Slots(fs, i) == Gaps(fs, i, a, b) + if ind then {NDIRECT} else {};
  }

  lemma {:induction false} HeldCounted(fs: FS, i: nat, n: nat, s: set<nat>)
    requires forall j :: j in s <==> 0 <= j < n && Addr(fs, i, j) != 0
    ensures Held(fs, i, n) == |s|
  {
    if n > 0 {
      HeldCounted(fs, i, n - 1, s - {n - 1});
    } else {
      assert s == {};
    }
  }

  /** writei(), as its contract has it, is the machine's write. */
  lemma {:induction false} WriteImage(g: Geometry, fs: FS, used: set<nat>, fs': FS, used': set<nat>, i: nat, off: nat,
                                      src: seq<byte>)
    requires |fs'.inodes| == |fs.inodes| && i < |fs.inodes| && Accepted(Contents(fs, i), off, src)
    requires Need(fs, i, off, |src|) <= FreeCount(used, g.size) &&
      Contents(fs', i) == Spliced(Contents(fs, i), off, src)
    requires Spent(g, fs, used, fs', used', i, off / BSIZE, BlocksEnd(off, |src|))
    requires forall k :: 0 <= k < |fs.inodes| && k != i ==> Contents(fs', k) == Contents(fs, k)
    ensures Image(g, fs', used') == After(Image(g, fs, used), Write(i, off, src))
  {
    NeedCounted(fs, i, off, |src|);
    assert Slots(fs', i) == Slots(fs, i) + Touched(off, |src|);
    ImageIs(g, fs, used, fs', used', i, Contents(fs', i), Slots(fs', i));
  }

  lemma {:induction false} TruncateImage(g: Geometry, fs: FS, used: set<nat>, fs': FS, used': set<nat>, i: nat)
    requires |fs'.inodes| == |fs.inodes| && i < |fs.inodes| && Contents(fs', i) == []
    requires Emptied(g, fs, used, fs', used', i)
    requires forall k :: 0 <= k < |fs.inodes| && k != i ==> Contents(fs', k) == Contents(fs, k)
    ensures Image(g, fs', used') == After(Image(g, fs, used), Truncate(i))
  {
    HeldCounted(fs, i, SLOTS, Slots(fs, i));
    assert Slots(fs', i) == {};
    ImageIs(g, fs, used, fs', used', i, [], {});
  }

  // ---------------------------------------------------------------- the calls

  /** A count of blocks that no call of n bytes at off can use up. */
  lemma {:induction false} NoFault(off: nat, n: nat)
    ensures !FaultsIn(off, n, n)
  {
  }

  method Step(f: FileSys, c: Call) returns (ok: bool, data: seq<byte>)
    requires f.Valid() && Proper(c, |f.inodes|)
    modifies f
    ensures f.Valid() && |f.inodes| == |old(f.inodes)|
    ensures ok == !Stops(Image(f.g, old(f.State()), old(f.used)), c)
    ensures ok ==>
              && Image(f.g, f.State(), f.used) == After(Image(f.g, old(f.State()), old(f.used)), c)
              && data == Result(Image(f.g, old(f.State()), old(f.used)), c)
  {
    match c
    case Read(i, off, n) =>
      ok := true;
      data := StepRead(f, i, off, n);
    case Write(i, off, src) =>
      ok := StepWrite(f, i, off, src);
      data := [];
    case Truncate(i) =>
      f.Itrunc(i);
      TruncateImage(f.g, old(f.State()), old(f.used), f.State(), f.used, i);
      ok, data := true, [];
  }

  method StepRead(f: FileSys, i: nat, off: nat, n: nat) returns (data: seq<byte>)
    requires f.Valid() && Proper(Read(i, off, n), |f.inodes|)
    modifies f
    ensures f.Valid() && f.State() == old(f.State()) && f.used == old(f.used)
    ensures data == Result(Image(f.g, f.State(), f.used), Read(i, off, n))
  {
    NoFault(off, Min(n, f.inodes[i].size));
    var r;
    r, data := f.Readi(i, off, n, n);
  }

  method StepWrite(f: FileSys, i: nat, off: nat, src: seq<byte>) returns (ok: bool)
    requires f.Valid() && Proper(Write(i, off, src), |f.inodes|)
    modifies f
    ensures f.Valid() && |f.inodes| == |old(f.inodes)|
    ensures ok == !Stops(Image(f.g, old(f.State()), old(f.used)), Write(i, off, src))
    ensures ok ==> Image(f.g, f.State(), f.used) == After(Image(f.g, old(f.State()), old(f.used)), Write(i, off, src))
  {
    NoFault(off, |src|);
    var r, _ := f.Writei(i, off, src, |src|, 0);
    ok := r < 0 || r == |src|;
    if r >= 0 { NeedCounted(old(f.State()), i, off, |src|); }
    if r == |src| { WriteImage(f.g, old(f.State()), old(f.used), f.State(), f.used, i, off, src); }
  }

  /** The first done calls got through, returned data and led to now. */
  ghost predicate Ran(m: Machine, calls: seq<Call>, done: nat, data: seq<seq<byte>>, now: Machine) {
    && done <= |calls| && data == Results(m, calls[..done]) && now == AfterAll(m, calls[..done])
    && forall k {:trigger Passes(m, calls, k)} :: 0 <= k < done ==> Passes(m, calls, k)
  }

  lemma {:induction false} RanMore(m: Machine, calls: seq<Call>, done: nat, data: seq<seq<byte>>, now: Machine)
    requires Ran(m, calls, done, data, now) && done < |calls|
    ensures Passes(m, calls, done) <==> !Stops(now, calls[done])
    ensures !Stops(now, calls[done]) ==>
              Ran(m, calls, done + 1, data + [Result(now, calls[done])], After(now, calls[done]))
  {
    assert calls[..done + 1][..done] == calls[..done] && calls[..done + 1][done] == calls[done];
  }

  /** Every run returns what byte sequences would, and stops at the first write that the machine has no blocks for. */
  method Run(f: FileSys, calls: seq<Call>) returns (done: nat, data: seq<seq<byte>>)
    requires f.Valid() && forall k {:trigger calls[k]} :: 0 <= k < |calls| ==> Proper(calls[k], |f.inodes|)
    modifies f
    ensures f.Valid()
    ensures var m := Image(f.g, old(f.State()), old(f.used));
      && done <= |calls| && Ran(m, calls, done, data, AfterAll(m, calls[..done])) &&
          (done < |calls| ==> !Passes(m, calls, done))
      && (done == |calls| ==> Image(f.g, f.State(), f.used) == AfterAll(m, calls))
  {
    ghost var m := Image(f.g, f.State(), f.used);
    done, data := 0, [];
    while done < |calls|
      invariant done <= |calls| && f.Valid() && |f.inodes| == |old(f.inodes)|
      invariant Ran(m, calls, done, data, Image(f.g, f.State(), f.used))
    {
      RanMore(m, calls, done, data, Image(f.g, f.State(), f.used));
      var ok, d := Step(f, calls[done]);
      if !ok { return; }
      data := data + [d];
      done := done + 1;
    }
    assert calls[..done] == calls;
  }
}
