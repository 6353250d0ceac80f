/**
 Directories and link counts (kernel/sysfile.c, and dirlookup(), dirlink() and namex() in
 kernel/fs.c): what create, link and unlink, each of them atomic, keep.

 A directory is a sequence of entries; inode 0 marks one that is empty.  Its first two
 entries are "." and "..".  A path is the sequence of its elements.  An inode without
 links lives on while a process holds it.
 */
module DirTree {

  import opened Basics

  datatype Entry = Entry(inum: nat, name: string)

  datatype Inode = Inode(isDir: bool, nlink: nat, entries: seq<Entry>)

  /** What create is asked to make: T_FILE, T_DIR or T_DEVICE. */
  datatype Kind = File | Dir | Device

  /** A place in a directory. */
  datatype Place = Place(dir: nat, slot: nat)

  const ROOT: nat := 1
  const DOT: string := "."
  const DOTDOT: string := ".."

  /**
   What there is, and what can be said of it: the places that name each inode, apart from "." and ".."; the place of
   each directory but the root; and how deep each lies.
   */
  datatype T = T(inodes: map<nat, Inode>, named: map<nat, set<Place>>, place: map<nat, Place>, depth: map<nat, nat>)

  // ---------------------------------------------------------------- the invariant

  predicate IsDir(t: T, i: nat) {
    i in t.inodes && t.inodes[i].isDir
  }

  /** A directory that has not been unlinked. */
  predicate InTree(t: T, i: nat) {
    IsDir(t, i) && t.inodes[i].nlink > 0
  }

  /** The inode that an entry names; 0 if there is no such entry. */
  function At(t: T, p: Place): nat {
    if IsDir(t, p.dir) && p.slot < |t.inodes[p.dir].entries| then t.inodes[p.dir].entries[p.slot].inum else 0
  }

  /** An entry other than "." and "..". */
  predicate Names(t: T, p: Place, i: nat) {
    i != 0 && 2 <= p.slot && At(t, p) == i
  }

  /** The entries of a directory that name directories. */
  ghost function Kids(t: T, d: nat): set<nat> {
    if IsDir(t, d) then
      set k | 2 <= k < |t.inodes[d].entries| && IsDir(t, t.inodes[d].entries[k].inum) &&
        t.inodes[d].entries[k].inum != 0
    else {}
  }

  /** A link for each entry that names it, one for each directory in it, and one more for the root. */
  ghost predicate CountOk(t: T, i: nat) {
    i in t.inodes ==>
      && i in t.named
      && t.inodes[i].nlink == |t.named[i]| + |Kids(t, i)| + if i == ROOT then 1 else 0
  }

  ghost predicate NamedOk(t: T, i: nat, p: Place) {
    i in t.inodes && i in t.named ==> (p in t.named[i] <==> Names(t, p, i))
  }

  /** An entry names an inode there is, other than the root, and is in a directory of the tree. */
  ghost predicate EntryOk(t: T, p: Place) {
    2 <= p.slot && At(t, p) != 0 ==> At(t, p) in t.inodes && At(t, p) != ROOT && InTree(t, p.dir)
  }

  /** "." and ".." lead where they should. */
  ghost predicate DotsOk(t: T, d: nat) {
    IsDir(t, d) ==>
      && |t.inodes[d].entries| >= 2
      && t.inodes[d].entries[0] == Entry(d, DOT) && t.inodes[d].entries[1].name == DOTDOT
      && (d == ROOT ==> t.inodes[d].entries[1].inum == ROOT)
      && (d != ROOT && InTree(t, d) ==> d in t.place && t.inodes[d].entries[1].inum == t.place[d].dir)
      && t.inodes[d].entries[1].inum != 0
  }

  /** A directory of the tree is in one place, a level below the directory it is in; one that is unlinked is in none. */
  ghost predicate PlaceOk(t: T, d: nat) {
    && (InTree(t, d) ==> d in t.depth)
    && (InTree(t, d) && d != ROOT ==> Placed(t, d))
    && (IsDir(t, d) && t.inodes[d].nlink == 0 ==> d in t.named && t.named[d] == {})
  }

  ghost predicate Placed(t: T, d: nat) {
    && d in t.place && d in t.named && t.named[d] == {t.place[d]} && InTree(t, t.place[d].dir)
    && d in t.depth && t.place[d].dir in t.depth && t.depth[d] == t.depth[t.place[d].dir] + 1
  }

  ghost predicate NamesDiffer(t: T, d: nat, j: nat, k: nat) {
    IsDir(t, d) && j < k < |t.inodes[d].entries| && t.inodes[d].entries[j].inum != 0 &&
      t.inodes[d].entries[k].inum != 0 ==>
      t.inodes[d].entries[j].name != t.inodes[d].entries[k].name
  }

  ghost predicate RootOk(t: T) {
    InTree(t, ROOT) && 0 !in t.inodes && t.named.Keys == t.inodes.Keys && ROOT in t.depth && t.depth[ROOT] == 0
  }

  /** Where everything is, apart from how many links it has. */
  ghost predicate Shape(t: T) {
    && RootOk(t)
    && (forall p: Place {:trigger EntryOk(t, p)} :: EntryOk(t, p))
    && (forall d: nat {:trigger DotsOk(t, d)} :: DotsOk(t, d))
    && (forall d: nat {:trigger PlaceOk(t, d)} :: PlaceOk(t, d))
    && (forall d: nat, j: nat, k: nat {:trigger NamesDiffer(t, d, j, k)} :: NamesDiffer(t, d, j, k))
  }

  ghost predicate Ok(t: T) {
    && Shape(t)
    && (forall i: nat {:trigger CountOk(t, i)} :: CountOk(t, i))
    && (forall i: nat, p: Place {:trigger NamedOk(t, i, p)} :: NamedOk(t, i, p))
  }

  // ---------------------------------------------------------------- what the invariant says

  /** A path of entries, apart from "." and "..", from the root. */
  ghost predicate IsPath(t: T, path: seq<Place>, d: nat)
    decreases |path|
  {
    if path == [] then d == ROOT
    else var last := path[|path| - 1]; Names(t, last, d) && IsPath(t, path[..|path| - 1], last.dir)
  }

  /** The directories form a tree: each that is not unlinked is reached from the root by exactly one path. */
  lemma {:induction false} OnePath(t: T, d: nat) returns (path: seq<Place>)
    requires Ok(t) && InTree(t, d) && d in t.depth
    ensures IsPath(t, path, d) && |path| == t.depth[d]
    ensures forall other {:trigger IsPath(t, other, d)} :: IsPath(t, other, d) ==> other == path
    decreases t.depth[d]
  {
    assert PlaceOk(t, d) && PlaceOk(t, ROOT);
    if d == ROOT {
      path := [];
      forall other {:trigger IsPath(t, other, d)} | IsPath(t, other, d) ensures other == path {
        assert other != [] ==> EntryOk(t, other[|other| - 1]);
      }
    } else {
      var p := t.place[d];
      var before := OnePath(t, p.dir);
      path := before + [p];
      assert NamedOk(t, d, p);
      assert path[..|path| - 1] == before;
      forall other {:trigger IsPath(t, other, d)} | IsPath(t, other, d) ensures other == path {
        var last := other[|other| - 1];
        assert NamedOk(t, d, last);
        assert IsPath(t, other[..|other| - 1], p.dir);
        assert other == other[..|other| - 1] + [last];
      }
    }
  }

  // ---------------------------------------------------------------- changes

  /** A directory's entries with the one at k, or the next one, as given. */
  function WithEntry(entries: seq<Entry>, k: nat, e: Entry): (r: seq<Entry>)
    requires k <= |entries|
    ensures |r| == if k < |entries| then |entries| else |entries| + 1
    ensures forall j {:trigger r[j]} :: 0 <= j < |r| ==> r[j] == if j == k then e else entries[j]
  {
    if k < |entries| then entries[k := e] else entries + [e]
  }

  /** dirlink() may put an entry for name at k: it is empty, or the end, and the name is not there. */
  ghost predicate Vacant(t: T, d: nat, k: nat, name: string) {
    && InTree(t, d) && 2 <= k <= |t.inodes[d].entries| &&
        (k < |t.inodes[d].entries| ==> t.inodes[d].entries[k].inum == 0)
    && Absent(t.inodes[d].entries, name)
  }

  ghost predicate Absent(entries: seq<Entry>, name: string) {
    forall j {:trigger entries[j]} :: 0 <= j < |entries| && entries[j].inum != 0 ==> entries[j].name != name
  }

  /** Directory d with an entry at k, and its link count as given. */
  function DirWith(t: T, d: nat, k: nat, e: Entry, nlink: nat): Inode
    requires d in t.inodes && k <= |t.inodes[d].entries|
  {
    t.inodes[d].(nlink := nlink, entries := WithEntry(t.inodes[d].entries, k, e))
  }

  /**
   What every change here has in common: the entry at p, which was or becomes empty, now names v; no other entry has
   changed; and there are the same directories, but perhaps for n.
   */
  ghost predicate Rewired(t: T, t': T, p: Place, v: nat, n: nat) {
    && (forall q {:trigger At(t', q)} ::
          At(t', q) == if q == p then v else if q.dir == n && !IsDir(t, n) then At(t', q) else At(t, q))
    && (forall x: nat {:trigger IsDir(t', x)} :: x != n ==> IsDir(t', x) == IsDir(t, x))
    && (forall x: nat {:trigger x in t'.inodes} :: x != n ==> (x in t'.inodes <==> x in t.inodes))
    && (forall x: nat {:trigger t'.inodes[x].entries} :: IsDir(t, x) && IsDir(t', x) && x != p.dir ==>
          t'.inodes[x].entries == t.inodes[x].entries)
  }

  /** A directory's subdirectories, by what its entries name. */
  lemma {:induction false} KidAt(t: T, x: nat, k: nat)
    ensures k in Kids(t, x) <==> 2 <= k && At(t, Place(x, k)) != 0 && IsDir(t, At(t, Place(x, k)))
  {
  }

  lemma {:induction false} KidsSame(t: T, t': T, x: nat)
    requires forall k: nat {:trigger At(t', Place(x, k))} :: 2 <= k ==>
      (At(t', Place(x, k)) != 0 && IsDir(t', At(t', Place(x, k))) <==>
        At(t, Place(x, k)) != 0 && IsDir(t, At(t, Place(x, k))))
    ensures Kids(t', x) == Kids(t, x)
  {
    forall k: nat ensures k in Kids(t', x) <==> k in Kids(t, x) {
      KidAt(t, x, k);
      KidAt(t', x, k);
    }
  }

  /** Names of entries: those of d are as they were, and one more that was not there. */
  lemma {:induction false} NamesKept(t: T, t': T, d: nat, k: nat, e: Entry)
    requires IsDir(t, d) && IsDir(t', d) && k <= |t.inodes[d].entries|
    requires t'.inodes[d].entries == WithEntry(t.inodes[d].entries, k, e)
    requires e.inum != 0 ==> Absent(t.inodes[d].entries, e.name)
    requires forall j: nat, l: nat {:trigger NamesDiffer(t, d, j, l)} :: NamesDiffer(t, d, j, l)
    ensures forall j: nat, l: nat {:trigger NamesDiffer(t', d, j, l)} :: NamesDiffer(t', d, j, l)
  {
    forall j: nat, l: nat {:trigger NamesDiffer(t', d, j, l)} ensures NamesDiffer(t', d, j, l) {
      assert NamesDiffer(t, d, j, l);
    }
  }

  // A link to a file.

  ghost function FileLinked(t: T, i: nat, d: nat, k: nat, name: string): T
    requires i in t.inodes && i in t.named && d in t.inodes && k <= |t.inodes[d].entries|
  {
    t.(inodes := t.inodes[i := t.inodes[i].(nlink := t.inodes[i].nlink + 1)]
                         [d := DirWith(t, d, k, Entry(i, name), t.inodes[d].nlink)],
       named := t.named[i := t.named[i] + {Place(d, k)}])
  }

  lemma {:induction false} FileLinkedRewired(t: T, i: nat, d: nat, k: nat, name: string)
    requires i in t.inodes && !t.inodes[i].isDir && i in t.named && Vacant(t, d, k, name)
    ensures Rewired(t, FileLinked(t, i, d, k, name), Place(d, k), i, 0) && At(t, Place(d, k)) == 0
  {
  }

  lemma {:induction false} FileLinkedOk(t: T, i: nat, d: nat, k: nat, name: string)
    requires Ok(t) && i in t.inodes && !t.inodes[i].isDir && i in t.named && Vacant(t, d, k, name)
    ensures Ok(FileLinked(t, i, d, k, name))
  {
    var t' := FileLinked(t, i, d, k, name);
    var p := Place(d, k);
    FileLinkedRewired(t, i, d, k, name);
    forall x: nat {:trigger CountOk(t', x)} ensures CountOk(t', x) { FileLinkedCount(t, i, d, k, name, x); }
    forall x: nat, q: Place {:trigger NamedOk(t', x, q)} ensures NamedOk(t', x, q) { assert NamedOk(t, x, q); }
    forall q: Place {:trigger EntryOk(t', q)} ensures EntryOk(t', q) { assert EntryOk(t, q); }
    forall x: nat {:trigger DotsOk(t', x)} ensures DotsOk(t', x) { assert DotsOk(t, x); }
    forall x: nat {:trigger PlaceOk(t', x)} ensures PlaceOk(t', x) { assert PlaceOk(t, x); }
    NamesKept(t, t', d, k, Entry(i, name));
    forall x: nat, j: nat, l: nat {:trigger NamesDiffer(t', x, j, l)} ensures NamesDiffer(t', x, j, l) {
      assert NamesDiffer(t, x, j, l);
    }
  }

  lemma {:induction false} FileLinkedCount(t: T, i: nat, d: nat, k: nat, name: string, x: nat)
    requires Ok(t) && i in t.inodes && !t.inodes[i].isDir && i in t.named && Vacant(t, d, k, name)
    ensures CountOk(FileLinked(t, i, d, k, name), x)
  {
    FileLinkedRewired(t, i, d, k, name);
    assert CountOk(t, x) && NamedOk(t, i, Place(d, k));
    KidsSame(t, FileLinked(t, i, d, k, name), x);
  }

  // A new file.

  ghost function FileMade(t: T, i: nat, d: nat, k: nat, name: string): T
    requires d in t.inodes && k <= |t.inodes[d].entries|
  {
    t.(inodes := t.inodes[d := DirWith(t, d, k, Entry(i, name), t.inodes[d].nlink)][i := Inode(false, 1, [])],
       named := t.named[i := {Place(d, k)}])
  }

  lemma {:induction false} FileMadeRewired(t: T, i: nat, d: nat, k: nat, name: string)
    requires i !in t.inodes && i != 0 && Vacant(t, d, k, name)
    ensures Rewired(t, FileMade(t, i, d, k, name), Place(d, k), i, i) && At(t, Place(d, k)) == 0
  {
  }

  lemma {:induction false} FileMadeOk(t: T, i: nat, d: nat, k: nat, name: string)
    requires Ok(t) && i !in t.inodes && i != 0 && Vacant(t, d, k, name)
    ensures Ok(FileMade(t, i, d, k, name))
  {
    var t' := FileMade(t, i, d, k, name);
    var p := Place(d, k);
    FileMadeRewired(t, i, d, k, name);
    forall q: Place {:trigger EntryOk(t', q)} ensures EntryOk(t', q) { assert EntryOk(t, q); }
    forall x: nat {:trigger CountOk(t', x)} ensures CountOk(t', x) {
      assert CountOk(t, x);
      forall j: nat {:trigger At(t', Place(x, j))} | 2 <= j
        ensures At(t', Place(x, j)) != 0 && IsDir(t', At(t', Place(x, j))) <==>
          At(t, Place(x, j)) != 0 && IsDir(t, At(t, Place(x, j)))
      {
        assert EntryOk(t, Place(x, j));
      }
      KidsSame(t, t', x);
    }
    forall x: nat, q: Place {:trigger NamedOk(t', x, q)}
      ensures NamedOk(t', x, q)
    {
      assert NamedOk(t, x, q) && EntryOk(t, q);
    }
    forall x: nat {:trigger DotsOk(t', x)} ensures DotsOk(t', x) { assert DotsOk(t, x); }
    forall x: nat {:trigger PlaceOk(t', x)} ensures PlaceOk(t', x) { assert PlaceOk(t, x); }
    NamesKept(t, t', d, k, Entry(i, name));
    forall x: nat, j: nat, l: nat {:trigger NamesDiffer(t', x, j, l)} ensures NamesDiffer(t', x, j, l) {
      assert NamesDiffer(t, x, j, l);
    }
  }

  // A new directory.

  function NewDir(i: nat, d: nat): Inode {
    Inode(true, 1, [Entry(i, DOT), Entry(d, DOTDOT)])
  }

  ghost function DirMade(t: T, i: nat, d: nat, k: nat, name: string): T
    requires d in t.inodes && k <= |t.inodes[d].entries| && d in t.depth
  {
    t.(inodes := t.inodes[d := DirWith(t, d, k, Entry(i, name), t.inodes[d].nlink + 1)][i := NewDir(i, d)],
       named := t.named[i := {Place(d, k)}], place := t.place[i := Place(d, k)], depth := t.depth[i := t.depth[d] + 1])
  }

  lemma {:induction false} DirMadeRewired(t: T, i: nat, d: nat, k: nat, name: string)
    requires i !in t.inodes && i != 0 && Vacant(t, d, k, name) && d in t.depth
    ensures Rewired(t, DirMade(t, i, d, k, name), Place(d, k), i, i) && At(t, Place(d, k)) == 0
    ensures forall q: Place {:trigger At(DirMade(t, i, d, k, name), q)} :: q.dir == i && 2 <= q.slot ==>
      At(DirMade(t, i, d, k, name), q) == 0
  {
  }

  /** The parent has one more directory in it. */
  lemma {:induction false} KidsMore(t: T, t': T, x: nat, k: nat)
    requires k !in Kids(t, x) && forall j: nat {:trigger j in Kids(t', x)} :: j in Kids(t', x) <==>
      j == k || j in Kids(t, x)
    ensures |Kids(t', x)| == |Kids(t, x)| + 1
  {
    assert Kids(t', x) == Kids(t, x) + {k};
  }

  lemma {:induction false} DirMadeOk(t: T, i: nat, d: nat, k: nat, name: string)
    requires Ok(t) && i !in t.inodes && i != 0 && Vacant(t, d, k, name) && d in t.depth
    ensures Ok(DirMade(t, i, d, k, name))
  {
    var t' := DirMade(t, i, d, k, name);
    DirMadeRewired(t, i, d, k, name);
    forall q: Place {:trigger EntryOk(t', q)} ensures EntryOk(t', q) { assert EntryOk(t, q); }
    forall x: nat {:trigger CountOk(t', x)} ensures CountOk(t', x) { DirMadeCount(t, i, d, k, name, x); }
    forall x: nat, q: Place {:trigger NamedOk(t', x, q)}
      ensures NamedOk(t', x, q)
    {
      assert NamedOk(t, x, q) && EntryOk(t, q);
    }
    forall x: nat {:trigger DotsOk(t', x)} ensures DotsOk(t', x) { assert DotsOk(t, x) && PlaceOk(t, x); }
    forall x: nat {:trigger PlaceOk(t', x)} ensures PlaceOk(t', x) { assert PlaceOk(t, x) && PlaceOk(t, d); }
    NamesKept(t, t', d, k, Entry(i, name));
    forall x: nat, j: nat, l: nat {:trigger NamesDiffer(t', x, j, l)} ensures NamesDiffer(t', x, j, l) {
      assert NamesDiffer(t, x, j, l);
    }
  }

  lemma {:induction false} DirMadeCount(t: T, i: nat, d: nat, k: nat, name: string, x: nat)
    requires Ok(t) && i !in t.inodes && i != 0 && Vacant(t, d, k, name) && d in t.depth
    ensures CountOk(DirMade(t, i, d, k, name), x)
  {
    var t' := DirMade(t, i, d, k, name);
    DirMadeRewired(t, i, d, k, name);
    assert CountOk(t, x);
    if x in t'.inodes {
      forall j: nat {:trigger j in Kids(t', x)}
        ensures j in Kids(t', x) <==> (x == d && j == k) || (x != i && j in Kids(t, x))
      {
        KidAt(t, x, j);
        KidAt(t', x, j);
        assert EntryOk(t, Place(x, j));
      }
      if x == d {
        KidAt(t, x, k);
        KidsMore(t, t', x, k);
      } else if x == i {
        assert Kids(t', x) == {};
      } else {
        assert Kids(t', x) == Kids(t, x);
      }
    }
  }

  // An entry goes.

  const EMPTY: Entry := Entry(0, "")

  /** The entry at k of d names i. */
  ghost predicate Linked(t: T, d: nat, k: nat, i: nat) {
    InTree(t, d) && 2 <= k < |t.inodes[d].entries| && t.inodes[d].entries[k].inum == i && i != 0
  }

  /** What there is to know of an inode that an entry names. */
  lemma {:induction false} LinkedKnown(t: T, d: nat, k: nat, i: nat)
    requires Ok(t) && Linked(t, d, k, i)
    ensures i in t.inodes && i in t.named && i != ROOT && Place(d, k) in t.named[i] && t.inodes[i].nlink > 0
    ensures IsDir(t, i) ==> i != d && t.named[i] == {Place(d, k)} && k in Kids(t, d) && t.inodes[d].nlink > 0
    ensures IsDir(t, i) ==> t.inodes[i].nlink == 1 + |Kids(t, i)|
  {
    var p := Place(d, k);
    assert EntryOk(t, p) && NamedOk(t, i, p) && CountOk(t, i) && CountOk(t, d) && PlaceOk(t, i);
    KidAt(t, d, k);
    assert |t.named[i]| > 0;
  }

  ghost function FileUnlinked(t: T, d: nat, k: nat, i: nat): T
    requires d in t.inodes && k <= |t.inodes[d].entries| && i in t.inodes && i in t.named && t.inodes[i].nlink > 0
  {
    t.(inodes := t.inodes[i := t.inodes[i].(nlink := t.inodes[i].nlink - 1)][d := DirWith(t, d, k, EMPTY,
      t.inodes[d].nlink)],
       named := t.named[i := t.named[i] - {Place(d, k)}])
  }

  lemma {:induction false} FileUnlinkedRewired(t: T, d: nat, k: nat, i: nat)
    requires Linked(t, d, k, i) && i in t.inodes && i in t.named && !t.inodes[i].isDir && t.inodes[i].nlink > 0
    ensures Rewired(t, FileUnlinked(t, d, k, i), Place(d, k), 0, 0)
  {
  }

  lemma {:induction false} FileUnlinkedOk(t: T, d: nat, k: nat, i: nat)
    requires Ok(t) && Linked(t, d, k, i) && i in t.inodes && !t.inodes[i].isDir
    ensures i in t.named && t.inodes[i].nlink > 0 && Ok(FileUnlinked(t, d, k, i))
  {
    LinkedKnown(t, d, k, i);
    var t' := FileUnlinked(t, d, k, i);
    FileUnlinkedRewired(t, d, k, i);
    forall x: nat {:trigger CountOk(t', x)} ensures CountOk(t', x) { FileUnlinkedCount(t, d, k, i, x); }
    forall x: nat, q: Place {:trigger NamedOk(t', x, q)} ensures NamedOk(t', x, q) { assert NamedOk(t, x, q); }
    forall q: Place {:trigger EntryOk(t', q)} ensures EntryOk(t', q) { assert EntryOk(t, q); }
    forall x: nat {:trigger DotsOk(t', x)} ensures DotsOk(t', x) { assert DotsOk(t, x); }
    forall x: nat {:trigger PlaceOk(t', x)} ensures PlaceOk(t', x) { assert PlaceOk(t, x); }
    NamesKept(t, t', d, k, EMPTY);
    forall x: nat, j: nat, l: nat {:trigger NamesDiffer(t', x, j, l)} ensures NamesDiffer(t', x, j, l) {
      assert NamesDiffer(t, x, j, l);
    }
  }

  lemma {:induction false} FileUnlinkedCount(t: T, d: nat, k: nat, i: nat, x: nat)
    requires Ok(t) && Linked(t, d, k, i) && i in t.inodes && !t.inodes[i].isDir && i in t.named && t.inodes[i].nlink > 0
    ensures CountOk(FileUnlinked(t, d, k, i), x)
  {
    LinkedKnown(t, d, k, i);
    FileUnlinkedRewired(t, d, k, i);
    assert CountOk(t, x);
    KidsSame(t, FileUnlinked(t, d, k, i), x);
  }

  ghost function DirUnlinked(t: T, d: nat, k: nat, i: nat): T
    requires d in t.inodes && k <= |t.inodes[d].entries| && i in t.inodes && t.inodes[d].nlink > 0
  {
    t.(inodes := t.inodes[i := t.inodes[i].(nlink := 0)][d := DirWith(t, d, k, EMPTY, t.inodes[d].nlink - 1)],
       named := t.named[i := {}])
  }

  ghost predicate EmptyDir(t: T, i: nat) {
    i in t.inodes && forall j {:trigger t.inodes[i].entries[j]} :: 2 <= j < |t.inodes[i].entries| ==>
      t.inodes[i].entries[j].inum == 0
  }

  lemma {:induction false} DirUnlinkedRewired(t: T, d: nat, k: nat, i: nat)
    requires Linked(t, d, k, i) && IsDir(t, i) && i != d
    ensures Rewired(t, DirUnlinked(t, d, k, i), Place(d, k), 0, 0)
  {
  }

  /** A directory whose last link goes takes its ".." with it; it must be empty, and its parent loses a link. */
  lemma {:induction false} DirUnlinkedOk(t: T, d: nat, k: nat, i: nat)
    requires Ok(t) && Linked(t, d, k, i) && IsDir(t, i) && EmptyDir(t, i)
    ensures t.inodes[i].nlink == 1 && t.inodes[d].nlink > 0 && Ok(DirUnlinked(t, d, k, i))
  {
    LinkedKnown(t, d, k, i);
    EmptyHasNoKids(t, i);
    var t' := DirUnlinked(t, d, k, i);
    DirUnlinkedRewired(t, d, k, i);
    ParentStays(t, d, k, i);
    forall x: nat {:trigger CountOk(t', x)} ensures CountOk(t', x) { DirUnlinkedCount(t, d, k, i, x); }
    forall x: nat, q: Place {:trigger NamedOk(t', x, q)} ensures NamedOk(t', x, q) { assert NamedOk(t, x, q); }
    forall q: Place {:trigger EntryOk(t', q)} ensures EntryOk(t', q) {
      assert EntryOk(t, q);
    }
    forall x: nat {:trigger DotsOk(t', x)} ensures DotsOk(t', x) { assert DotsOk(t, x); }
    forall x: nat {:trigger PlaceOk(t', x)} ensures PlaceOk(t', x) {
      DirUnlinkedPlace(t, d, k, i, x);
    }
    NamesKept(t, t', d, k, EMPTY);
    forall x: nat, j: nat, l: nat {:trigger NamesDiffer(t', x, j, l)} ensures NamesDiffer(t', x, j, l) {
      assert NamesDiffer(t, x, j, l);
    }
  }

  lemma {:induction false} EmptyHasNoKids(t: T, i: nat)
    requires EmptyDir(t, i)
    ensures Kids(t, i) == {}
  {
    forall j: nat ensures j !in Kids(t, i) { KidAt(t, i, j); }
  }

  /** The parent keeps the link that its own place in the tree, or being the root, gives it. */
  lemma {:induction false} ParentStays(t: T, d: nat, k: nat, i: nat)
    requires Ok(t) && Linked(t, d, k, i) && IsDir(t, i)
    ensures t.inodes[d].nlink > 1
  {
    LinkedKnown(t, d, k, i);
    assert CountOk(t, d) && PlaceOk(t, d);
    assert |Kids(t, d)| > 0;
    if d != ROOT { assert t.named[d] == {t.place[d]}; }
  }

  lemma {:induction false} DirUnlinkedCount(t: T, d: nat, k: nat, i: nat, x: nat)
    requires Ok(t) && Linked(t, d, k, i) && IsDir(t, i) && EmptyDir(t, i) && t.inodes[d].nlink > 0
    ensures CountOk(DirUnlinked(t, d, k, i), x)
  {
    LinkedKnown(t, d, k, i);
    EmptyHasNoKids(t, i);
    var t' := DirUnlinked(t, d, k, i);
    DirUnlinkedRewired(t, d, k, i);
    assert CountOk(t, x);
    if x == d {
      forall j: nat {:trigger j in Kids(t, x)} ensures j in Kids(t, x) <==> j == k || j in Kids(t', x) {
        KidAt(t, x, j);
        KidAt(t', x, j);
      }
      KidAt(t', x, k);
      KidsMore(t', t, x, k);
    } else {
      KidsSame(t, t', x);
    }
  }

  lemma {:induction false} DirUnlinkedPlace(t: T, d: nat, k: nat, i: nat, x: nat)
    requires Ok(t) && Linked(t, d, k, i) && IsDir(t, i) && EmptyDir(t, i) && t.inodes[d].nlink > 1
    ensures PlaceOk(DirUnlinked(t, d, k, i), x)
  {
    LinkedKnown(t, d, k, i);
    assert PlaceOk(t, x);
    if InTree(t, x) && x != ROOT && x != i {
      assert NamedOk(t, x, t.place[x]);
    }
  }

  /** An inode without links goes when no one holds it. */
  ghost function Dropped(t: T, i: nat): T {
    t.(inodes := t.inodes - {i}, named := t.named - {i})
  }

  lemma {:induction false} DroppedOk(t: T, i: nat)
    requires Ok(t) && i in t.inodes && t.inodes[i].nlink == 0
    ensures Ok(Dropped(t, i))
  {
    var t' := Dropped(t, i);
    assert CountOk(t, i) && PlaceOk(t, i);
    forall q: Place ensures At(t, q) == i ==> q.slot < 2 {
      assert EntryOk(t, q) && NamedOk(t, i, q);
    }
    forall x: nat {:trigger CountOk(t', x)} ensures CountOk(t', x) {
      assert CountOk(t, x);
      if x != i { KidsSameBut(t, t', x, i); }
    }
    forall x: nat, q: Place {:trigger NamedOk(t', x, q)}
      ensures NamedOk(t', x, q)
    {
      assert NamedOk(t, x, q) && EntryOk(t, q);
    }
    forall q: Place {:trigger EntryOk(t', q)} ensures EntryOk(t', q) { assert EntryOk(t, q); }
    forall x: nat {:trigger DotsOk(t', x)} ensures DotsOk(t', x) { assert DotsOk(t, x); }
    forall x: nat {:trigger PlaceOk(t', x)} ensures PlaceOk(t', x) { assert PlaceOk(t, x); }
    forall x: nat, j: nat, l: nat {:trigger NamesDiffer(t', x, j, l)} ensures NamesDiffer(t', x, j, l) {
      assert NamesDiffer(t, x, j, l);
    }
  }

  lemma {:induction false} KidsSameBut(t: T, t': T, x: nat, i: nat)
    requires t' == Dropped(t, i) && x != i && forall q: Place {:trigger At(t, q)} :: At(t, q) == i ==> q.slot < 2
    ensures Kids(t', x) == Kids(t, x)
  {
    forall k: nat ensures k in Kids(t', x) <==> k in Kids(t, x) {
      KidAt(t, x, k);
      KidAt(t', x, k);
    }
  }

  // ---------------------------------------------------------------- names and paths

  /** The place among the entries of the one, if any, with a name. */
  ghost predicate IsEntry(entries: seq<Entry>, name: string, k: int) {
    0 <= k < |entries| && entries[k].inum != 0 && entries[k].name == name
  }

  /** The inode a path leads to from i: every directory on the way must still be in the tree. */
  ghost predicate LeadsTo(t: T, i: nat, path: seq<string>, j: nat)
    decreases |path|
  {
    if path == [] then i == j
    else InTree(t, i) && exists k ::
      IsEntry(t.inodes[i].entries, path[0], k) && LeadsTo(t, t.inodes[i].entries[k].inum, path[1..], j)
  }

  /** A path leads to one inode. */
  lemma {:induction false} LeadsToOne(t: T, i: nat, path: seq<string>, j: nat, j': nat)
    requires Shape(t) && LeadsTo(t, i, path, j) && LeadsTo(t, i, path, j')
    ensures j == j'
    decreases |path|
  {
    if path != [] {
      var k :| IsEntry(t.inodes[i].entries, path[0], k) && LeadsTo(t, t.inodes[i].entries[k].inum, path[1..], j);
      var k' :| IsEntry(t.inodes[i].entries, path[0], k') && LeadsTo(t, t.inodes[i].entries[k'].inum, path[1..], j');
      assert NamesDiffer(t, i, k, k') && NamesDiffer(t, i, k', k);
      LeadsToOne(t, t.inodes[i].entries[k].inum, path[1..], j, j');
    }
  }

  /** What any entry of a directory in the tree names is there. */
  lemma {:induction false} EntryLeads(t: T, d: nat, k: nat)
    requires Shape(t) && InTree(t, d) && k < |t.inodes[d].entries| && t.inodes[d].entries[k].inum != 0
    ensures t.inodes[d].entries[k].inum in t.inodes
  {
    assert DotsOk(t, d) && PlaceOk(t, d) && EntryOk(t, Place(d, k));
  }

  const MAXLINK: nat := 0x7FFF      // nlink is a short

  class Tree {
    var inodes: map<nat, Inode>
    var held: set<nat>                // inodes that processes have open, or are in
    ghost var named: map<nat, set<Place>>
    ghost var place: map<nat, Place>
    ghost var depth: map<nat, nat>

    ghost function State(): T
      reads this
    {
      T(inodes, named, place, depth)
    }

    /** The tree is in order, and an inode without links is one that someone holds. */
    ghost predicate Valid()
      reads this
    {
      && Ok(State()) && (forall i {:trigger i in held} :: i in held ==> i in inodes)
      && (forall i {:trigger inodes[i]} :: i in inodes && inodes[i].nlink == 0 ==> i in held)
    }

    constructor ()
      ensures Valid() && inodes.Keys == {ROOT} && held == {}
    {
      inodes := map[ROOT := Inode(true, 1, [Entry(ROOT, DOT), Entry(ROOT, DOTDOT)])];
      held := {};
      named, place, depth := map[ROOT := {}], map[], map[ROOT := 0];
      new;
      var t := State();
      forall d: nat, k: nat ensures k !in Kids(t, d) { KidAt(t, d, k); }
      forall i: nat {:trigger CountOk(t, i)} ensures CountOk(t, i) { assert Kids(t, i) == {}; }
      forall i: nat, p: Place {:trigger NamedOk(t, i, p)} ensures NamedOk(t, i, p) {}
      forall p: Place {:trigger EntryOk(t, p)} ensures EntryOk(t, p) {}
      forall d: nat {:trigger DotsOk(t, d)} ensures DotsOk(t, d) {}
      forall d: nat {:trigger PlaceOk(t, d)} ensures PlaceOk(t, d) {}
      forall d: nat, j: nat, k: nat {:trigger NamesDiffer(t, d, j, k)} ensures NamesDiffer(t, d, j, k) {}
    }

    /** The entry with a name, and the inode it names; 0 if there is none. */
    method Dirlookup(d: nat, name: string) returns (i: nat, k: nat)
      requires IsDir(State(), d)
      ensures i == 0 ==> Absent(inodes[d].entries, name)
      ensures i != 0 ==> IsEntry(inodes[d].entries, name, k) && inodes[d].entries[k].inum == i
    {
      k := 0;
      while k < |inodes[d].entries|
        invariant 0 <= k <= |inodes[d].entries|
        invariant forall j {:trigger inodes[d].entries[j]} :: 0 <= j < k && inodes[d].entries[j].inum != 0 ==>
          inodes[d].entries[j].name != name
      {
        var e := inodes[d].entries[k];
        if e.inum != 0 && e.name == name { return e.inum, k; }
        k := k + 1;
      }
      i := 0;
    }

    /** Where dirlink() would put an entry: the first that is empty, or the end; no place if the name is taken. */
    method FindVacant(d: nat, name: string) returns (k: Option<nat>)
      requires InTree(State(), d) && DotsOk(State(), d) && 0 !in inodes
      ensures k.Some? ==> Vacant(State(), d, k.value, name)
      ensures k.None? <==> !Absent(inodes[d].entries, name)
    {
      var i, j := Dirlookup(d, name);
      if i != 0 { return None; }
      var off := 0;
      while off < |inodes[d].entries| && inodes[d].entries[off].inum != 0
        invariant 0 <= off <= |inodes[d].entries|
        invariant forall j :: 0 <= j < off ==> inodes[d].entries[j].inum != 0
      {
        off := off + 1;
      }
      k := Some(off);
    }

    /** namex(): the inode a path leads to, or with up, the directory its last element is looked for in. */
    method Namex(start: nat, path: seq<string>, up: bool) returns (r: Option<nat>)
      requires Shape(State()) && start in inodes
      ensures r.Some? ==> r.value in inodes
      ensures !up ==> if r.Some? then LeadsTo(State(), start, path, r.value) else forall j ::
        !LeadsTo(State(), start, path, j)
      ensures up && r.Some? ==>
        path != [] && InTree(State(), r.value) && LeadsTo(State(), start, path[..|path| - 1], r.value)
      ensures up && r.None? && path != [] ==>
        forall j {:trigger InTree(State(), j)} :: InTree(State(), j) ==> !LeadsTo(State(), start, path[..|path| - 1], j)
    {
      var ip, n := start, 0;
      ghost var goal := if up && path != [] then path[..|path| - 1] else path;
      assert goal[0..] == goal;
      while n < |path|
        invariant 0 <= n <= |path| && ip in inodes && (up ==> n <= |goal|)
        invariant forall j {:trigger LeadsTo(State(), start, goal, j)} :: n <= |goal| ==>
          (LeadsTo(State(), start, goal, j) <==> LeadsTo(State(), ip, goal[n..], j))
      {
        if !inodes[ip].isDir || inodes[ip].nlink == 0 {
          assert forall j {:trigger LeadsTo(State(), start, goal, j)} :: LeadsTo(State(), start, goal, j) ==>
            n == |goal| && j == ip;
          return None;
        }
        if up && n == |path| - 1 {
          assert LeadsTo(State(), ip, goal[n..], ip);
          return Some(ip);
        }
        var next, k := Dirlookup(ip, path[n]);
        OneStep(State(), ip, goal[n..]);
        assert goal[n..][0] == path[n] && goal[n..][1..] == goal[n + 1..];
        if next == 0 { return None; }
        StepTo(State(), ip, goal[n..], k);
        EntryLeads(State(), ip, k);
        ip := next;
        n := n + 1;
      }
      if up { return None; }
      assert LeadsTo(State(), ip, goal[n..], ip);
      r := Some(ip);
    }

    /** Has a directory nothing in it but "." and ".."? */
    method Isdirempty(d: nat) returns (b: bool)
      requires IsDir(State(), d) && |inodes[d].entries| >= 2
      ensures b <==> EmptyDir(State(), d)
    {
      var k := 2;
      while k < |inodes[d].entries|
        invariant 2 <= k <= |inodes[d].entries|
        invariant forall j {:trigger inodes[d].entries[j]} :: 2 <= j < k ==> inodes[d].entries[j].inum == 0
      {
        if inodes[d].entries[k].inum != 0 { return false; }
        k := k + 1;
      }
      b := true;
    }

    /** iput(), when the caller's is the last reference but for those held: an inode without links is freed. */
    method Put(i: nat)
      requires Ok(State()) && i in inodes && (forall x {:trigger x in held} :: x in held ==> x in inodes)
      requires forall x {:trigger inodes[x]} :: x in inodes && x != i && inodes[x].nlink == 0 ==> x in held
      modifies `inodes, `named
      ensures Valid()
      ensures State() == if old(inodes[i].nlink) == 0 && i !in held then Dropped(old(State()), i) else old(State())
    {
      if inodes[i].nlink == 0 && i !in held {
        DroppedOk(State(), i);
        inodes := inodes - {i};
        named := named - {i};
      }
    }

    /** A process lets go of an inode. */
    method Close(i: nat)
      requires Valid() && i in held
      modifies this
      ensures Valid() && held == old(held) - {i}
      ensures State() == if old(inodes[i].nlink) == 0 then Dropped(old(State()), i) else old(State())
    {
      held := held - {i};
      Put(i);
    }

    /**
     link: a new name for a file.  The count goes up before the new name's directory is looked for, and down again if
     there is none, if the name is taken, or if the entry cannot be written.
     */
    method Link(start: nat, from: seq<string>, to: seq<string>, canWrite: bool) returns (ok: bool)
      requires Valid() && start in inodes && forall i {:trigger inodes[i]} :: i in inodes ==> inodes[i].nlink < MAXLINK
      modifies `inodes, `named
      ensures Valid()
      ensures !ok ==> State() == old(State())
      ensures ok ==> canWrite && exists i, d, k :: LinkMade(old(State()), start, from, to, i, d, k) &&
                                                   State() == FileLinked(old(State()), i, d, k, to[|to| - 1])
      ensures !ok && canWrite ==> forall i, d, k :: !LinkMade(old(State()), start, from, to, i, d, k)
    {
      ghost var t := State();
      var found := FindFile(start, from);
      if found == None { return false; }
      ghost var d, k;
      ok, d, k := LinkFile(found.value, start, to, canWrite);
      if ok {
        assert LinkMade(t, start, from, to, found.value, d, k);
        FileLinkedOk(t, found.value, d, k, to[|to| - 1]);
        forall x {:trigger inodes[x]} | x in inodes && inodes[x].nlink == 0 ensures x in held {
          assert x in t.inodes && t.inodes[x].nlink == 0;
        }
      } else if canWrite {
        forall i, e, l ensures !LinkMade(t, start, from, to, i, e, l) {
          assert !PlaceFor(t, start, to, e, l);
        }
      }
    }

    /** The rest of link, once it has the file. */
    method LinkFile(i: nat, start: nat, to: seq<string>, canWrite: bool) returns (ok: bool, ghost d: nat, ghost k: nat)
      requires Valid() && start in inodes && i in inodes && !inodes[i].isDir && inodes[i].nlink < MAXLINK
      modifies `inodes, `named
      ensures i in old(named)
      ensures !ok ==> State() == old(State())
      ensures ok ==>
        canWrite && PlaceFor(old(State()), start, to, d, k) &&
          State() == FileLinked(old(State()), i, d, k, to[|to| - 1])
      ensures !ok && canWrite ==> forall e: nat, l: nat {:trigger PlaceFor(old(State()), start, to, e, l)} ::
        !PlaceFor(old(State()), start, to, e, l)
    {
      ghost var t := State();
      assert CountOk(t, i);
      inodes := inodes[i := inodes[i].(nlink := inodes[i].nlink + 1)];
      CountOnly(t, i, inodes[i].nlink);
      var dir, slot := WhereTo(start, to);
      LinkPlace(t, State(), start, to, i);
      if slot == None || !canWrite {
        inodes := inodes[i := inodes[i].(nlink := inodes[i].nlink - 1)];
        assert inodes == t.inodes;
        return false, 0, 0;
      }
      d, k := dir, slot.value;
      assert PlaceFor(t, start, to, d, k);
      AddName(dir, slot.value, i, to[|to| - 1]);
      assert State() == FileLinked(t, i, d, k, to[|to| - 1]);
      ok := true;
    }

    /** The file, not a directory, that a path leads to. */
    method FindFile(start: nat, from: seq<string>) returns (r: Option<nat>)
      requires Shape(State()) && start in inodes
      ensures r.Some? ==> r.value in inodes && !inodes[r.value].isDir && LeadsTo(State(), start, from, r.value)
      ensures r.None? ==> forall j {:trigger LeadsTo(State(), start, from, j)} :: LeadsTo(State(), start, from, j) ==>
        IsDir(State(), j)
    {
      r := Namex(start, from, false);
      if r == None { return; }
      if inodes[r.value].isDir {
        forall j {:trigger LeadsTo(State(), start, from, j)} | LeadsTo(State(), start, from, j)
          ensures IsDir(State(), j)
        {
          LeadsToOne(State(), start, from, j, r.value);
        }
        r := None;
      }
    }

    /** The directory that a new name goes in, and a place there for it, if there is one. */
    method WhereTo(start: nat, to: seq<string>) returns (d: nat, slot: Option<nat>)
      requires Shape(State()) && start in inodes
      ensures slot.Some? ==> PlaceFor(State(), start, to, d, slot.value)
      ensures slot.None? ==> forall e: nat, k: nat {:trigger PlaceFor(State(), start, to, e, k)} ::
        !PlaceFor(State(), start, to, e, k)
    {
      var parent := Namex(start, to, true);
      if parent == None { return 0, None; }
      d := parent.value;
      assert DotsOk(State(), d);
      slot := FindVacant(d, to[|to| - 1]);
      if slot == None {
        forall e: nat, k: nat {:trigger PlaceFor(State(), start, to, e, k)}
          ensures !PlaceFor(State(), start, to, e, k)
        {
          if LeadsTo(State(), start, to[..|to| - 1], e) { LeadsToOne(State(), start, to[..|to| - 1], d, e); }
        }
      }
    }

    method AddName(d: nat, k: nat, i: nat, name: string)
      requires d in inodes && k <= |inodes[d].entries| && i in named
      modifies `inodes, `named
      ensures inodes ==
        old(inodes)[d := old(inodes[d]).(entries := WithEntry(old(inodes[d].entries), k, Entry(i, name)))]
      ensures named == old(named)[i := old(named[i]) + {Place(d, k)}]
    {
      inodes := inodes[d := inodes[d].(entries := WithEntry(inodes[d].entries, k, Entry(i, name)))];
      named := named[i := named[i] + {Place(d, k)}];
    }

    /**
     create: a new inode, or when a file is wanted a file or device that is there already; 0 if it cannot be made.
     unused is an inode that is not in use, 0 if there is none; the other two say whether there is room for a
     directory's first entries and for the new name.
     */
    method Create(start: nat, path: seq<string>, kind: Kind, unused: nat, canDots: bool, canLink: bool) returns (r: nat)
      requires Valid() && start in inodes && unused !in inodes
      requires forall i {:trigger inodes[i]} :: i in inodes ==> inodes[i].nlink < MAXLINK
      modifies `inodes, `named, `place, `depth
      ensures Valid()
      ensures r == 0 ==> State() == old(State())
      ensures r == 0 && unused != 0 && canDots && canLink ==> forall d: nat, k: nat ::
        !PlaceFor(old(State()), start, path, d, k)
      ensures r == 0 && kind.File? ==> forall d: nat, k: nat, i: nat :: !Found(old(State()), start, path, d, k, i)
      ensures r != 0 && r in old(inodes) ==>
                kind.File? && State() == old(State()) && exists d: nat, k: nat :: Found(State(), start, path, d, k, r)
      ensures r != 0 && r !in old(inodes) ==> r == unused && exists d: nat, k: nat ::
        && PlaceFor(old(State()), start, path, d, k) && d in old(depth)
        && State() == Made(old(State()), unused, d, k, path[|path| - 1], kind.Dir?)
    {
      ghost var t := State();
      var parent := Namex(start, path, true);
      if parent == None { return 0; }
      var d, name := parent.value, path[|path| - 1];
      var there;
      there, r := Existing(start, path, d, kind);
      if there { return; }
      if unused == 0 { return 0; }
      assert PlaceOk(t, d) && DotsOk(t, d);
      var made, k := Make(d, name, kind.Dir?, unused, canDots, canLink);
      if !made { return 0; }
      assert PlaceFor(t, start, path, d, k);
      MadeOk(t, unused, d, k, name, kind.Dir?);
      forall x {:trigger inodes[x]} | x in inodes && inodes[x].nlink == 0 ensures x in held {
        assert x in t.inodes && t.inodes[x].nlink == 0;
      }
      r := unused;
    }

    /** The part of create for a name that is there already: the file it leads to, if one is wanted, or 0. */
    method Existing(start: nat, path: seq<string>, d: nat, kind: Kind) returns (there: bool, r: nat)
      requires Ok(State()) && path != [] && LeadsTo(State(), start, path[..|path| - 1], d) && InTree(State(), d)
      ensures there ==> forall e: nat, l: nat :: !PlaceFor(State(), start, path, e, l)
      ensures there && r != 0 ==> kind.File? && exists e: nat, l: nat :: Found(State(), start, path, e, l, r)
      ensures r == 0 && kind.File? ==> forall e: nat, l: nat, x: nat :: !Found(State(), start, path, e, l, x)
      ensures !there ==> r == 0 && Absent(inodes[d].entries, path[|path| - 1])
    {
      ghost var t := State();
      var name := path[|path| - 1];
      var i, k := Dirlookup(d, name);
      if i == 0 {
        NoFile(t, start, path, d);
        return false, 0;
      }
      EntryLeads(t, d, k);
      forall e: nat, l: nat ensures !PlaceFor(t, start, path, e, l) {
        if LeadsTo(t, start, path[..|path| - 1], e) { LeadsToOne(t, start, path[..|path| - 1], d, e); }
      }
      if kind.File? && !inodes[i].isDir {
        assert Found(State(), start, path, d, k, i);
        return true, i;
      }
      forall l: nat ensures IsEntry(inodes[d].entries, name, l) ==> l == k {
        assert NamesDiffer(t, d, k, l) && NamesDiffer(t, d, l, k);
      }
      if kind.File? { NoFile(t, start, path, d); }
      return true, 0;
    }

    /** The rest of create, once the name is known not to be there. */
    method Make(d: nat, name: string, isDir: bool, unused: nat, canDots: bool, canLink: bool) returns (ok: bool, k: nat)
      requires InTree(State(), d) && DotsOk(State(), d) && d in depth && 0 !in inodes
      requires unused !in inodes && unused != 0 && Absent(inodes[d].entries, name)
      modifies `inodes, `named, `place, `depth
      ensures ok == (canLink && (isDir ==> canDots))
      ensures !ok ==> State() == old(State())
      ensures ok ==> Vacant(old(State()), d, k, name) && State() == Made(old(State()), unused, d, k, name, isDir)
    {
      ghost var t := State();
      k := 0;
      Allot(unused, d, isDir, canDots);
      var slot := FindVacant(d, name);
      ok := canLink && (isDir ==> canDots);
      if !ok {
        inodes := inodes[unused := inodes[unused].(nlink := 0)];
        inodes := inodes - {unused};
        assert inodes == t.inodes;
        return;
      }
      k := slot.value;
      Enter(d, k, name, unused, isDir);
      ghost var t' := Made(t, unused, d, k, name, isDir);
      MadeSwapped(t, unused, d, k, name, isDir);
      named, place, depth := t'.named, t'.place, t'.depth;
    }

    /** A new inode with one link, and for a directory, if there is room, its first two entries. */
    method Allot(i: nat, d: nat, isDir: bool, canDots: bool)
      modifies `inodes
      ensures inodes == old(inodes)[i := if isDir && canDots then NewDir(i, d) else Inode(isDir, 1, [])]
    {
      inodes := inodes[i := Inode(isDir, 1, [])];
      if isDir && canDots {
        inodes := inodes[i := NewDir(i, d)];
      }
    }

    /** The entry for a new inode, and for a directory a link to its parent for "..". */
    method Enter(d: nat, k: nat, name: string, i: nat, isDir: bool)
      requires d in inodes && k <= |inodes[d].entries|
      modifies `inodes
      ensures inodes ==
        old(inodes)[d := DirWith(old(State()), d, k, Entry(i, name), old(inodes[d].nlink) + if isDir then 1 else 0)]
    {
      inodes := inodes[d := inodes[d].(entries := WithEntry(inodes[d].entries, k, Entry(i, name)))];
      if isDir {
        inodes := inodes[d := inodes[d].(nlink := inodes[d].nlink + 1)];
      }
    }

    /** unlink: a name goes, and with the last one, unless someone holds it, the inode. */
    method Unlink(start: nat, path: seq<string>) returns (ok: bool)
      requires Valid() && start in inodes
      modifies `inodes, `named
      ensures Valid()
      ensures !ok ==> State() == old(State()) && forall i, d, k :: !UnlinkMade(old(State()), start, path, i, d, k)
      ensures ok ==> exists i, d, k :: UnlinkMade(old(State()), start, path, i, d, k) &&
                                       State() == Gone(old(State()), i, d, k, i in held)
    {
      ghost var t := State();
      var d, k, i := FindEntry(start, path);
      if i == 0 { return false; }
      UnlinkedOk(t, d, k, i);
      Remove(d, k, i);
      Put(i);
      assert UnlinkMade(t, start, path, i, d, k);
      ok := true;
    }

    /**
     The entry that unlink may remove, if there is one: not "." or "..", and not a directory that has something in it.
     */
    method FindEntry(start: nat, path: seq<string>) returns (d: nat, k: nat, i: nat)
      requires Ok(State()) && start in inodes
      ensures i != 0 ==> UnlinkMade(State(), start, path, i, d, k)
      ensures i == 0 ==> forall x: nat, e: nat, l: nat {:trigger UnlinkMade(State(), start, path, x, e, l)} ::
        !UnlinkMade(State(), start, path, x, e, l)
    {
      k, i := 0, 0;
      var parent := Namex(start, path, true);
      if parent == None { return 0, 0, 0; }
      d := parent.value;
      var name := path[|path| - 1];
      assert DotsOk(State(), d);
      forall x: nat, e: nat, l: nat {:trigger UnlinkMade(State(), start, path, x, e, l)}
        | UnlinkMade(State(), start, path, x, e, l)
        ensures e == d && IsEntry(inodes[d].entries, name, l) && inodes[d].entries[l].inum == x && 2 <= l
      {
        LeadsToOne(State(), start, path[..|path| - 1], d, e);
      }
      if name == DOT || name == DOTDOT {
        forall l: nat ensures IsEntry(inodes[d].entries, name, l) ==> l < 2 {
          assert NamesDiffer(State(), d, if name == DOT then 0 else 1, l);
        }
        return;
      }
      i, k := Dirlookup(d, name);
      if i == 0 { return; }
      LinkedKnown(State(), d, k, i);
      assert inodes[i].nlink >= 1;
      assert DotsOk(State(), i);
      if inodes[i].isDir {
        var empty := Isdirempty(i);
        if !empty {
          forall l: nat ensures IsEntry(inodes[d].entries, name, l) ==> l == k {
            assert NamesDiffer(State(), d, k, l) && NamesDiffer(State(), d, l, k);
          }
          i := 0;
        }
      }
    }

    /**
     The entry is cleared, a directory's parent loses the link for "..", and the inode loses the link for its name.
     */
    method Remove(d: nat, k: nat, i: nat)
      requires d in inodes && k <= |inodes[d].entries| && i in inodes && i in named && i != d
      requires inodes[d].nlink > 0 && inodes[i].nlink > 0 && (inodes[i].isDir ==> inodes[i].nlink == 1)
      modifies `inodes, `named
      ensures State() == Unlinked(old(State()), d, k, i)
    {
      inodes := inodes[d := inodes[d].(entries := WithEntry(inodes[d].entries, k, EMPTY))];
      if inodes[i].isDir {
        inodes := inodes[d := inodes[d].(nlink := inodes[d].nlink - 1)];
      }
      named := named[i := if inodes[i].isDir then {} else named[i] - {Place(d, k)}];
      inodes := inodes[i := inodes[i].(nlink := inodes[i].nlink - 1)];
      assert inodes == Unlinked(old(State()), d, k, i).inodes;
    }
  }

  ghost function Unlinked(t: T, d: nat, k: nat, i: nat): T
    requires d in t.inodes && k <= |t.inodes[d].entries| && i in t.inodes && i in t.named
    requires t.inodes[d].nlink > 0 && t.inodes[i].nlink > 0
  {
    if t.inodes[i].isDir then DirUnlinked(t, d, k, i) else FileUnlinked(t, d, k, i)
  }

  lemma {:induction false} UnlinkedOk(t: T, d: nat, k: nat, i: nat)
    requires Ok(t) && Linked(t, d, k, i) && i in t.inodes && (t.inodes[i].isDir ==> EmptyDir(t, i))
    ensures i in t.named && t.inodes[d].nlink > 0 && t.inodes[i].nlink > 0 && i != d &&
      (t.inodes[i].isDir ==> t.inodes[i].nlink == 1)
    ensures var t' := Unlinked(t, d, k, i);
      && Ok(t') && t'.inodes.Keys == t.inodes.Keys
      && (forall x: nat {:trigger t'.inodes[x]} :: x in t.inodes && x != i && t'.inodes[x].nlink == 0 ==>
          t.inodes[x].nlink == 0)
  {
    LinkedKnown(t, d, k, i);
    if t.inodes[i].isDir {
      DirUnlinkedOk(t, d, k, i);
      ParentStays(t, d, k, i);
    } else {
      FileUnlinkedOk(t, d, k, i);
    }
  }

  ghost function Made(t: T, i: nat, d: nat, k: nat, name: string, isDir: bool): T
    requires d in t.inodes && k <= |t.inodes[d].entries| && d in t.depth
  {
    if isDir then DirMade(t, i, d, k, name) else FileMade(t, i, d, k, name)
  }

  /** The inode first and the entry after, or the other way round. */
  lemma {:induction false} MadeSwapped(t: T, i: nat, d: nat, k: nat, name: string, isDir: bool)
    requires d in t.inodes && k <= |t.inodes[d].entries| && d in t.depth && i != d
    ensures var made := if isDir then NewDir(i, d) else Inode(isDir, 1, []);
      var dir := DirWith(t, d, k, Entry(i, name), t.inodes[d].nlink + if isDir then 1 else 0);
      t.inodes[i := made][d := dir] == Made(t, i, d, k, name, isDir).inodes
  {
  }

  lemma {:induction false} MadeOk(t: T, i: nat, d: nat, k: nat, name: string, isDir: bool)
    requires Ok(t) && i !in t.inodes && i != 0 && Vacant(t, d, k, name) && d in t.depth
    ensures Ok(Made(t, i, d, k, name, isDir))
  {
    if isDir { DirMadeOk(t, i, d, k, name); } else { FileMadeOk(t, i, d, k, name); }
  }

  /** A path leads to i, by an entry for its last element in the directory that the rest of it leads to. */
  ghost predicate Found(t: T, start: nat, path: seq<string>, d: nat, k: nat, i: nat) {
    && path != [] && LeadsTo(t, start, path[..|path| - 1], d) && InTree(t, d)
    && IsEntry(t.inodes[d].entries, path[|path| - 1], k) && t.inodes[d].entries[k].inum == i && i in t.inodes &&
        !t.inodes[i].isDir
  }

  /** There is no file at the end of a path, if no entry for its last element leads to one. */
  lemma {:induction false} NoFile(t: T, start: nat, path: seq<string>, d: nat)
    requires Shape(t) && path != [] && LeadsTo(t, start, path[..|path| - 1], d) && InTree(t, d)
    requires forall l: nat {:trigger t.inodes[d].entries[l]} :: IsEntry(t.inodes[d].entries, path[|path| - 1], l) ==>
      IsDir(t, t.inodes[d].entries[l].inum)
    ensures forall e: nat, l: nat, x: nat :: !Found(t, start, path, e, l, x)
  {
    forall e: nat, l: nat, x: nat ensures !Found(t, start, path, e, l, x) {
      if LeadsTo(t, start, path[..|path| - 1], e) { LeadsToOne(t, start, path[..|path| - 1], d, e); }
    }
  }

  /** A place for the last element of a path in the directory that the rest of it leads to. */
  ghost predicate PlaceFor(t: T, start: nat, to: seq<string>, d: nat, k: nat) {
    to != [] && LeadsTo(t, start, to[..|to| - 1], d) && Vacant(t, d, k, to[|to| - 1])
  }

  /** What link found: the file, the directory to put it in, and a place there. */
  ghost predicate LinkMade(t: T, start: nat, from: seq<string>, to: seq<string>, i: nat, d: nat, k: nat) {
    && i in t.inodes && !t.inodes[i].isDir && i in t.named && LeadsTo(t, start, from, i)
    && PlaceFor(t, start, to, d, k)
  }

  /** A file's count has no bearing on where there is a place for a name. */
  lemma {:induction false} LinkPlace(t: T, t': T, start: nat, to: seq<string>, f: nat)
    requires f in t.inodes && !t.inodes[f].isDir && f in t'.inodes && t'.inodes == t.inodes[f := t'.inodes[f]] &&
      !t'.inodes[f].isDir
    ensures forall d: nat, k: nat {:trigger PlaceFor(t, start, to, d, k)} {:trigger PlaceFor(t', start, to, d, k)} ::
      PlaceFor(t, start, to, d, k) <==> PlaceFor(t', start, to, d, k)
  {
    forall d: nat, k: nat {:trigger PlaceFor(t, start, to, d, k)} {:trigger PlaceFor(t', start, to, d, k)}
      ensures PlaceFor(t, start, to, d, k) <==> PlaceFor(t', start, to, d, k)
    {
      if PlaceFor(t, start, to, d, k) { LeadsToSame(t', t, start, to[..|to| - 1], d, f); }
      if PlaceFor(t', start, to, d, k) { LeadsToSame(t, t', start, to[..|to| - 1], d, f); }
    }
  }

  /** What unlink found: the directory, the entry with the name, and the inode it names. */
  ghost predicate UnlinkMade(t: T, start: nat, path: seq<string>, i: nat, d: nat, k: nat) {
    && path != [] && LeadsTo(t, start, path[..|path| - 1], d) && Linked(t, d, k, i)
    && t.inodes[d].entries[k].name == path[|path| - 1] && i in t.inodes && i in t.named && t.inodes[i].nlink > 0
    && t.inodes[d].nlink > 0 && (t.inodes[i].isDir ==> EmptyDir(t, i))
  }

  ghost function Gone(t: T, i: nat, d: nat, k: nat, held: bool): T
    requires Linked(t, d, k, i) && i in t.inodes && i in t.named && t.inodes[i].nlink > 0
  {
    var u := Unlinked(t, d, k, i);
    if u.inodes[i].nlink == 0 && !held then Dropped(u, i) else u
  }

  /** Changing a file's count changes nothing else. */
  lemma {:induction false} CountOnly(t: T, i: nat, nlink: nat)
    requires Ok(t) && i in t.inodes && !t.inodes[i].isDir
    ensures Shape(t.(inodes := t.inodes[i := t.inodes[i].(nlink := nlink)]))
  {
    var t' := t.(inodes := t.inodes[i := t.inodes[i].(nlink := nlink)]);
    forall p: Place {:trigger EntryOk(t', p)} ensures EntryOk(t', p) { assert EntryOk(t, p); }
    forall d: nat {:trigger DotsOk(t', d)} ensures DotsOk(t', d) { assert DotsOk(t, d); }
    forall d: nat {:trigger PlaceOk(t', d)} ensures PlaceOk(t', d) { assert PlaceOk(t, d); }
    forall d: nat, j: nat, k: nat {:trigger NamesDiffer(t', d, j, k)} ensures NamesDiffer(t', d, j, k) {
      assert NamesDiffer(t, d, j, k);
    }
  }

  lemma {:induction false} LeadsToSame(t: T, t': T, i: nat, path: seq<string>, j: nat, f: nat)
    requires f in t.inodes && !t.inodes[f].isDir && f in t'.inodes && t'.inodes == t.inodes[f := t'.inodes[f]] &&
      !t'.inodes[f].isDir
    requires LeadsTo(t', i, path, j)
    ensures LeadsTo(t, i, path, j)
    decreases |path|
  {
    if path != [] {
      var k :| IsEntry(t'.inodes[i].entries, path[0], k) && LeadsTo(t', t'.inodes[i].entries[k].inum, path[1..], j);
      LeadsToSame(t, t', t'.inodes[i].entries[k].inum, path[1..], j, f);
    }
  }

  /** With no entry for its first element, a path leads nowhere. */
  lemma {:induction false} OneStep(t: T, i: nat, path: seq<string>)
    requires InTree(t, i) && path != []
    ensures Absent(t.inodes[i].entries, path[0]) ==> forall j {:trigger LeadsTo(t, i, path, j)} ::
      !LeadsTo(t, i, path, j)
  {
  }

  /** With one, it leads where the rest leads from there. */
  lemma {:induction false} StepTo(t: T, i: nat, path: seq<string>, k: nat)
    requires Shape(t) && InTree(t, i) && path != [] && IsEntry(t.inodes[i].entries, path[0], k)
    ensures forall j {:trigger LeadsTo(t, i, path, j)} ::
      LeadsTo(t, i, path, j) <==> LeadsTo(t, t.inodes[i].entries[k].inum, path[1..], j)
  {
    forall j {:trigger LeadsTo(t, i, path, j)}
      ensures LeadsTo(t, i, path, j) <==> LeadsTo(t, t.inodes[i].entries[k].inum, path[1..], j)
    {
      if LeadsTo(t, i, path, j) {
        var l :| IsEntry(t.inodes[i].entries, path[0], l) && LeadsTo(t, t.inodes[i].entries[l].inum, path[1..], j);
        assert NamesDiffer(t, i, k, l) && NamesDiffer(t, i, l, k);
      }
    }
  }

  // ---------------------------------------------------------------- where paths lead afterwards

  /** Every entry of a directory in the tree t is one of t' too. */
  ghost predicate Within(t: T, t': T) {
    forall d: nat, k: nat {:trigger StillThere(t, t', d, k)} :: StillThere(t, t', d, k)
  }

  ghost predicate StillThere(t: T, t': T, d: nat, k: nat) {
    InTree(t, d) ==>
      && InTree(t', d)
      && (k < |t.inodes[d].entries| && t.inodes[d].entries[k].inum != 0 ==>
            k < |t'.inodes[d].entries| && t'.inodes[d].entries[k] == t.inodes[d].entries[k])
  }

  lemma {:induction false} LeadsStill(t: T, t': T, i: nat, path: seq<string>, j: nat)
    requires Within(t, t') && LeadsTo(t, i, path, j)
    ensures LeadsTo(t', i, path, j)
    decreases |path|
  {
    if path != [] {
      var k :| IsEntry(t.inodes[i].entries, path[0], k) && LeadsTo(t, t.inodes[i].entries[k].inum, path[1..], j);
      assert StillThere(t, t', i, k);
      LeadsStill(t, t', t.inodes[i].entries[k].inum, path[1..], j);
      assert IsEntry(t'.inodes[i].entries, path[0], k);
    }
  }

  /** A path and one element more. */
  lemma {:induction false} LeadsOn(t: T, i: nat, path: seq<string>, d: nat, k: nat)
    requires path != [] && LeadsTo(t, i, path[..|path| - 1], d) && InTree(t, d)
    requires IsEntry(t.inodes[d].entries, path[|path| - 1], k)
    ensures LeadsTo(t, i, path, t.inodes[d].entries[k].inum)
    decreases |path|
  {
    var n := |path| - 1;
    if n == 0 {
      assert path[1..] == [];
      assert LeadsTo(t, t.inodes[d].entries[k].inum, path[1..], t.inodes[d].entries[k].inum);
    } else {
      var init := path[..n];
      var l :| IsEntry(t.inodes[i].entries, init[0], l) && LeadsTo(t, t.inodes[i].entries[l].inum, init[1..], d);
      assert path[1..][..n - 1] == init[1..] && path[1..][n - 1] == path[n];
      LeadsOn(t, t.inodes[i].entries[l].inum, path[1..], d, k);
      assert IsEntry(t.inodes[i].entries, path[0], l);
    }
  }

  /** And back. */
  lemma {:induction false} LeadsBack(t: T, i: nat, path: seq<string>, j: nat) returns (d: nat, k: nat)
    requires path != [] && LeadsTo(t, i, path, j)
    ensures LeadsTo(t, i, path[..|path| - 1], d) && InTree(t, d)
    ensures IsEntry(t.inodes[d].entries, path[|path| - 1], k) && t.inodes[d].entries[k].inum == j
    decreases |path|
  {
    var n := |path| - 1;
    var l: nat :| IsEntry(t.inodes[i].entries, path[0], l) && LeadsTo(t, t.inodes[i].entries[l].inum, path[1..], j);
    if n == 0 {
      d, k := i, l;
    } else {
      d, k := LeadsBack(t, t.inodes[i].entries[l].inum, path[1..], j);
      assert path[1..][..n - 1] == path[..n][1..] && path[1..][n - 1] == path[n];
      assert IsEntry(t.inodes[i].entries, path[..n][0], l);
    }
  }

  /** After link the new name leads to the file, and every path leads where it led. */
  lemma {:induction false} LinkedLeads(t: T, start: nat, from: seq<string>, to: seq<string>, i: nat, d: nat, k: nat)
    requires LinkMade(t, start, from, to, i, d, k) && i != 0
    ensures var t' := FileLinked(t, i, d, k, to[|to| - 1]);
      && LeadsTo(t', start, to, i)
      && forall path, j {:trigger LeadsTo(t', start, path, j)} :: LeadsTo(t, start, path, j) ==>
          LeadsTo(t', start, path, j)
  {
    var t' := FileLinked(t, i, d, k, to[|to| - 1]);
    assert Within(t, t') by {
      forall e: nat, l: nat {:trigger StillThere(t, t', e, l)} ensures StillThere(t, t', e, l) {}
    }
    forall path, j {:trigger LeadsTo(t', start, path, j)} | LeadsTo(t, start, path, j)
      ensures LeadsTo(t', start, path, j)
    {
      LeadsStill(t, t', start, path, j);
    }
    LeadsOn(t', start, to, d, k);
  }

  /** After create the path leads to the new inode, and every path leads where it led. */
  lemma {:induction false} MadeLeads(t: T, start: nat, path: seq<string>, i: nat, d: nat, k: nat, isDir: bool)
    requires PlaceFor(t, start, path, d, k) && d in t.depth && i !in t.inodes && i != 0
    ensures var t' := Made(t, i, d, k, path[|path| - 1], isDir);
      && LeadsTo(t', start, path, i) && i in t'.inodes && t'.inodes[i].isDir == isDir
      && forall p, j {:trigger LeadsTo(t', start, p, j)} :: LeadsTo(t, start, p, j) ==> LeadsTo(t', start, p, j)
  {
    var t' := Made(t, i, d, k, path[|path| - 1], isDir);
    assert Within(t, t') by {
      forall e: nat, l: nat {:trigger StillThere(t, t', e, l)} ensures StillThere(t, t', e, l) {}
    }
    forall p, j {:trigger LeadsTo(t', start, p, j)} | LeadsTo(t, start, p, j) ensures LeadsTo(t', start, p, j) {
      LeadsStill(t, t', start, p, j);
    }
    LeadsOn(t', start, path, d, k);
  }

  /** After unlink the path leads nowhere, and no path leads anywhere it did not lead. */
  lemma {:induction false} UnlinkedLeads(t: T, start: nat, path: seq<string>, i: nat, d: nat, k: nat, held: bool)
    requires Ok(t) && UnlinkMade(t, start, path, i, d, k) && i != d
    ensures var t' := Gone(t, i, d, k, held);
      && (forall j {:trigger LeadsTo(t', start, path, j)} :: !LeadsTo(t', start, path, j))
      && forall p, j {:trigger LeadsTo(t', start, p, j)} :: LeadsTo(t', start, p, j) ==> LeadsTo(t, start, p, j)
  {
    var t' := Gone(t, i, d, k, held);
    assert Within(t', t) by {
      forall e: nat, l: nat {:trigger StillThere(t', t, e, l)} ensures StillThere(t', t, e, l) {}
    }
    forall p, j {:trigger LeadsTo(t', start, p, j)} | LeadsTo(t', start, p, j) ensures LeadsTo(t, start, p, j) {
      LeadsStill(t', t, start, p, j);
    }
    assert d in t'.inodes;
    var entries, name := t'.inodes[d].entries, path[|path| - 1];
    forall l: nat {:trigger IsEntry(entries, name, l)} ensures !IsEntry(entries, name, l) {
      assert NamesDiffer(t, d, k, l) && NamesDiffer(t, d, l, k);
    }
    forall j {:trigger LeadsTo(t', start, path, j)} ensures !LeadsTo(t', start, path, j) {
      if LeadsTo(t', start, path, j) {
        var e, l := LeadsBack(t', start, path, j);
        LeadsStill(t', t, start, path[..|path| - 1], e);
        LeadsToOne(t, start, path[..|path| - 1], d, e);
      }
    }
  }
}
