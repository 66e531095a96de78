/** Directory operations as changes of the volume (crates/slatefs-core/src/vfs_impl.rs) and the invariant they
    keep, which is what makes every check of the volume come out clean. */
module Namespace {
  import opened Common
  import opened Chunks
  import opened Metadata
  import opened FsckSound
  import opened Entries
  import Fsck
  import Sums

  const FIRST_DIRENT_ID: nat := 3

  /** The volume with its allocator mark and its persistent usage counters. */
  datatype Fs = Fs(v: Volume, nextIno: nat, counterInodes: int, counterBytes: int)

  // ----- invariant -----

  /** Link counts are exact; only marked orphans have none. */
  ghost predicate LinkExact(v: Volume, ino: nat)
    requires ino in v.inodes
  {
    var i := v.inodes[ino];
    if i.kind.Dir? then (ino != ROOT ==> |Naming(v, ino)| == 1) && i.nlink == 2 + |ChildDirs(v, ino)|
    else i.nlink == |Naming(v, ino)| && (i.nlink == 0 ==> ino in v.orphans) && (i.kind.Symlink? ==> ino in v.symlinks)
  }

  ghost predicate LinksExact(v: Volume) {
    forall ino {:trigger LinkExact(v, ino)} :: ino in v.inodes ==> LinkExact(v, ino)
  }

  /** An orphan marker is only ever on an inode that has no links left, or on none. */
  ghost predicate OrphansDead(v: Volume) {
    forall o :: o in v.orphans && o in v.inodes ==> v.inodes[o].nlink == 0 && !v.inodes[o].kind.Dir?
  }

  /** Chunks belong to a file or to an orphan. */
  ghost predicate Owned(v: Volume) {
    forall ino :: ino in v.chunks ==> ino in v.orphans || (ino in v.inodes && !IsDir(v, ino))
  }

  /** The bill is exact, and chunks below the end of file stop there. */
  ghost predicate FileOk(v: Volume, cs: nat, ino: nat)
    requires ino in v.inodes
  {
    true == (BillOk(v, cs, ino) && Tidy(v.inodes[ino].size, cs, ChunksOf(v, ino)))
  }

  ghost predicate Bills(v: Volume, cs: nat) {
    forall ino {:trigger FileOk(v, cs, ino)} :: ino in v.inodes ==> FileOk(v, cs, ino)
  }

  /** Inode numbers from `next` on are unused. */
  ghost predicate FreshFrom(v: Volume, next: nat) {
    && ROOT < next
    && (forall ino :: ino in v.inodes ==> ino < next)
    && (forall ino :: ino in v.chunks ==> ino < next)
    && (forall ino :: ino in v.orphans ==> ino < next)
  }

  ghost function BilledBy(v: Volume): map<nat, int> { map ino | ino in v.inodes :: v.inodes[ino].billedBytes }

  ghost predicate Counted(fs: Fs) {
    fs.counterInodes == |fs.v.inodes| && fs.counterBytes == Sums.Sum(BilledBy(fs.v))
  }

  /** Entries, link counts and the tree. */
  ghost predicate Shape(c: Codec, v: Volume) { true == (EntriesOk(v, c) && LinksExact(v) && Tree(v)) }

  /** The root, the orphans, the files' content and the allocator. */
  ghost predicate Holdings(cs: nat, v: Volume, next: nat) {
    true == (
      RootOk(v) && Naming(v, ROOT) == {} && OrphansDead(v) && Owned(v) && Bills(v, cs) && FreshFrom(v, next))
  }

  ghost predicate Inv(c: Codec, cs: nat, fs: Fs) { Shape(c, fs.v) && Holdings(cs, fs.v, fs.nextIno) && Counted(fs) }

  // ----- the invariant makes the volume clean -----

  /** The entry of a directory is in its parent. */
  lemma DirEntry(v: Volume, c: Codec, d: nat) returns (k: DirKey)
    requires EntriesOk(v, c) && LinksExact(v) && IsDir(v, d) && d != ROOT
    ensures k in v.dirents && v.dirents[k].child == d && k.parent == v.inodes[d].parentDir && IsDir(v, k.parent)
  {
    assert LinkExact(v, d);
    k := OnlyElement(Naming(v, d));
    assert k in Naming(v, d) && EntryOk(v, c, k);
  }

  lemma RootReachable(v: Volume)
    ensures Reachable(v, ROOT)
  {
    assert IsPath(v, [ROOT]);
  }

  /** Each directory is entered in its parent, which is a directory. */
  ghost predicate Entered(v: Volume) {
    forall d :: IsDir(v, d) && d != ROOT ==> Edge(v, v.inodes[d].parentDir, d) && IsDir(v, v.inodes[d].parentDir)
  }

  lemma DirsEntered(v: Volume, c: Codec)
    requires EntriesOk(v, c) && LinksExact(v)
    ensures Entered(v)
  {
    forall d | IsDir(v, d) && d != ROOT
      ensures Edge(v, v.inodes[d].parentDir, d) && IsDir(v, v.inodes[d].parentDir)
    {
      var k := DirEntry(v, c, d);
    }
  }

  lemma {:induction false} RootedReachable(v: Volume, d: nat, n: nat)
    requires Entered(v) && Rooted(v, d, n)
    ensures Reachable(v, d)
    decreases n
  {
    if n == 0 {
      RootReachable(v);
    } else {
      var parent := v.inodes[d].parentDir;
      RootedReachable(v, parent, n - 1);
      Fsck.ExtendPath(v, parent, d);
    }
  }

  lemma NamedReachable(v: Volume, k: DirKey)
    requires Entered(v) && Tree(v) && k in v.dirents && IsDir(v, k.parent)
    ensures Reachable(v, v.dirents[k].child)
  {
    var n: nat :| Rooted(v, k.parent, n);
    RootedReachable(v, k.parent, n);
    Fsck.ExtendPath(v, k.parent, v.dirents[k].child);
  }

  lemma ShapeReachOk(c: Codec, v: Volume)
    requires Shape(c, v)
    ensures ReachOk(v)
  {
    DirsEntered(v, c);
    forall ino | ino in v.inodes ensures Reachable(v, ino) || LegitOrphan(v, ino) {
      assert LinkExact(v, ino);
      if ino == ROOT {
        RootReachable(v);
      } else if Naming(v, ino) != {} {
        var k :| k in Naming(v, ino);
        assert EntryOk(v, c, k);
        NamedReachable(v, k);
      }
    }
  }

  lemma EntriesDirentsOk(c: Codec, v: Volume)
    requires GoodCodec(c) && EntriesOk(v, c)
    ensures DirentsOk(v, c.open)
  {
    forall k | k in v.dirents ensures DirentOk(v, c.open, k) {
      assert EntryOk(v, c, k);
      assert c.open(k.parent, c.seal(k.parent, v.dirents[k].name)) == Some(v.dirents[k].name);
    }
  }

  lemma ExactLinksOk(v: Volume, cs: nat)
    requires LinksExact(v) && Naming(v, ROOT) == {} && Bills(v, cs)
    ensures InodesOk(v, cs)
  {
    forall ino | ino in v.inodes ensures LinksOk(v, ino) && BillOk(v, cs, ino) {
      assert LinkExact(v, ino) && FileOk(v, cs, ino);
    }
  }

  lemma BillsRecount(v: Volume, cs: nat)
    requires Bills(v, cs)
    ensures BilledBy(v) == Fsck.Recount(v, cs, v.inodes.Keys)
  {
    forall ino | ino in v.inodes ensures BilledBy(v)[ino] == Fsck.Recount(v, cs, v.inodes.Keys)[ino] {
      assert FileOk(v, cs, ino);
    }
  }

  /** A volume that satisfies the invariant is clean to the checker, counters included. */
  lemma InvClean(c: Codec, cs: nat, fs: Fs)
    requires GoodCodec(c) && Inv(c, cs, fs)
    ensures Clean(fs.v, cs, c.open)
    ensures fs.counterInodes == |fs.v.inodes|
    ensures fs.counterBytes == Sums.Sum(Fsck.Recount(fs.v, cs, fs.v.inodes.Keys))
  {
    ShapeReachOk(c, fs.v);
    EntriesDirentsOk(c, fs.v);
    ExactLinksOk(fs.v, cs);
    BillsRecount(fs.v, cs);
  }

  // ----- inode updates -----

  function Relink(v: Volume, ino: nat, delta: int): Volume
    requires ino in v.inodes && v.inodes[ino].nlink + delta >= 0
  {
    SetInode(v, ino, v.inodes[ino].(nlink := v.inodes[ino].nlink + delta))
  }

  /** Nothing but link counts, dirent ids and parents of surviving inodes has changed. */
  ghost predicate SameFiles(v: Volume, v': Volume) {
    && v'.chunks == v.chunks
    && forall ino :: ino in v'.inodes && ino in v.inodes ==> SameFile(v.inodes[ino], v'.inodes[ino])
  }

  predicate SameFile(i: Inode, i': Inode) {
    true == (i'.kind == i.kind && i'.size == i.size && i'.billedBytes == i.billedBytes)
  }

  lemma BillsKept(v: Volume, v': Volume, cs: nat)
    requires Bills(v, cs) && SameFiles(v, v')
    requires forall ino :: ino in v'.inodes && ino !in v.inodes ==> FileOk(v', cs, ino)
    ensures Bills(v', cs)
  {
    forall ino | ino in v'.inodes ensures FileOk(v', cs, ino) {
      if ino in v.inodes { assert FileOk(v, cs, ino); }
    }
  }

  // ----- creating -----

  function AddInode(v: Volume, ino: nat, i: Inode): Volume {
    v.(inodes := v.inodes[ino := i], symlinks := if i.kind.Symlink? then v.symlinks + {ino} else v.symlinks)
  }

  function DirLink(kind: Kind): nat { if kind.Dir? then 1 else 0 }

  /** create, mkdir, mknod and symlink share this batch. */
  function Insert(v: Volume, c: Codec, parent: nat, name: Name, child: nat, i: Inode): Volume
    requires parent in v.inodes
  {
    AddEntry(AddInode(v, child, i), c, parent, name, child, DirLink(i.kind))
  }

  ghost predicate NewInode(v: Volume, c: Codec, parent: nat, name: Name, child: nat, i: Inode) {
    true == (
      && IsDir(v, parent) && KeyOf(c, parent, name) !in v.dirents
      && child !in v.inodes && child !in v.chunks && child !in v.orphans && child != ROOT
      && i.nlink == (if i.kind.Dir? then 2 else 1) && i.billedBytes == 0
      && (i.kind.Dir? ==> i.parentDir == parent))
  }

  /** Nothing is entered under a number that is not an inode. */
  lemma UnusedUnnamed(v: Volume, c: Codec, ino: nat)
    requires EntriesOk(v, c) && ino !in v.inodes
    ensures Naming(v, ino) == {} && EntriesIn(v, ino) == {}
  {
    forall k | k in v.dirents ensures k !in Naming(v, ino) && k !in EntriesIn(v, ino) { assert EntryOk(v, c, k); }
  }

  lemma AddInodeKeeps(v: Volume, c: Codec, ino: nat, i: Inode)
    requires EntriesOk(v, c) && ino !in v.inodes
    ensures EntriesOk(AddInode(v, ino, i), c)
  {
    var v' := AddInode(v, ino, i);
    UnusedUnnamed(v, c, ino);
    forall k | k in v'.dirents ensures EntryOk(v', c, k) {
      assert EntryOk(v, c, k);
      assert k !in Naming(v, ino) && k !in EntriesIn(v, ino);
    }
    forall x | x in v'.idx ensures IdxOk(v', x) {
      assert IdxOk(v, x);
      var e :| e in v.dirents && e.parent == x.parent && v.dirents[e].id == x.id;
      assert e in v'.dirents;
    }
  }

  lemma InsertEntries(v: Volume, c: Codec, parent: nat, name: Name, child: nat, i: Inode)
    requires EntriesOk(v, c) && NewInode(v, c, parent, name, child, i)
    ensures EntriesOk(Insert(v, c, parent, name, child, i), c)
  {
    AddInodeKeeps(v, c, child, i);
    AddEntryKeeps(AddInode(v, child, i), c, parent, name, child, DirLink(i.kind));
  }

  lemma InsertCounts(v: Volume, c: Codec, parent: nat, name: Name, child: nat, i: Inode, x: nat)
    requires EntriesOk(v, c) && NewInode(v, c, parent, name, child, i)
    ensures |Naming(Insert(v, c, parent, name, child, i), x)| == |Naming(v, x)| + (if x == child then 1 else 0)
    ensures |ChildDirs(Insert(v, c, parent, name, child, i), x)|
         == |ChildDirs(v, x)| + (if x == parent && i.kind.Dir? then 1 else 0)
  {
    UnusedUnnamed(v, c, child);
    SetInodeCounts(v, child, i, x);
    var v1 := AddInode(v, child, i);
    SameCounts(SetInode(v, child, i), v1, x);
    AddEntryNaming(v1, c, parent, name, child, DirLink(i.kind), x);
    AddEntryChildDirs(v1, c, parent, name, child, DirLink(i.kind), x);
  }

  lemma SameCounts(v: Volume, v': Volume, x: nat)
    requires v'.dirents == v.dirents && forall y :: IsDir(v', y) <==> IsDir(v, y)
    ensures Naming(v', x) == Naming(v, x) && ChildDirs(v', x) == ChildDirs(v, x)
  {
  }

  lemma InsertLinks(v: Volume, c: Codec, parent: nat, name: Name, child: nat, i: Inode)
    requires EntriesOk(v, c) && LinksExact(v) && NewInode(v, c, parent, name, child, i)
    ensures LinksExact(Insert(v, c, parent, name, child, i))
  {
    var v' := Insert(v, c, parent, name, child, i);
    UnusedUnnamed(v, c, child);
    NoChildDirs(v, child);
    forall x | x in v'.inodes ensures LinkExact(v', x) {
      InsertCounts(v, c, parent, name, child, i, x);
      if x in v.inodes { assert LinkExact(v, x); }
    }
  }

  lemma NoChildDirs(v: Volume, ino: nat)
    requires EntriesIn(v, ino) == {}
    ensures ChildDirs(v, ino) == {}
  {
    assert ChildDirs(v, ino) <= EntriesIn(v, ino);
  }

  lemma InsertTree(v: Volume, c: Codec, parent: nat, name: Name, child: nat, i: Inode)
    requires Tree(v) && NewInode(v, c, parent, name, child, i)
    ensures Tree(Insert(v, c, parent, name, child, i))
  {
    var v' := Insert(v, c, parent, name, child, i);
    if i.kind.Dir? {
      TreeGrows(v, v', child);
    } else {
      TreeSame(v, v');
    }
  }

  lemma InsertShape(c: Codec, v: Volume, parent: nat, name: Name, child: nat, i: Inode)
    requires Shape(c, v) && NewInode(v, c, parent, name, child, i)
    ensures Shape(c, Insert(v, c, parent, name, child, i))
  {
    InsertEntries(v, c, parent, name, child, i);
    InsertLinks(v, c, parent, name, child, i);
    InsertTree(v, c, parent, name, child, i);
  }

  lemma InsertHoldings(c: Codec, cs: nat, v: Volume, next: nat, parent: nat, name: Name, i: Inode)
    requires cs > 0 && EntriesOk(v, c) && Holdings(cs, v, next) && NewInode(v, c, parent, name, next, i)
    ensures Holdings(cs, Insert(v, c, parent, name, next, i), next + 1)
  {
    InsertRoot(c, v, parent, name, next, i);
    InsertOwners(c, v, parent, name, next, i);
    InsertBills(c, cs, v, parent, name, next, i);
  }

  lemma InsertRoot(c: Codec, v: Volume, parent: nat, name: Name, child: nat, i: Inode)
    requires EntriesOk(v, c) && RootOk(v) && Naming(v, ROOT) == {} && NewInode(v, c, parent, name, child, i)
    ensures var v' := Insert(v, c, parent, name, child, i); RootOk(v') && Naming(v', ROOT) == {}
  {
    InsertCounts(v, c, parent, name, child, i, ROOT);
  }

  lemma InsertOwners(c: Codec, v: Volume, parent: nat, name: Name, next: nat, i: Inode)
    requires OrphansDead(v) && Owned(v) && FreshFrom(v, next) && NewInode(v, c, parent, name, next, i)
    ensures var v' := Insert(v, c, parent, name, next, i); OrphansDead(v') && Owned(v') && FreshFrom(v', next + 1)
  {
  }

  lemma InsertBills(c: Codec, cs: nat, v: Volume, parent: nat, name: Name, child: nat, i: Inode)
    requires cs > 0 && Bills(v, cs) && NewInode(v, c, parent, name, child, i)
    ensures Bills(Insert(v, c, parent, name, child, i), cs)
  {
    var v' := Insert(v, c, parent, name, child, i);
    assert FileOk(v', cs, child) by { EmptyTotal(i.size, cs, i.size); }
    BillsKept(v, v', cs);
  }
}
