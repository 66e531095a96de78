/** Unlinking, removing directories and reaping orphans (crates/slatefs-core/src/vfs_impl.rs). */
module Removal {
  import opened Metadata
  import opened Entries
  import opened Namespace

  // ----- unlink -----

  /** A file whose last link went: marked as orphan, and gone unless a handle holds it open. */
  function Bury(v: Volume, ino: nat, held: bool): Volume {
    v.(orphans := v.orphans + {ino}, inodes := if held then v.inodes else v.inodes - {ino})
  }

  predicate CanUnlink(v: Volume, k: DirKey) {
    true == (
      && k in v.dirents && IsDir(v, k.parent)
      && v.dirents[k].child in v.inodes && !IsDir(v, v.dirents[k].child) && v.inodes[v.dirents[k].child].nlink > 0)
  }

  function Unlinked(v: Volume, k: DirKey): Volume
    requires CanUnlink(v, k)
  {
    Relink(DropEntry(v, k, 0), v.dirents[k].child, -1)
  }

  function Unlink(v: Volume, k: DirKey, held: bool): Volume
    requires CanUnlink(v, k)
  {
    var child := v.dirents[k].child;
    if v.inodes[child].nlink == 1 then Bury(Unlinked(v, k), child, held) else Unlinked(v, k)
  }

  lemma NamedCanUnlink(v: Volume, c: Codec, k: DirKey)
    requires EntriesOk(v, c) && LinksExact(v) && k in v.dirents && !IsDir(v, v.dirents[k].child)
    ensures CanUnlink(v, k)
  {
    assert EntryOk(v, c, k) && LinkExact(v, v.dirents[k].child);
    assert k in Naming(v, v.dirents[k].child);
  }

  lemma UnlinkedEntries(v: Volume, c: Codec, k: DirKey)
    requires EntriesOk(v, c) && CanUnlink(v, k)
    ensures EntriesOk(Unlinked(v, k), c)
  {
    var child, v1 := v.dirents[k].child, DropEntry(v, k, 0);
    DropEntryKeeps(v, c, k, 0);
    SetInodeKeeps(v1, c, child, v1.inodes[child].(nlink := v1.inodes[child].nlink - 1));
  }

  lemma UnlinkedCounts(v: Volume, k: DirKey, x: nat)
    requires CanUnlink(v, k)
    ensures |Naming(Unlinked(v, k), x)| == |Naming(v, x)| - (if x == v.dirents[k].child then 1 else 0)
    ensures |ChildDirs(Unlinked(v, k), x)| == |ChildDirs(v, x)|
  {
    var child, v1 := v.dirents[k].child, DropEntry(v, k, 0);
    DropEntryCounts(v, k, 0, x);
    SetInodeCounts(v1, child, v1.inodes[child].(nlink := v1.inodes[child].nlink - 1), x);
  }

  /** Files have no entries in them. */
  lemma NoEntriesInFile(v: Volume, c: Codec, ino: nat)
    requires EntriesOk(v, c) && !IsDir(v, ino)
    ensures EntriesIn(v, ino) == {}
  {
    forall k | k in v.dirents ensures k !in EntriesIn(v, ino) { assert EntryOk(v, c, k); }
  }

  lemma UnlinkEntries(v: Volume, c: Codec, k: DirKey, held: bool)
    requires EntriesOk(v, c) && LinksExact(v) && CanUnlink(v, k)
    ensures EntriesOk(Unlink(v, k, held), c)
  {
    var child, v1 := v.dirents[k].child, Unlinked(v, k);
    UnlinkedEntries(v, c, k);
    if v.inodes[child].nlink == 1 {
      var v2 := Unlink(v, k, held);
      if held {
        EntriesOnly(v1, c, v2);
      } else {
        UnlinkedUnnamed(v, k);
        NoEntriesInFile(v1, c, child);
        DropInodeKeeps(v1, c, child);
        EntriesOnly(DropInode(v1, child), c, v2);
      }
    }
  }

  lemma UnlinkedUnnamed(v: Volume, k: DirKey)
    requires LinksExact(v) && CanUnlink(v, k) && v.inodes[v.dirents[k].child].nlink == 1
    ensures Naming(Unlinked(v, k), v.dirents[k].child) == {}
  {
    UnlinkedCounts(v, k, v.dirents[k].child);
    assert LinkExact(v, v.dirents[k].child);
  }

  lemma UnlinkCounts(v: Volume, k: DirKey, held: bool, x: nat)
    requires CanUnlink(v, k)
    ensures |Naming(Unlink(v, k, held), x)| == |Naming(v, x)| - (if x == v.dirents[k].child then 1 else 0)
    ensures |ChildDirs(Unlink(v, k, held), x)| == |ChildDirs(v, x)|
  {
    UnlinkedCounts(v, k, x);
    SameCounts(Unlinked(v, k), Unlink(v, k, held), x);
  }

  lemma UnlinkLinks(v: Volume, c: Codec, k: DirKey, held: bool)
    requires LinksExact(v) && CanUnlink(v, k)
    ensures LinksExact(Unlink(v, k, held))
  {
    var v' := Unlink(v, k, held);
    forall x | x in v'.inodes ensures LinkExact(v', x) {
      UnlinkCounts(v, k, held, x);
      assert LinkExact(v, x);
    }
  }

  lemma UnlinkShape(c: Codec, v: Volume, k: DirKey, held: bool)
    requires Shape(c, v) && CanUnlink(v, k)
    ensures Shape(c, Unlink(v, k, held))
  {
    UnlinkEntries(v, c, k, held);
    UnlinkLinks(v, c, k, held);
    UnlinkTree(v, k, held);
  }

  lemma UnlinkTree(v: Volume, k: DirKey, held: bool)
    requires Tree(v) && CanUnlink(v, k)
    ensures Tree(Unlink(v, k, held))
  {
    TreeSame(v, Unlink(v, k, held));
  }

  lemma UnlinkOrphans(v: Volume, k: DirKey, held: bool)
    requires OrphansDead(v) && Owned(v) && CanUnlink(v, k)
    ensures OrphansDead(Unlink(v, k, held)) && Owned(Unlink(v, k, held))
  {
  }

  lemma UnlinkHoldings(cs: nat, v: Volume, next: nat, k: DirKey, held: bool)
    requires Holdings(cs, v, next) && CanUnlink(v, k)
    ensures Holdings(cs, Unlink(v, k, held), next)
  {
    UnlinkOrphans(v, k, held);
    UnlinkRoot(v, next, k, held);
    UnlinkBills(v, cs, k, held);
  }

  lemma UnlinkRoot(v: Volume, next: nat, k: DirKey, held: bool)
    requires RootOk(v) && Naming(v, ROOT) == {} && FreshFrom(v, next) && CanUnlink(v, k)
    ensures var v' := Unlink(v, k, held); RootOk(v') && Naming(v', ROOT) == {} && FreshFrom(v', next)
  {
    UnlinkCounts(v, k, held, ROOT);
  }

  lemma UnlinkFiles(v: Volume, k: DirKey, held: bool)
    requires CanUnlink(v, k)
    ensures SameFiles(v, Unlink(v, k, held))
    ensures var child := v.dirents[k].child;
      Unlink(v, k, held).inodes.Keys
      == if v.inodes[child].nlink == 1 && !held then v.inodes.Keys - {child} else v.inodes.Keys
  {
  }

  lemma UnlinkBills(v: Volume, cs: nat, k: DirKey, held: bool)
    requires Bills(v, cs) && CanUnlink(v, k)
    ensures Bills(Unlink(v, k, held), cs)
  {
    UnlinkFiles(v, k, held);
    BillsKept(v, Unlink(v, k, held), cs);
  }

  // ----- rmdir -----

  predicate CanRmdir(v: Volume, k: DirKey) {
    true == (
      && k in v.dirents && IsDir(v, k.parent) && v.inodes[k.parent].nlink > 0
      && IsDir(v, v.dirents[k].child) && v.dirents[k].child != ROOT && v.dirents[k].child != k.parent
      && EntriesIn(v, v.dirents[k].child) == {})
  }

  function Rmdir(v: Volume, k: DirKey): Volume
    requires k in v.dirents && k.parent in v.inodes && v.inodes[k.parent].nlink > 0
  {
    DropInode(DropEntry(v, k, 1), v.dirents[k].child)
  }

  lemma EmptyCanRmdir(v: Volume, c: Codec, k: DirKey)
    requires EntriesOk(v, c) && LinksExact(v) && Naming(v, ROOT) == {}
    requires k in v.dirents && IsDir(v, v.dirents[k].child) && EntriesIn(v, v.dirents[k].child) == {}
    ensures CanRmdir(v, k)
  {
    assert EntryOk(v, c, k) && LinkExact(v, k.parent);
    assert k in EntriesIn(v, k.parent) && k in Naming(v, v.dirents[k].child);
  }

  /** Its one entry gone, the directory is unnamed and empty. */
  lemma RmdirUnnamed(v: Volume, k: DirKey)
    requires LinksExact(v) && CanRmdir(v, k)
    ensures Naming(DropEntry(v, k, 1), v.dirents[k].child) == {}
    ensures EntriesIn(DropEntry(v, k, 1), v.dirents[k].child) == {}
  {
    var child, v1 := v.dirents[k].child, DropEntry(v, k, 1);
    assert LinkExact(v, child);
    DropEntryCounts(v, k, 1, child);
    assert EntriesIn(v1, child) <= EntriesIn(v, child);
  }

  lemma RmdirEntries(v: Volume, c: Codec, k: DirKey)
    requires EntriesOk(v, c) && LinksExact(v) && CanRmdir(v, k)
    ensures EntriesOk(Rmdir(v, k), c)
  {
    DropEntryKeeps(v, c, k, 1);
    RmdirUnnamed(v, k);
    DropInodeKeeps(DropEntry(v, k, 1), c, v.dirents[k].child);
  }

  lemma RmdirCounts(v: Volume, k: DirKey, x: nat)
    requires LinksExact(v) && CanRmdir(v, k)
    ensures |Naming(Rmdir(v, k), x)| == |Naming(v, x)| - (if x == v.dirents[k].child then 1 else 0)
    ensures |ChildDirs(Rmdir(v, k), x)| == |ChildDirs(v, x)| - (if x == k.parent then 1 else 0)
  {
    DropEntryCounts(v, k, 1, x);
    RmdirUnnamed(v, k);
    DropInodeCounts(DropEntry(v, k, 1), v.dirents[k].child, x);
  }

  lemma RmdirLinks(v: Volume, k: DirKey)
    requires LinksExact(v) && CanRmdir(v, k)
    ensures LinksExact(Rmdir(v, k))
  {
    var v' := Rmdir(v, k);
    forall x | x in v'.inodes ensures LinkExact(v', x) {
      RmdirCounts(v, k, x);
      assert LinkExact(v, x);
    }
  }

  lemma RmdirTree(v: Volume, k: DirKey)
    requires Entered(v) && Tree(v) && CanRmdir(v, k)
    ensures Tree(Rmdir(v, k))
  {
    var leaf := v.dirents[k].child;
    forall x | IsDir(v, x) && x != ROOT ensures v.inodes[x].parentDir != leaf {
      var e :| e in v.dirents && e.parent == v.inodes[x].parentDir && v.dirents[e].child == x;
      assert e !in EntriesIn(v, leaf);
    }
    TreeShrinks(v, Rmdir(v, k), leaf);
  }

  lemma RmdirShape(c: Codec, v: Volume, k: DirKey)
    requires Shape(c, v) && CanRmdir(v, k)
    ensures Shape(c, Rmdir(v, k))
  {
    RmdirEntries(v, c, k);
    RmdirLinks(v, k);
    DirsEntered(v, c);
    RmdirTree(v, k);
  }

  lemma RmdirHoldings(cs: nat, v: Volume, next: nat, k: DirKey)
    requires LinksExact(v) && Holdings(cs, v, next) && CanRmdir(v, k)
    ensures Holdings(cs, Rmdir(v, k), next)
  {
    RmdirRoot(v, next, k);
    RmdirBills(v, cs, k);
    RmdirOrphans(v, k);
  }

  lemma RmdirRoot(v: Volume, next: nat, k: DirKey)
    requires LinksExact(v) && RootOk(v) && Naming(v, ROOT) == {} && FreshFrom(v, next) && CanRmdir(v, k)
    ensures RootOk(Rmdir(v, k)) && Naming(Rmdir(v, k), ROOT) == {} && FreshFrom(Rmdir(v, k), next)
  {
    RmdirCounts(v, k, ROOT);
  }

  lemma RmdirOrphans(v: Volume, k: DirKey)
    requires OrphansDead(v) && Owned(v) && CanRmdir(v, k)
    ensures OrphansDead(Rmdir(v, k)) && Owned(Rmdir(v, k))
  {
  }

  lemma RmdirBills(v: Volume, cs: nat, k: DirKey)
    requires Bills(v, cs) && CanRmdir(v, k)
    ensures Bills(Rmdir(v, k), cs)
  {
    BillsKept(v, Rmdir(v, k), cs);
  }

  // ----- orphans -----

  /** Settles an orphan whose inode is still there. */
  lemma FinishShape(c: Codec, v: Volume, ino: nat)
    requires Shape(c, v) && OrphansDead(v) && ino in v.orphans && ino in v.inodes
    ensures Shape(c, DropInode(v, ino))
  {
    var v' := DropInode(v, ino);
    assert LinkExact(v, ino) && Naming(v, ino) == {};
    NoEntriesInFile(v, c, ino);
    DropInodeKeeps(v, c, ino);
    forall x | x in v'.inodes ensures LinkExact(v', x) {
      DropInodeCounts(v, ino, x);
      assert LinkExact(v, x);
    }
    TreeSame(v, v');
  }

  lemma FinishHoldings(cs: nat, v: Volume, next: nat, ino: nat)
    requires Holdings(cs, v, next) && ino in v.orphans
    ensures Holdings(cs, DropInode(v, ino), next)
  {
    var v' := DropInode(v, ino);
    SameNaming(v, v', ROOT);
    BillsKept(v, v', cs);
  }

  lemma SameNaming(v: Volume, v': Volume, x: nat)
    requires v'.dirents == v.dirents
    ensures Naming(v', x) == Naming(v, x)
  {
  }

  /** Deletes the data, the symlink target and the marker of an orphan without an inode. */
  function Reap(v: Volume, ino: nat): Volume {
    v.(chunks := v.chunks - {ino}, symlinks := v.symlinks - {ino}, orphans := v.orphans - {ino})
  }

  lemma ReapShape(c: Codec, v: Volume, ino: nat)
    requires Shape(c, v) && ino !in v.inodes
    ensures Shape(c, Reap(v, ino))
  {
    var v' := Reap(v, ino);
    EntriesOnly(v, c, v');
    forall x | x in v'.inodes ensures LinkExact(v', x) {
      SameCounts(v, v', x);
      assert LinkExact(v, x);
    }
    TreeSame(v, v');
  }

  lemma ReapHoldings(cs: nat, v: Volume, next: nat, ino: nat)
    requires Holdings(cs, v, next) && ino !in v.inodes
    ensures Holdings(cs, Reap(v, ino), next)
  {
    var v' := Reap(v, ino);
    SameNaming(v, v', ROOT);
    forall x | x in v'.inodes ensures FileOk(v', cs, x) { assert FileOk(v, cs, x); }
  }
}
