/** Hard links and renames (crates/slatefs-core/src/vfs_impl.rs, `link` and `rename`). */
module Moving {
  import opened Metadata
  import opened FsckSound
  import opened Entries
  import opened Namespace

  // ----- link -----

  predicate CanLink(v: Volume, c: Codec, ino: nat, parent: nat, name: Name) {
    true == (ino in v.inodes && !IsDir(v, ino) && IsDir(v, parent) && KeyOf(c, parent, name) !in v.dirents)
  }

  function Link(v: Volume, c: Codec, ino: nat, parent: nat, name: Name): Volume
    requires CanLink(v, c, ino, parent, name)
  {
    Relink(AddEntry(v, c, parent, name, ino, 0), ino, 1)
  }

  lemma LinkEntries(v: Volume, c: Codec, ino: nat, parent: nat, name: Name)
    requires EntriesOk(v, c) && CanLink(v, c, ino, parent, name)
    ensures EntriesOk(Link(v, c, ino, parent, name), c)
  {
    AddEntryKeeps(v, c, parent, name, ino, 0);
    RelinkKeeps(AddEntry(v, c, parent, name, ino, 0), c, ino, 1);
  }

  lemma RelinkKeeps(v: Volume, c: Codec, ino: nat, delta: int)
    requires EntriesOk(v, c) && ino in v.inodes && v.inodes[ino].nlink + delta >= 0
    ensures EntriesOk(Relink(v, ino, delta), c)
  {
    var v' := Relink(v, ino, delta);
    forall e | e in v'.dirents ensures EntryOk(v', c, e) { assert EntryOk(v, c, e); }
    forall x | x in v'.idx ensures IdxOk(v', x) {
      assert IdxOk(v, x);
      var e :| e in v.dirents && e.parent == x.parent && v.dirents[e].id == x.id;
      assert e in v'.dirents;
    }
  }

  lemma LinkCounts(v: Volume, c: Codec, ino: nat, parent: nat, name: Name, x: nat)
    requires CanLink(v, c, ino, parent, name)
    ensures |Naming(Link(v, c, ino, parent, name), x)| == |Naming(v, x)| + (if x == ino then 1 else 0)
    ensures |ChildDirs(Link(v, c, ino, parent, name), x)| == |ChildDirs(v, x)|
  {
    var v1 := AddEntry(v, c, parent, name, ino, 0);
    AddEntryNaming(v, c, parent, name, ino, 0, x);
    AddEntryChildDirs(v, c, parent, name, ino, 0, x);
    SetInodeCounts(v1, ino, v1.inodes[ino].(nlink := v1.inodes[ino].nlink + 1), x);
  }

  lemma LinkLinks(v: Volume, c: Codec, ino: nat, parent: nat, name: Name)
    requires LinksExact(v) && CanLink(v, c, ino, parent, name)
    ensures LinksExact(Link(v, c, ino, parent, name))
  {
    var v' := Link(v, c, ino, parent, name);
    forall x | x in v'.inodes ensures LinkExact(v', x) {
      LinkCounts(v, c, ino, parent, name, x);
      assert LinkExact(v, x);
    }
  }

  lemma LinkTree(v: Volume, c: Codec, ino: nat, parent: nat, name: Name)
    requires Tree(v) && CanLink(v, c, ino, parent, name)
    ensures Tree(Link(v, c, ino, parent, name))
  {
    TreeSame(v, Link(v, c, ino, parent, name));
  }

  lemma LinkShape(c: Codec, v: Volume, ino: nat, parent: nat, name: Name)
    requires Shape(c, v) && CanLink(v, c, ino, parent, name)
    ensures Shape(c, Link(v, c, ino, parent, name))
  {
    LinkEntries(v, c, ino, parent, name);
    LinkLinks(v, c, ino, parent, name);
    LinkTree(v, c, ino, parent, name);
  }

  lemma LinkBills(cs: nat, v: Volume, c: Codec, ino: nat, parent: nat, name: Name)
    requires Bills(v, cs) && CanLink(v, c, ino, parent, name)
    ensures Bills(Link(v, c, ino, parent, name), cs)
  {
    BillsKept(v, Link(v, c, ino, parent, name), cs);
  }

  lemma LinkRoot(v: Volume, next: nat, c: Codec, ino: nat, parent: nat, name: Name)
    requires RootOk(v) && Naming(v, ROOT) == {} && FreshFrom(v, next) && CanLink(v, c, ino, parent, name)
    ensures var v' := Link(v, c, ino, parent, name); RootOk(v') && Naming(v', ROOT) == {} && FreshFrom(v', next)
  {
    LinkCounts(v, c, ino, parent, name, ROOT);
  }

  /** Linking keeps the orphan markers truthful exactly when the linked inode still has a link. */
  lemma LinkOrphansIff(v: Volume, c: Codec, ino: nat, parent: nat, name: Name)
    requires LinksExact(v) && OrphansDead(v) && Owned(v) && CanLink(v, c, ino, parent, name)
    ensures Owned(Link(v, c, ino, parent, name))
    ensures OrphansDead(Link(v, c, ino, parent, name)) <==> v.inodes[ino].nlink > 0
  {
    var v' := Link(v, c, ino, parent, name);
    assert LinkExact(v, ino);
    if v.inodes[ino].nlink == 0 { assert ino in v'.orphans && v'.inodes[ino].nlink == 1; }
  }

  lemma LinkHoldingsIff(c: Codec, cs: nat, v: Volume, next: nat, ino: nat, parent: nat, name: Name)
    requires LinksExact(v) && Holdings(cs, v, next) && CanLink(v, c, ino, parent, name)
    ensures Holdings(cs, Link(v, c, ino, parent, name), next) <==> v.inodes[ino].nlink > 0
  {
    LinkBills(cs, v, c, ino, parent, name);
    LinkRoot(v, next, c, ino, parent, name);
    LinkOrphansIff(v, c, ino, parent, name);
  }

  // ----- moving an entry to a free name -----

  /** Whether moving entry `k` into `parent` changes a directory's parent. */
  predicate Reparents(v: Volume, k: DirKey, parent: nat)
    requires k in v.dirents
  {
    IsDir(v, v.dirents[k].child) && k.parent != parent
  }

  predicate CanMove(v: Volume, c: Codec, k: DirKey, parent: nat, name: Name) {
    true == (
      && k in v.dirents && IsDir(v, k.parent) && v.inodes[k.parent].nlink > 0 && v.dirents[k].child in v.inodes
      && v.dirents[k].child != ROOT && v.dirents[k].child != k.parent
      && IsDir(v, parent) && v.dirents[k].child != parent && KeyOf(c, parent, name) !in v.dirents)
  }

  function Moved(v: Volume, k: DirKey): nat
    requires k in v.dirents
  {
    v.dirents[k].child
  }

  function SetParent(v: Volume, ino: nat, parent: nat): Volume
    requires ino in v.inodes
  {
    SetInode(v, ino, v.inodes[ino].(parentDir := parent))
  }

  /** The entry leaves its directory and, if it names a directory, takes its link along. */
  function Detach(v: Volume, k: DirKey, parent: nat): Volume
    requires k in v.dirents && k.parent in v.inodes && v.inodes[k.parent].nlink > 0 && v.dirents[k].child in v.inodes
  {
    if Reparents(v, k, parent) then SetParent(DropEntry(v, k, 1), Moved(v, k), parent) else DropEntry(v, k, 0)
  }

  function Move(v: Volume, c: Codec, k: DirKey, parent: nat, name: Name): Volume
    requires CanMove(v, c, k, parent, name)
  {
    AddEntry(Detach(v, k, parent), c, parent, name, Moved(v, k), if Reparents(v, k, parent) then 1 else 0)
  }

  lemma DetachEntries(v: Volume, c: Codec, k: DirKey, parent: nat, name: Name)
    requires EntriesOk(v, c) && LinksExact(v) && CanMove(v, c, k, parent, name)
    ensures EntriesOk(Detach(v, k, parent), c)
  {
    var child := Moved(v, k);
    if Reparents(v, k, parent) {
      var v1 := DropEntry(v, k, 1);
      DropEntryKeeps(v, c, k, 1);
      assert LinkExact(v, child);
      DropEntryCounts(v, k, 1, child);
      SetInodeKeeps(v1, c, child, v1.inodes[child].(parentDir := parent));
    } else {
      DropEntryKeeps(v, c, k, 0);
    }
  }

  /** The detached inode can be entered in its new directory. */
  lemma DetachReady(v: Volume, c: Codec, k: DirKey, parent: nat, name: Name)
    requires EntriesOk(v, c) && CanMove(v, c, k, parent, name)
    ensures var v1 := Detach(v, k, parent);
      && IsDir(v1, parent) && Moved(v, k) in v1.inodes && KeyOf(c, parent, name) !in v1.dirents
      && (IsDir(v1, Moved(v, k)) ==> v1.inodes[Moved(v, k)].parentDir == parent)
  {
    assert EntryOk(v, c, k);
  }

  lemma MoveEntries(v: Volume, c: Codec, k: DirKey, parent: nat, name: Name)
    requires EntriesOk(v, c) && LinksExact(v) && CanMove(v, c, k, parent, name)
    ensures EntriesOk(Move(v, c, k, parent, name), c)
  {
    DetachEntries(v, c, k, parent, name);
    DetachReady(v, c, k, parent, name);
    AddEntryKeeps(Detach(v, k, parent), c, parent, name, Moved(v, k), if Reparents(v, k, parent) then 1 else 0);
  }

  lemma DetachCounts(v: Volume, c: Codec, k: DirKey, parent: nat, name: Name, x: nat)
    requires CanMove(v, c, k, parent, name)
    ensures |Naming(Detach(v, k, parent), x)| == |Naming(v, x)| - (if x == Moved(v, k) then 1 else 0)
    ensures |ChildDirs(Detach(v, k, parent), x)|
         == |ChildDirs(v, x)| - (if x == k.parent && IsDir(v, Moved(v, k)) then 1 else 0)
  {
    var child := Moved(v, k);
    if Reparents(v, k, parent) {
      var v1 := DropEntry(v, k, 1);
      DropEntryCounts(v, k, 1, x);
      SetInodeCounts(v1, child, v1.inodes[child].(parentDir := parent), x);
    } else {
      DropEntryCounts(v, k, 0, x);
    }
  }

  lemma MoveCounts(v: Volume, c: Codec, k: DirKey, parent: nat, name: Name, x: nat)
    requires CanMove(v, c, k, parent, name)
    ensures |Naming(Move(v, c, k, parent, name), x)| == |Naming(v, x)|
    ensures |ChildDirs(Move(v, c, k, parent, name), x)|
         == |ChildDirs(v, x)| + (if IsDir(v, Moved(v, k)) then
              (if x == parent then 1 else 0) - (if x == k.parent then 1 else 0) else 0)
  {
    var v1, links := Detach(v, k, parent), if Reparents(v, k, parent) then 1 else 0;
    DetachCounts(v, c, k, parent, name, x);
    AddEntryNaming(v1, c, parent, name, Moved(v, k), links, x);
    AddEntryChildDirs(v1, c, parent, name, Moved(v, k), links, x);
  }

  lemma MoveLink(v: Volume, c: Codec, k: DirKey, parent: nat, name: Name, x: nat)
    requires CanMove(v, c, k, parent, name) && x in v.inodes && LinkExact(v, x)
    ensures LinkExact(Move(v, c, k, parent, name), x)
  {
    MoveCounts(v, c, k, parent, name, x);
  }

  lemma MoveLinks(v: Volume, c: Codec, k: DirKey, parent: nat, name: Name)
    requires LinksExact(v) && CanMove(v, c, k, parent, name)
    ensures LinksExact(Move(v, c, k, parent, name))
  {
    var v' := Move(v, c, k, parent, name);
    forall x | x in v'.inodes ensures LinkExact(v', x) {
      MoveLink(v, c, k, parent, name, x);
    }
  }

  /** A directory may only move under one whose chain to the root avoids it. */
  ghost predicate NotBelow(v: Volume, k: DirKey, parent: nat, up: nat)
    requires k in v.dirents
  {
    Reparents(v, k, parent) ==> Rooted(v, parent, up) && Avoids(v, parent, up, Moved(v, k))
  }

  lemma MoveTree(v: Volume, c: Codec, k: DirKey, parent: nat, name: Name, up: nat)
    requires Tree(v) && CanMove(v, c, k, parent, name) && NotBelow(v, k, parent, up)
    ensures Tree(Move(v, c, k, parent, name))
  {
    var v' := Move(v, c, k, parent, name);
    if Reparents(v, k, parent) {
      TreeMoves(v, v', Moved(v, k), parent, up);
    } else {
      TreeSame(v, v');
    }
  }

  lemma MoveShape(c: Codec, v: Volume, k: DirKey, parent: nat, name: Name, up: nat)
    requires Shape(c, v) && CanMove(v, c, k, parent, name) && NotBelow(v, k, parent, up)
    ensures Shape(c, Move(v, c, k, parent, name))
  {
    MoveEntries(v, c, k, parent, name);
    MoveLinks(v, c, k, parent, name);
    MoveTree(v, c, k, parent, name, up);
  }

  lemma MoveBills(cs: nat, v: Volume, c: Codec, k: DirKey, parent: nat, name: Name)
    requires Bills(v, cs) && CanMove(v, c, k, parent, name)
    ensures Bills(Move(v, c, k, parent, name), cs)
  {
    MoveFiles(v, c, k, parent, name);
    BillsKept(v, Move(v, c, k, parent, name), cs);
  }

  lemma MoveFiles(v: Volume, c: Codec, k: DirKey, parent: nat, name: Name)
    requires CanMove(v, c, k, parent, name)
    ensures var v' := Move(v, c, k, parent, name); SameFiles(v, v') && v'.inodes.Keys == v.inodes.Keys
  {
  }

  lemma MoveRoot(v: Volume, next: nat, c: Codec, k: DirKey, parent: nat, name: Name)
    requires RootOk(v) && Naming(v, ROOT) == {} && FreshFrom(v, next) && CanMove(v, c, k, parent, name)
    ensures var v' := Move(v, c, k, parent, name); RootOk(v') && Naming(v', ROOT) == {} && FreshFrom(v', next)
  {
    MoveCounts(v, c, k, parent, name, ROOT);
  }

  lemma MoveOrphans(v: Volume, c: Codec, k: DirKey, parent: nat, name: Name)
    requires OrphansDead(v) && Owned(v) && CanMove(v, c, k, parent, name)
    ensures OrphansDead(Move(v, c, k, parent, name)) && Owned(Move(v, c, k, parent, name))
  {
  }

  lemma MoveHoldings(c: Codec, cs: nat, v: Volume, next: nat, k: DirKey, parent: nat, name: Name)
    requires Holdings(cs, v, next) && CanMove(v, c, k, parent, name)
    ensures Holdings(cs, Move(v, c, k, parent, name), next)
  {
    MoveBills(cs, v, c, k, parent, name);
    MoveRoot(v, next, c, k, parent, name);
    MoveOrphans(v, c, k, parent, name);
  }
}
