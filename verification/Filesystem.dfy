/** The directory operations of a mounted volume (crates/slatefs-core/src/vfs_impl.rs): each commits one atomic
    batch, and each keeps the volume clean to the checker, `link` with one exception. */
module Filesystem {
  import opened Chunks
  import opened Metadata
  import opened FsckSound
  import opened Entries
  import opened Namespace
  import opened Removal
  import opened Moving
  import Sums

  datatype Error =
    | Stale | NotDir | IsDirectory | Exists | NotFound | NotEmpty | NotPermitted | Invalid | BadHandle
    | QuotaExceeded | FileTooBig | Io

  // ----- counters -----

  lemma CountSame(v: Volume, v': Volume)
    requires v'.inodes.Keys == v.inodes.Keys && SameFiles(v, v')
    ensures |v'.inodes| == |v.inodes| && BilledBy(v') == BilledBy(v)
  {
    assert |v'.inodes| == |v'.inodes.Keys| && |v.inodes| == |v.inodes.Keys|;
  }

  lemma CountAdd(v: Volume, v': Volume, ino: nat)
    requires ino !in v.inodes && v'.inodes.Keys == v.inodes.Keys + {ino} && SameFiles(v, v')
    requires v'.inodes[ino].billedBytes == 0
    ensures |v'.inodes| == |v.inodes| + 1 && Sums.Sum(BilledBy(v')) == Sums.Sum(BilledBy(v))
  {
    assert |v'.inodes| == |v'.inodes.Keys| && |v.inodes| == |v.inodes.Keys|;
    AddBills(v, v', ino);
    AddSum(BilledBy(v), ino, BilledBy(v'));
  }

  lemma AddBills(v: Volume, v': Volume, ino: nat)
    requires ino !in v.inodes && v'.inodes.Keys == v.inodes.Keys + {ino} && SameFiles(v, v')
    requires v'.inodes[ino].billedBytes == 0
    ensures ino !in BilledBy(v) && BilledBy(v') == BilledBy(v)[ino := 0]
  {
  }

  lemma AddSum(m: map<nat, int>, ino: nat, m': map<nat, int>)
    requires ino !in m && m' == m[ino := 0]
    ensures Sums.Sum(m') == Sums.Sum(m)
  {
    Sums.SumPut(m, ino, 0);
  }

  lemma CountDrop(v: Volume, v': Volume, ino: nat)
    requires ino in v.inodes && v'.inodes.Keys == v.inodes.Keys - {ino} && SameFiles(v, v')
    ensures |v'.inodes| == |v.inodes| - 1
    ensures Sums.Sum(BilledBy(v')) == Sums.Sum(BilledBy(v)) - v.inodes[ino].billedBytes
  {
    assert |v'.inodes| == |v'.inodes.Keys| && |v.inodes| == |v.inodes.Keys|;
    DropBills(v, v', ino);
    DropSum(BilledBy(v), ino, BilledBy(v'));
  }

  lemma DropBills(v: Volume, v': Volume, ino: nat)
    requires ino in v.inodes && v'.inodes.Keys == v.inodes.Keys - {ino} && SameFiles(v, v')
    ensures ino in BilledBy(v) && BilledBy(v') == BilledBy(v) - {ino}
  {
  }

  lemma DropSum(m: map<nat, int>, ino: nat, m': map<nat, int>)
    requires ino in m && m' == m - {ino}
    ensures Sums.Sum(m') == Sums.Sum(m) - m[ino]
  {
    Sums.SumDelete(m, ino);
  }

  /** Directories own no chunks, so nothing is billed to them. */
  lemma DirBilledNothing(cs: nat, v: Volume, d: nat)
    requires Bills(v, cs) && Owned(v) && OrphansDead(v) && IsDir(v, d)
    ensures v.inodes[d].billedBytes == 0
  {
    assert FileOk(v, cs, d);
    EmptyTotal(v.inodes[d].size, cs, v.inodes[d].size);
  }

  // ----- the operations as functions of the volume and its counters -----

  function Created(fs: Fs, c: Codec, parent: nat, name: Name, i: Inode): Fs
    requires parent in fs.v.inodes
  {
    Fs(Insert(fs.v, c, parent, name, fs.nextIno, i), fs.nextIno + 1, fs.counterInodes + 1, fs.counterBytes)
  }

  lemma CreatedKeeps(c: Codec, cs: nat, fs: Fs, parent: nat, name: Name, i: Inode)
    requires cs > 0 && Inv(c, cs, fs) && NewInode(fs.v, c, parent, name, fs.nextIno, i)
    ensures Inv(c, cs, Created(fs, c, parent, name, i))
  {
    InsertShape(c, fs.v, parent, name, fs.nextIno, i);
    InsertHoldings(c, cs, fs.v, fs.nextIno, parent, name, i);
    CreatedCounted(c, fs, parent, name, i);
  }

  lemma CreatedCounted(c: Codec, fs: Fs, parent: nat, name: Name, i: Inode)
    requires Counted(fs) && NewInode(fs.v, c, parent, name, fs.nextIno, i)
    ensures Counted(Created(fs, c, parent, name, i))
  {
    CountAdd(fs.v, Insert(fs.v, c, parent, name, fs.nextIno, i), fs.nextIno);
  }

  function Linked(fs: Fs, c: Codec, ino: nat, parent: nat, name: Name): Fs
    requires CanLink(fs.v, c, ino, parent, name)
  {
    fs.(v := Link(fs.v, c, ino, parent, name))
  }

  lemma LinkedKeepsIff(c: Codec, cs: nat, fs: Fs, ino: nat, parent: nat, name: Name)
    requires Inv(c, cs, fs) && CanLink(fs.v, c, ino, parent, name)
    ensures Inv(c, cs, Linked(fs, c, ino, parent, name)) <==> fs.v.inodes[ino].nlink > 0
  {
    LinkShape(c, fs.v, ino, parent, name);
    LinkHoldingsIff(c, cs, fs.v, fs.nextIno, ino, parent, name);
    LinkedCounted(c, fs, ino, parent, name);
  }

  lemma LinkedCounted(c: Codec, fs: Fs, ino: nat, parent: nat, name: Name)
    requires Counted(fs) && CanLink(fs.v, c, ino, parent, name)
    ensures Counted(Linked(fs, c, ino, parent, name))
  {
    CountSame(fs.v, Link(fs.v, c, ino, parent, name));
  }

  /** The record of a new node (`Inode::new`). */
  function NewNode(kind: Kind, parent: nat, size: nat): Inode {
    if kind.Dir? then Inode(kind, 2, 0, FIRST_DIRENT_ID, 0, parent)
    else Inode(kind, 1, if kind.Symlink? then size else 0, FIRST_DIRENT_ID, 0, 0)
  }

  /** A new volume: the root directory and nothing else. */
  function Formatted(): Fs {
    Fs(Volume(map[ROOT := NewNode(Dir, ROOT, 0)], map[], map[], map[], {}, {}), ROOT + 1, 1, 0)
  }

  lemma FormattedSound(c: Codec, cs: nat)
    requires cs > 0
    ensures Inv(c, cs, Formatted())
  {
    var fs := Formatted();
    assert Naming(fs.v, ROOT) == {} && ChildDirs(fs.v, ROOT) == {};
    assert Rooted(fs.v, ROOT, 0);
    EmptyTotal(0, cs, 0);
    assert BilledBy(fs.v) == map[ROOT := 0];
    Sums.SumPut(map[], ROOT, 0);
    assert fs.v.inodes.Keys == {ROOT} && |fs.v.inodes| == |fs.v.inodes.Keys|;
  }

  /** Removing a name: `unlink`, and the replaced file of a rename. */
  function Unnamed(fs: Fs, k: DirKey, held: bool): Fs
    requires CanUnlink(fs.v, k)
  {
    var i := fs.v.inodes[fs.v.dirents[k].child];
    var gone := i.nlink == 1 && !held;
    fs.(v := Unlink(fs.v, k, held),
        counterInodes := if gone then fs.counterInodes - 1 else fs.counterInodes,
        counterBytes := if gone then fs.counterBytes - i.billedBytes else fs.counterBytes)
  }

  lemma UnnamedKeeps(c: Codec, cs: nat, fs: Fs, k: DirKey, held: bool)
    requires Inv(c, cs, fs) && CanUnlink(fs.v, k)
    ensures Inv(c, cs, Unnamed(fs, k, held))
  {
    UnlinkShape(c, fs.v, k, held);
    UnlinkHoldings(cs, fs.v, fs.nextIno, k, held);
    UnnamedCounted(fs, k, held);
  }

  lemma UnnamedCounted(fs: Fs, k: DirKey, held: bool)
    requires Counted(fs) && CanUnlink(fs.v, k)
    ensures Counted(Unnamed(fs, k, held))
  {
    var child, v' := fs.v.dirents[k].child, Unlink(fs.v, k, held);
    UnlinkFiles(fs.v, k, held);
    if fs.v.inodes[child].nlink == 1 && !held {
      CountDrop(fs.v, v', child);
    } else {
      CountSame(fs.v, v');
    }
  }

  /** Removing an empty directory: `rmdir`, and the replaced directory of a rename. */
  function Emptied(fs: Fs, k: DirKey): Fs
    requires k in fs.v.dirents && k.parent in fs.v.inodes && fs.v.inodes[k.parent].nlink > 0
  {
    fs.(v := Rmdir(fs.v, k), counterInodes := fs.counterInodes - 1)
  }

  lemma EmptiedKeeps(c: Codec, cs: nat, fs: Fs, k: DirKey)
    requires Inv(c, cs, fs) && CanRmdir(fs.v, k)
    ensures Inv(c, cs, Emptied(fs, k))
  {
    RmdirShape(c, fs.v, k);
    RmdirHoldings(cs, fs.v, fs.nextIno, k);
    DirBilledNothing(cs, fs.v, fs.v.dirents[k].child);
    EmptiedCounted(fs, k);
  }

  lemma EmptiedCounted(fs: Fs, k: DirKey)
    requires Counted(fs) && CanRmdir(fs.v, k) && fs.v.inodes[fs.v.dirents[k].child].billedBytes == 0
    ensures Counted(Emptied(fs, k))
  {
    CountDrop(fs.v, Rmdir(fs.v, k), fs.v.dirents[k].child);
  }

  function Renamed(fs: Fs, c: Codec, k: DirKey, parent: nat, name: Name): Fs
    requires CanMove(fs.v, c, k, parent, name)
  {
    fs.(v := Move(fs.v, c, k, parent, name))
  }

  lemma RenamedKeeps(c: Codec, cs: nat, fs: Fs, k: DirKey, parent: nat, name: Name, up: nat)
    requires Inv(c, cs, fs) && CanMove(fs.v, c, k, parent, name) && NotBelow(fs.v, k, parent, up)
    ensures Inv(c, cs, Renamed(fs, c, k, parent, name))
  {
    MoveShape(c, fs.v, k, parent, name, up);
    MoveHoldings(c, cs, fs.v, fs.nextIno, k, parent, name);
    RenamedCounted(c, fs, k, parent, name);
  }

  lemma RenamedCounted(c: Codec, fs: Fs, k: DirKey, parent: nat, name: Name)
    requires Counted(fs) && CanMove(fs.v, c, k, parent, name)
    ensures Counted(Renamed(fs, c, k, parent, name))
  {
    CountSame(fs.v, Move(fs.v, c, k, parent, name));
  }

  // ----- rename -----

  /** `new_parent` is the moved directory or lies below it. */
  ghost predicate Below(v: Volume, d: nat, x: nat) { exists n: nat :: Rooted(v, d, n) && !Avoids(v, d, n, x) }

  /** The ancestor walk of `rename`: climbs from `from` to the root looking for `moved`. */
  method FindAbove(v: Volume, from: nat, moved: nat, ghost up: nat) returns (found: bool)
    requires Rooted(v, from, up) && moved != ROOT
    ensures found <==> !Avoids(v, from, up, moved)
  {
    var cursor := from;
    ghost var n := up;
    while cursor != moved && cursor != ROOT
      invariant Rooted(v, cursor, n)
      invariant Avoids(v, cursor, n, moved) <==> Avoids(v, from, up, moved)
      decreases n
    {
      cursor := v.inodes[cursor].parentDir;
      n := n - 1;
    }
    found := cursor == moved;
  }

  /** The destination name is free, or holds a file, or holds an empty directory. */
  predicate CanReplace(v: Volume, k: DirKey) {
    true == (k in v.dirents ==> if IsDir(v, v.dirents[k].child) then CanRmdir(v, k) else CanUnlink(v, k))
  }

  /** What the destination name held goes first: a file loses a link, an empty directory is removed. */
  function Replaced(fs: Fs, k: DirKey, held: bool): Fs
    requires CanReplace(fs.v, k)
  {
    if k !in fs.v.dirents then fs
    else if IsDir(fs.v, fs.v.dirents[k].child) then Emptied(fs, k)
    else Unnamed(fs, k, held)
  }

  lemma ReplacedKeeps(c: Codec, cs: nat, fs: Fs, k: DirKey, held: bool)
    requires Inv(c, cs, fs) && CanReplace(fs.v, k)
    ensures Inv(c, cs, Replaced(fs, k, held))
  {
    if k in fs.v.dirents {
      if IsDir(fs.v, fs.v.dirents[k].child) {
        EmptiedKeeps(c, cs, fs, k);
      } else {
        UnnamedKeeps(c, cs, fs, k, held);
      }
    }
  }

  /** `v'` is `v` without entry `k` and perhaps without the inode it named. */
  ghost predicate WithoutEntry(v: Volume, k: DirKey, v': Volume) {
    && v'.dirents == v.dirents - {k}
    && (forall x :: x in v.inodes && (k in v.dirents ==> x != v.dirents[k].child) ==> SameNode(v, v', x))
  }

  predicate SameNode(v: Volume, v': Volume, x: nat)
    requires x in v.inodes
  {
    true == (x in v'.inodes && v'.inodes[x].kind == v.inodes[x].kind && v'.inodes[x].parentDir == v.inodes[x].parentDir)
  }

  lemma ReplacedWithout(fs: Fs, k: DirKey, held: bool)
    requires CanReplace(fs.v, k)
    ensures WithoutEntry(fs.v, k, Replaced(fs, k, held).v)
  {
    if k !in fs.v.dirents { assert fs.v.dirents - {k} == fs.v.dirents; }
  }

  lemma SourceOk(c: Codec, cs: nat, fs: Fs, src: DirKey)
    requires Inv(c, cs, fs) && src in fs.v.dirents
    ensures IsDir(fs.v, src.parent) && fs.v.inodes[src.parent].nlink > 0 && fs.v.dirents[src].child in fs.v.inodes
    ensures fs.v.dirents[src].child != ROOT && fs.v.dirents[src].child != src.parent
  {
    var child := fs.v.dirents[src].child;
    assert EntryOk(fs.v, c, src) && LinkExact(fs.v, src.parent);
    assert src in Naming(fs.v, child);
    if IsDir(fs.v, child) {
      var n: nat :| Rooted(fs.v, child, n);
      NotOwnParent(fs.v, child, n);
    }
  }

  lemma NotOwnParent(v: Volume, d: nat, n: nat)
    requires RootOk(v) && d != ROOT && Rooted(v, d, n)
    ensures v.inodes[d].parentDir != d
  {
    RootedAcyclic(v, d, n, 1);
    assert Up(v, d, 0) == d;
  }

  /** The destination name is free now, so the entry can move. */
  lemma ReplacedCanMove(c: Codec, cs: nat, v: Volume, fs: Fs, src: DirKey, parent: nat, name: Name)
    requires Inv(c, cs, fs) && WithoutEntry(v, KeyOf(c, parent, name), fs.v)
    requires src in fs.v.dirents && IsDir(fs.v, parent) && fs.v.dirents[src].child != parent
    ensures CanMove(fs.v, c, src, parent, name)
  {
    SourceOk(c, cs, fs, src);
    assert KeyOf(c, parent, name) !in fs.v.dirents;
  }

  /** The target directory survives the removal of what it held under the new name. */
  lemma ParentStays(v: Volume, k: DirKey, v': Volume)
    requires IsDir(v, k.parent) && CanReplace(v, k) && WithoutEntry(v, k, v')
    ensures IsDir(v', k.parent)
  {
    assert SameNode(v, v', k.parent);
  }

  /** `spare` is any unused inode number. */
  lemma NotBelowStays(v: Volume, v': Volume, k: DirKey, src: DirKey, up: nat, spare: nat)
    requires spare !in v.inodes && Entered(v) && IsDir(v, k.parent) && CanReplace(v, k) && WithoutEntry(v, k, v')
    requires src in v.dirents && src in v'.dirents && NotBelow(v, src, k.parent, up)
    requires k in v.dirents ==> v.dirents[src].child != v.dirents[k].child
    requires v.dirents[src].child in v.inodes
    ensures NotBelow(v', src, k.parent, up)
  {
    assert SameNode(v, v', v.dirents[src].child);
    if Reparents(v', src, k.parent) {
      var leaf := if k in v.dirents then v.dirents[k].child else spare;
      LeafIsNoParent(v, v', k, leaf);
      AvoidsWithoutLeaf(v, v', leaf, k.parent, up, v.dirents[src].child);
    }
  }

  lemma LeafIsNoParent(v: Volume, v': Volume, k: DirKey, leaf: nat)
    requires Entered(v) && IsDir(v, k.parent) && CanReplace(v, k) && WithoutEntry(v, k, v')
    requires if k in v.dirents then leaf == v.dirents[k].child else leaf !in v.inodes
    ensures k.parent != leaf
    ensures forall y :: IsDir(v, y) && y != ROOT && y != leaf ==>
      IsDir(v', y) && v'.inodes[y].parentDir == v.inodes[y].parentDir && v.inodes[y].parentDir != leaf
  {
    forall y | IsDir(v, y) && y != ROOT && y != leaf
      ensures IsDir(v', y) && v'.inodes[y].parentDir == v.inodes[y].parentDir && v.inodes[y].parentDir != leaf
    {
      assert SameNode(v, v', y);
      var e :| e in v.dirents && e.parent == v.inodes[y].parentDir && v.dirents[e].child == y;
      if IsDir(v, leaf) { assert e !in EntriesIn(v, leaf); }
    }
  }

  /** The walk decides exactly whether the target directory lies at or below the moved one. */
  lemma BelowIff(v: Volume, d: nat, n: nat, x: nat)
    requires Rooted(v, d, n)
    ensures Below(v, d, x) <==> !Avoids(v, d, n, x)
  {
    if Below(v, d, x) {
      var m: nat :| Rooted(v, d, m) && !Avoids(v, d, m, x);
      DepthUnique(v, d, m, n);
    }
  }

  // ----- file content -----

  /** A write or truncate batch on one file, as the batch leaves its record and chunks. */
  function Rewritten(fs: Fs, ino: nat, size: nat, billed: nat, cm: ChunkMap): Fs
    requires ino in fs.v.inodes
  {
    var i := fs.v.inodes[ino];
    fs.(v := SetInode(fs.v, ino, i.(size := size, billedBytes := billed)).(chunks := fs.v.chunks[ino := cm]),
        counterBytes := fs.counterBytes + billed - i.billedBytes)
  }

  lemma RewrittenShape(c: Codec, fs: Fs, ino: nat, size: nat, billed: nat, cm: ChunkMap)
    requires Shape(c, fs.v) && ino in fs.v.inodes
    ensures Shape(c, Rewritten(fs, ino, size, billed, cm).v)
  {
    var v' := Rewritten(fs, ino, size, billed, cm).v;
    var v1 := SetInode(fs.v, ino, fs.v.inodes[ino].(size := size, billedBytes := billed));
    SetInodeKeeps(fs.v, c, ino, v1.inodes[ino]);
    EntriesOnly(v1, c, v');
    forall x | x in v'.inodes ensures LinkExact(v', x) {
      SameCounts(fs.v, v', x);
      assert LinkExact(fs.v, x);
    }
    TreeSame(fs.v, v');
  }

  lemma RewrittenHoldings(cs: nat, fs: Fs, ino: nat, size: nat, billed: nat, cm: ChunkMap)
    requires Holdings(cs, fs.v, fs.nextIno) && ino in fs.v.inodes && !IsDir(fs.v, ino)
    requires cs > 0 && Tidy(size, cs, cm) && billed == Total(size, cs, cm)
    ensures Holdings(cs, Rewritten(fs, ino, size, billed, cm).v, fs.nextIno)
  {
    var v' := Rewritten(fs, ino, size, billed, cm).v;
    SameNaming(fs.v, v', ROOT);
    RewrittenBills(cs, fs, ino, size, billed, cm);
    RewrittenOwners(fs, ino, size, billed, cm);
  }

  lemma RewrittenOwners(fs: Fs, ino: nat, size: nat, billed: nat, cm: ChunkMap)
    requires OrphansDead(fs.v) && Owned(fs.v) && FreshFrom(fs.v, fs.nextIno) && ino in fs.v.inodes && !IsDir(fs.v, ino)
    ensures var v' := Rewritten(fs, ino, size, billed, cm).v; OrphansDead(v') && Owned(v') && FreshFrom(v', fs.nextIno)
  {
  }

  lemma RewrittenBills(cs: nat, fs: Fs, ino: nat, size: nat, billed: nat, cm: ChunkMap)
    requires Bills(fs.v, cs) && ino in fs.v.inodes && Tidy(size, cs, cm) && billed == Total(size, cs, cm)
    ensures Bills(Rewritten(fs, ino, size, billed, cm).v, cs)
  {
    var v' := Rewritten(fs, ino, size, billed, cm).v;
    forall x | x in v'.inodes ensures FileOk(v', cs, x) { if x != ino { assert FileOk(fs.v, cs, x); } }
  }

  lemma RewrittenCounted(fs: Fs, ino: nat, size: nat, billed: nat, cm: ChunkMap)
    requires Counted(fs) && ino in fs.v.inodes
    ensures Counted(Rewritten(fs, ino, size, billed, cm))
  {
    var v' := Rewritten(fs, ino, size, billed, cm).v;
    assert v'.inodes.Keys == fs.v.inodes.Keys;
    assert |v'.inodes| == |v'.inodes.Keys| && |fs.v.inodes| == |fs.v.inodes.Keys|;
    assert BilledBy(v') == BilledBy(fs.v)[ino := billed];
    ChangeSum(BilledBy(fs.v), ino, billed, BilledBy(v'));
  }

  lemma ChangeSum(m: map<nat, int>, ino: nat, billed: int, m': map<nat, int>)
    requires ino in m && m' == m[ino := billed]
    ensures Sums.Sum(m') == Sums.Sum(m) - m[ino] + billed
  {
    Sums.SumPut(m, ino, billed);
  }

  /** A content batch that bills what it stores keeps the whole volume sound. */
  lemma RewrittenKeeps(c: Codec, cs: nat, fs: Fs, ino: nat, size: nat, billed: nat, cm: ChunkMap)
    requires Inv(c, cs, fs) && ino in fs.v.inodes && !IsDir(fs.v, ino)
    requires cs > 0 && Tidy(size, cs, cm) && billed == Total(size, cs, cm)
    ensures Inv(c, cs, Rewritten(fs, ino, size, billed, cm))
  {
    RewrittenShape(c, fs, ino, size, billed, cm);
    RewrittenHoldings(cs, fs, ino, size, billed, cm);
    RewrittenCounted(fs, ino, size, billed, cm);
  }
}
