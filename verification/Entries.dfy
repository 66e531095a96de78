/** The elementary changes that directory operations (crates/slatefs-core/src/vfs_impl.rs) write in their
    batches, and what each does to the entries, to the link counts and to the directory tree.

    Larger predicates here and in the modules that use it are written `true == (...)`: the verifier then
    carries each as one fact instead of proving its conjuncts anew wherever it is passed on. */
module Entries {
  import opened Common
  import opened Metadata
  import opened FsckSound

  /** Deterministic name encryption per directory. */
  datatype Codec = Codec(seal: (nat, Name) -> Name, open: OpenName)

  ghost predicate GoodCodec(c: Codec) { forall p: nat, n: Name :: c.open(p, c.seal(p, n)) == Some(n) }

  function KeyOf(c: Codec, parent: nat, name: Name): DirKey { DirKey(parent, c.seal(parent, name)) }

  // ----- entries -----

  /** An entry is stored under its sealed name, in a directory, with its index record, and names an
      inode that agrees with it. */
  ghost predicate EntryOk(v: Volume, c: Codec, k: DirKey)
    requires k in v.dirents
  {
    ParentOk(v, k) && ChildOk(v, k) && PairOk(v, k) && k == KeyOf(c, k.parent, v.dirents[k].name)
  }

  ghost predicate EntriesOk(v: Volume, c: Codec) {
    true == (
      && (forall k {:trigger EntryOk(v, c, k)} :: k in v.dirents ==> EntryOk(v, c, k))
      && (forall i {:trigger IdxOk(v, i)} :: i in v.idx ==> IdxOk(v, i)))
  }

  /** Enter `child` in `parent`, whose link count grows by `links`. */
  function AddEntry(v: Volume, c: Codec, parent: nat, name: Name, child: nat, links: nat): Volume
    requires parent in v.inodes && child in v.inodes
  {
    var k, p := KeyOf(c, parent, name), v.inodes[parent];
    var kind := v.inodes[child].kind;
    v.(dirents := v.dirents[k := Dirent(name, child, kind, p.nextDirentId)],
       idx := v.idx[IdxKey(parent, p.nextDirentId) := DirentIdx(k.enc, child, kind)],
       inodes := v.inodes[parent := p.(nextDirentId := p.nextDirentId + 1, nlink := p.nlink + links)])
  }

  /** Remove an entry; the link count of its directory falls by `links`. */
  function DropEntry(v: Volume, k: DirKey, links: nat): Volume
    requires k in v.dirents && k.parent in v.inodes && v.inodes[k.parent].nlink >= links
  {
    var p := v.inodes[k.parent];
    v.(dirents := v.dirents - {k}, idx := v.idx - {IdxKey(k.parent, v.dirents[k].id)},
       inodes := v.inodes[k.parent := p.(nlink := p.nlink - links)])
  }

  function SetInode(v: Volume, ino: nat, i: Inode): Volume { v.(inodes := v.inodes[ino := i]) }

  function DropInode(v: Volume, ino: nat): Volume { v.(inodes := v.inodes - {ino}) }

  /** The next dirent id of a directory is not in use. */
  lemma NextIdFree(v: Volume, c: Codec, parent: nat)
    requires EntriesOk(v, c) && IsDir(v, parent)
    ensures IdxKey(parent, v.inodes[parent].nextDirentId) !in v.idx
  {
    var i := IdxKey(parent, v.inodes[parent].nextDirentId);
    forall k | k in v.dirents && k.parent == parent ensures v.dirents[k].id != i.id { assert EntryOk(v, c, k); }
    assert !IdxOk(v, i);
  }

  lemma AddEntryKeeps(v: Volume, c: Codec, parent: nat, name: Name, child: nat, links: nat)
    requires EntriesOk(v, c) && IsDir(v, parent) && child in v.inodes && KeyOf(c, parent, name) !in v.dirents
    requires IsDir(v, child) ==> v.inodes[child].parentDir == parent
    ensures EntriesOk(AddEntry(v, c, parent, name, child, links), c)
  {
    var v', k := AddEntry(v, c, parent, name, child, links), KeyOf(c, parent, name);
    NextIdFree(v, c, parent);
    forall e | e in v'.dirents ensures EntryOk(v', c, e) {
      if e != k { assert EntryOk(v, c, e); }
    }
    forall i | i in v'.idx ensures IdxOk(v', i) {
      if i in v.idx {
        assert IdxOk(v, i);
        var e :| e in v.dirents && e.parent == i.parent && v.dirents[e].id == i.id;
        assert e in v'.dirents && v'.dirents[e] == v.dirents[e];
      } else {
        assert k in v'.dirents;
      }
    }
  }

  lemma DropEntryKeeps(v: Volume, c: Codec, k: DirKey, links: nat)
    requires EntriesOk(v, c) && k in v.dirents && IsDir(v, k.parent) && v.inodes[k.parent].nlink >= links
    ensures EntriesOk(DropEntry(v, k, links), c)
  {
    var v' := DropEntry(v, k, links);
    assert EntryOk(v, c, k);
    forall e | e in v'.dirents ensures EntryOk(v', c, e) { assert EntryOk(v, c, e); }
    forall i | i in v'.idx ensures IdxOk(v', i) {
      assert IdxOk(v, i);
      var e :| e in v.dirents && e.parent == i.parent && v.dirents[e].id == i.id;
      assert e != k && e in v'.dirents;
    }
  }

  /** An inode's counts and times may change freely; its parent only while no entry names it. */
  lemma SetInodeKeeps(v: Volume, c: Codec, ino: nat, i: Inode)
    requires EntriesOk(v, c)
    requires ino in v.inodes ==> i.kind == v.inodes[ino].kind && i.nextDirentId >= v.inodes[ino].nextDirentId
    requires ino in v.inodes && Naming(v, ino) != {} ==> i.parentDir == v.inodes[ino].parentDir
    ensures EntriesOk(SetInode(v, ino, i), c)
  {
    var v' := SetInode(v, ino, i);
    forall e | e in v'.dirents ensures EntryOk(v', c, e) {
      assert EntryOk(v, c, e);
      if v.dirents[e].child == ino { assert e in Naming(v, ino); }
    }
    forall x | x in v'.idx ensures IdxOk(v', x) {
      assert IdxOk(v, x);
      var e :| e in v.dirents && e.parent == x.parent && v.dirents[e].id == x.id;
      assert e in v'.dirents;
    }
  }

  /** The entries in a directory. */
  function EntriesIn(v: Volume, dir: nat): set<DirKey> { set k | k in v.dirents && k.parent == dir }

  lemma DropInodeKeeps(v: Volume, c: Codec, ino: nat)
    requires EntriesOk(v, c) && Naming(v, ino) == {} && EntriesIn(v, ino) == {}
    ensures EntriesOk(DropInode(v, ino), c)
  {
    var v' := DropInode(v, ino);
    forall e | e in v'.dirents ensures EntryOk(v', c, e) {
      assert EntryOk(v, c, e);
      assert e !in Naming(v, ino) && e !in EntriesIn(v, ino);
    }
    forall x | x in v'.idx ensures IdxOk(v', x) {
      assert IdxOk(v, x);
      var e :| e in v.dirents && e.parent == x.parent && v.dirents[e].id == x.id;
      assert e in v'.dirents;
    }
  }

  /** Entries do not depend on symlink targets, chunks or orphan markers. */
  lemma EntriesOnly(v: Volume, c: Codec, v': Volume)
    requires EntriesOk(v, c) && v'.inodes == v.inodes && v'.dirents == v.dirents && v'.idx == v.idx
    ensures EntriesOk(v', c)
  {
    forall k | k in v'.dirents ensures EntryOk(v', c, k) { assert EntryOk(v, c, k); }
    forall i | i in v'.idx ensures IdxOk(v', i) {
      assert IdxOk(v, i);
      var e :| e in v.dirents && e.parent == i.parent && v.dirents[e].id == i.id;
      assert e in v'.dirents;
    }
  }

  // ----- counts -----

  lemma AddEntryNaming(v: Volume, c: Codec, parent: nat, name: Name, child: nat, links: nat, x: nat)
    requires parent in v.inodes && child in v.inodes && KeyOf(c, parent, name) !in v.dirents
    ensures |Naming(AddEntry(v, c, parent, name, child, links), x)| == |Naming(v, x)| + (if x == child then 1 else 0)
  {
    var v', k := AddEntry(v, c, parent, name, child, links), KeyOf(c, parent, name);
    assert Naming(v', x) == if x == child then Naming(v, x) + {k} else Naming(v, x);
  }

  lemma AddEntryChildDirs(v: Volume, c: Codec, parent: nat, name: Name, child: nat, links: nat, x: nat)
    requires parent in v.inodes && child in v.inodes && KeyOf(c, parent, name) !in v.dirents
    ensures |ChildDirs(AddEntry(v, c, parent, name, child, links), x)|
         == |ChildDirs(v, x)| + (if x == parent && IsDir(v, child) then 1 else 0)
  {
    var v', k := AddEntry(v, c, parent, name, child, links), KeyOf(c, parent, name);
    forall y ensures IsDir(v', y) <==> IsDir(v, y) { }
    assert ChildDirs(v', x) == if x == parent && IsDir(v, child) then ChildDirs(v, x) + {k} else ChildDirs(v, x);
  }

  lemma DropEntryCounts(v: Volume, k: DirKey, links: nat, x: nat)
    requires k in v.dirents && k.parent in v.inodes && v.inodes[k.parent].nlink >= links
    ensures |Naming(DropEntry(v, k, links), x)| == |Naming(v, x)| - (if x == v.dirents[k].child then 1 else 0)
    ensures |ChildDirs(DropEntry(v, k, links), x)|
         == |ChildDirs(v, x)| - (if x == k.parent && IsDir(v, v.dirents[k].child) then 1 else 0)
  {
    var v' := DropEntry(v, k, links);
    forall y ensures IsDir(v', y) <==> IsDir(v, y) { }
    assert Naming(v', x) == Naming(v, x) - {k};
    assert ChildDirs(v', x) == ChildDirs(v, x) - {k};
  }

  lemma SetInodeCounts(v: Volume, ino: nat, i: Inode, x: nat)
    requires if ino in v.inodes then i.kind == v.inodes[ino].kind else Naming(v, ino) == {}
    ensures Naming(SetInode(v, ino, i), x) == Naming(v, x)
    ensures ChildDirs(SetInode(v, ino, i), x) == ChildDirs(v, x)
  {
    var v' := SetInode(v, ino, i);
    forall k | k in v.dirents ensures IsDir(v', v.dirents[k].child) <==> IsDir(v, v.dirents[k].child) {
      if v.dirents[k].child == ino { assert k in Naming(v, ino); }
    }
  }

  lemma DropInodeCounts(v: Volume, ino: nat, x: nat)
    requires Naming(v, ino) == {}
    ensures Naming(DropInode(v, ino), x) == Naming(v, x)
    ensures ChildDirs(DropInode(v, ino), x) == ChildDirs(v, x)
  {
    var v' := DropInode(v, ino);
    forall k | k in v.dirents ensures IsDir(v', v.dirents[k].child) <==> IsDir(v, v.dirents[k].child) {
      assert k !in Naming(v, ino);
    }
  }

  // ----- the tree -----

  ghost predicate Tree(v: Volume) { forall d :: IsDir(v, d) ==> exists n: nat :: Rooted(v, d, n) }

  /** A chain survives any change that keeps its directories and their parents. */
  lemma {:induction false} RootedFrame(v: Volume, v': Volume, d: nat, n: nat)
    requires Rooted(v, d, n)
    requires forall x :: IsDir(v, x) && x != ROOT ==> IsDir(v', x) && v'.inodes[x].parentDir == v.inodes[x].parentDir
    ensures Rooted(v', d, n)
    decreases n
  {
    if n > 0 { RootedFrame(v, v', v.inodes[d].parentDir, n - 1); }
  }

  /** Adding a directory below an existing one. */
  lemma TreeGrows(v: Volume, v': Volume, d: nat)
    requires Tree(v) && !IsDir(v, d) && d != ROOT && IsDir(v', d) && IsDir(v, v'.inodes[d].parentDir)
    requires forall x :: IsDir(v', x) ==> IsDir(v, x) || x == d
    requires forall x :: IsDir(v, x) ==> IsDir(v', x) && v'.inodes[x].parentDir == v.inodes[x].parentDir
    ensures Tree(v')
  {
    forall x | IsDir(v', x) ensures exists n: nat :: Rooted(v', x, n) {
      var y := if x == d then v'.inodes[d].parentDir else x;
      var n: nat :| Rooted(v, y, n);
      RootedFrame(v, v', y, n);
      if x == d { assert Rooted(v', d, n + 1); }
    }
  }

  lemma TreeSame(v: Volume, v': Volume)
    requires Tree(v)
    requires forall x :: IsDir(v', x) ==> IsDir(v, x)
    requires forall x :: IsDir(v, x) && x != ROOT ==> IsDir(v', x) && v'.inodes[x].parentDir == v.inodes[x].parentDir
    ensures Tree(v')
  {
    forall x | IsDir(v', x) ensures exists n: nat :: Rooted(v', x, n) {
      var n: nat :| Rooted(v, x, n);
      RootedFrame(v, v', x, n);
    }
  }

  /** A chain survives the removal of a directory that is nobody's parent. */
  lemma {:induction false} RootedWithoutLeaf(v: Volume, v': Volume, leaf: nat, d: nat, n: nat)
    requires Rooted(v, d, n) && d != leaf
    requires forall x :: IsDir(v, x) && x != ROOT && x != leaf ==>
      IsDir(v', x) && v'.inodes[x].parentDir == v.inodes[x].parentDir && v.inodes[x].parentDir != leaf
    ensures Rooted(v', d, n)
    decreases n
  {
    if n > 0 { RootedWithoutLeaf(v, v', leaf, v.inodes[d].parentDir, n - 1); }
  }

  lemma TreeShrinks(v: Volume, v': Volume, leaf: nat)
    requires Tree(v) && !IsDir(v', leaf)
    requires forall x :: IsDir(v', x) ==> IsDir(v, x)
    requires forall x :: IsDir(v, x) && x != ROOT && x != leaf ==>
      IsDir(v', x) && v'.inodes[x].parentDir == v.inodes[x].parentDir && v.inodes[x].parentDir != leaf
    ensures Tree(v')
  {
    forall x | IsDir(v', x) ensures exists n: nat :: Rooted(v', x, n) {
      var n: nat :| Rooted(v, x, n);
      RootedWithoutLeaf(v, v', leaf, x, n);
    }
  }

  /** The chain from `d` to the root does not meet `x`. */
  ghost predicate Avoids(v: Volume, d: nat, n: nat, x: nat)
    requires Rooted(v, d, n)
    decreases n
  {
    d != x && (n > 0 ==> Avoids(v, v.inodes[d].parentDir, n - 1, x))
  }

  /** `v'` is `v` with directory `moved` under a new parent. */
  ghost predicate Reparented(v: Volume, v': Volume, moved: nat, parent: nat) {
    && moved != ROOT && IsDir(v, moved)
    && (forall x :: IsDir(v', x) <==> IsDir(v, x))
    && (forall x :: IsDir(v, x) ==> v'.inodes[x].parentDir == if x == moved then parent else v.inodes[x].parentDir)
  }

  lemma {:induction false} RootedAvoiding(v: Volume, v': Volume, moved: nat, parent: nat, d: nat, n: nat)
    requires Reparented(v, v', moved, parent) && Rooted(v, d, n) && Avoids(v, d, n, moved)
    ensures Rooted(v', d, n)
    decreases n
  {
    if n > 0 { RootedAvoiding(v, v', moved, parent, v.inodes[d].parentDir, n - 1); }
  }

  lemma {:induction false} RootedMoved(v: Volume, v': Volume, moved: nat, parent: nat, up: nat, d: nat, n: nat)
    returns (m: nat)
    requires Reparented(v, v', moved, parent) && Rooted(v, parent, up) && Avoids(v, parent, up, moved)
    requires Rooted(v, d, n)
    ensures Rooted(v', d, m)
    decreases n
  {
    if d == moved {
      RootedAvoiding(v, v', moved, parent, parent, up);
      m := up + 1;
    } else if n == 0 {
      m := 0;
    } else {
      var below := RootedMoved(v, v', moved, parent, up, v.inodes[d].parentDir, n - 1);
      m := below + 1;
    }
  }

  /** Moving a directory under one that is not below it keeps the tree. */
  lemma TreeMoves(v: Volume, v': Volume, moved: nat, parent: nat, up: nat)
    requires Tree(v) && Reparented(v, v', moved, parent) && Rooted(v, parent, up) && Avoids(v, parent, up, moved)
    ensures Tree(v')
  {
    forall x | IsDir(v', x) ensures exists n: nat :: Rooted(v', x, n) {
      var n: nat :| Rooted(v, x, n);
      var m := RootedMoved(v, v', moved, parent, up, x, n);
    }
  }

  /** A chain that avoids `x` also survives the removal of a directory that is nobody's parent. */
  lemma {:induction false} AvoidsWithoutLeaf(v: Volume, v': Volume, leaf: nat, d: nat, n: nat, x: nat)
    requires Rooted(v, d, n) && Avoids(v, d, n, x) && d != leaf
    requires forall y :: IsDir(v, y) && y != ROOT && y != leaf ==>
      IsDir(v', y) && v'.inodes[y].parentDir == v.inodes[y].parentDir && v.inodes[y].parentDir != leaf
    ensures Rooted(v', d, n) && Avoids(v', d, n, x)
    decreases n
  {
    if n > 0 { AvoidsWithoutLeaf(v, v', leaf, v.inodes[d].parentDir, n - 1, x); }
  }
}
