/** What a clean check certifies about the volume as a whole: the directories hang from the root in one tree, unless an
    entry of the root names the root itself, and the two records of every entry pair up one to one. */
module FsckSound {
  import opened Common
  import opened Metadata

  /** Following `parent_dir` from directory `d` reaches the root in exactly `n` steps. */
  ghost predicate Rooted(v: Volume, d: nat, n: nat)
    decreases n
  {
    if n == 0 then d == ROOT
    else d != ROOT && IsDir(v, d) && Rooted(v, v.inodes[d].parentDir, n - 1)
  }

  /** The directory `n` steps above `d`. */
  ghost function Up(v: Volume, d: nat, n: nat): nat {
    if n == 0 then d
    else var up := Up(v, d, n - 1); if up in v.inodes then v.inodes[up].parentDir else up
  }

  // ----- the directory tree -----

  lemma {:induction false} PathRooted(v: Volume, names: OpenName, path: seq<nat>, d: nat) returns (n: nat)
    requires DirentsOk(v, names) && IsPath(v, path) && d == path[|path| - 1] && (d == ROOT || IsDir(v, d))
    ensures Rooted(v, d, n)
    decreases |path|
  {
    if d == ROOT {
      n := 0;
    } else {
      var init := path[..|path| - 1];
      var parent := init[|init| - 1];
      assert Edge(v, parent, d);
      assert IsPath(v, init);
      var m := PathRooted(v, names, init, parent);
      n := m + 1;
    }
  }

  /** Every directory but the root is named by exactly one entry, which sits in its `parent_dir`, and
      `parent_dir` leads to the root. */
  lemma CleanTree(v: Volume, cs: nat, names: OpenName, d: nat)
    requires Clean(v, cs, names) && IsDir(v, d) && d != ROOT
    ensures exists k :: Naming(v, d) == {k} && k.parent == v.inodes[d].parentDir
    ensures exists n: nat :: n > 0 && Rooted(v, d, n)
  {
    assert LinksOk(v, d) && |Naming(v, d)| == 1;
    var k := OnlyElement(Naming(v, d));
    assert k in Naming(v, d) && DirentOk(v, names, k);
    assert Reachable(v, d);
    var path :| IsPath(v, path) && path[|path| - 1] == d;
    var n := PathRooted(v, names, path, d);
    assert n > 0;
  }

  lemma OnlyElement<T>(s: set<T>) returns (x: T)
    requires |s| == 1
    ensures s == {x}
  {
    x :| x in s;
    assert |s - {x}| == 0;
  }

  lemma {:induction false} DepthUnique(v: Volume, d: nat, m: nat, n: nat)
    requires Rooted(v, d, m) && Rooted(v, d, n)
    ensures m == n
    decreases m
  {
    if m > 0 && n > 0 { DepthUnique(v, v.inodes[d].parentDir, m - 1, n - 1); }
  }

  lemma {:induction false} UpRooted(v: Volume, d: nat, n: nat, steps: nat)
    requires RootOk(v) && Rooted(v, d, n)
    ensures if steps <= n then Rooted(v, Up(v, d, steps), n - steps) else Up(v, d, steps) == ROOT
    decreases steps
  {
    if steps > 0 { UpRooted(v, d, n, steps - 1); }
  }

  /** So no directory is its own ancestor: a clean volume has no detached cycle. */
  lemma CleanAcyclic(v: Volume, cs: nat, names: OpenName, d: nat, steps: nat)
    requires Clean(v, cs, names) && IsDir(v, d) && d != ROOT && steps > 0
    ensures Up(v, d, steps) != d
  {
    CleanTree(v, cs, names, d);
    var n: nat :| n > 0 && Rooted(v, d, n);
    RootedAcyclic(v, d, n, steps);
  }

  lemma RootedAcyclic(v: Volume, d: nat, n: nat, steps: nat)
    requires RootOk(v) && d != ROOT && steps > 0 && Rooted(v, d, n)
    ensures Up(v, d, steps) != d
  {
    UpRooted(v, d, n, steps);
    if steps <= n {
      var m := n - steps;
      if Rooted(v, d, m) { DepthUnique(v, d, n, m); }
    }
  }

  /** A walk along entries from directory to directory that ends where it began. */
  ghost predicate Cycle(v: Volume, walk: seq<nat>) {
    && |walk| > 1 && walk[0] == walk[|walk| - 1]
    && (forall i :: 0 <= i < |walk| ==> IsDir(v, walk[i]))
    && (forall i :: 1 <= i < |walk| ==> Edge(v, walk[i - 1], walk[i]))
  }

  /** Entries lead down where `parent_dir` leads up. */
  lemma {:induction false} WalkUp(v: Volume, names: OpenName, walk: seq<nat>, steps: nat)
    requires DirentsOk(v, names) && Cycle(v, walk) && steps < |walk|
    ensures Up(v, walk[|walk| - 1], steps) == walk[|walk| - 1 - steps]
    decreases steps
  {
    if steps > 0 {
      WalkUp(v, names, walk, steps - 1);
      EdgeParent(v, names, walk[|walk| - 1 - steps], walk[|walk| - steps]);
    }
  }

  lemma EdgeParent(v: Volume, names: OpenName, a: nat, b: nat)
    requires DirentsOk(v, names) && Edge(v, a, b) && IsDir(v, b)
    ensures v.inodes[b].parentDir == a && Naming(v, b) != {}
  {
    var k :| k in v.dirents && k.parent == a && v.dirents[k].child == b;
    assert DirentOk(v, names, k) && k in Naming(v, b);
  }

  lemma NoCycle(v: Volume, cs: nat, names: OpenName, walk: seq<nat>)
    requires Clean(v, cs, names) && Naming(v, ROOT) == {}
    ensures !Cycle(v, walk)
  {
    if Cycle(v, walk) {
      var d, steps := walk[|walk| - 1], |walk| - 1;
      EdgeParent(v, names, walk[|walk| - 2], d);
      WalkUp(v, names, walk, steps);
      CleanAcyclic(v, cs, names, d, steps);
    }
  }

  lemma RootNamed(v: Volume, names: OpenName)
    requires RootOk(v) && DirentsOk(v, names) && Naming(v, ROOT) != {}
    ensures Cycle(v, [ROOT, ROOT])
  {
    var k :| k in Naming(v, ROOT);
    assert DirentOk(v, names, k);
    assert Edge(v, ROOT, ROOT);
  }

  /** The entries of a clean volume run in no cycle if and only if none of them names the root. */
  lemma CleanAcyclicIff(v: Volume, cs: nat, names: OpenName)
    requires Clean(v, cs, names)
    ensures (forall walk :: !Cycle(v, walk)) <==> Naming(v, ROOT) == {}
  {
    if Naming(v, ROOT) == {} {
      forall walk ensures !Cycle(v, walk) { NoCycle(v, cs, names, walk); }
    } else {
      RootNamed(v, names);
    }
  }

  /** A volume whose only entry is the root under a name of its own. */
  function RootLoop(name: Name, enc: Name): Volume {
    Volume(map[ROOT := Inode(Dir, 3, 0, 1, 0, ROOT)], map[DirKey(ROOT, enc) := Dirent(name, ROOT, Dir, 0)],
           map[IdxKey(ROOT, 0) := DirentIdx(enc, ROOT, Dir)], map[], {}, {})
  }

  /** The checker finds nothing wrong with it. */
  lemma RootLoopClean(cs: nat, names: OpenName, name: Name, enc: Name)
    requires names(ROOT, enc) == Some(name)
    ensures Clean(RootLoop(name, enc), cs, names) && Cycle(RootLoop(name, enc), [ROOT, ROOT])
  {
    var v, k := RootLoop(name, enc), DirKey(ROOT, enc);
    assert Naming(v, ROOT) == {k} && ChildDirs(v, ROOT) == {k};
    assert IsPath(v, [ROOT]);
    assert Edge(v, ROOT, ROOT);
    assert DirentOk(v, names, k);
  }

  // ----- paired records -----

  /** The index key of an entry. */
  function IndexOf(v: Volume, k: DirKey): IdxKey
    requires k in v.dirents
  {
    IdxKey(k.parent, v.dirents[k].id)
  }

  /** Index record `i` is that of entry `k` and says the same. */
  predicate Belongs(v: Volume, i: IdxKey, k: DirKey)
    requires i in v.idx
  {
    k in v.dirents && IndexOf(v, k) == i && v.idx[i] == DirentIdx(k.enc, v.dirents[k].child, v.dirents[k].kind)
  }

  /** Name records and cookie records are in bijection and agree: no two names share a dirent id, and
      every index record belongs to exactly one name. */
  lemma CleanBijection(v: Volume, cs: nat, names: OpenName)
    requires Clean(v, cs, names)
    ensures forall k, k' :: k in v.dirents && k' in v.dirents && IndexOf(v, k) == IndexOf(v, k') ==> k == k'
    ensures forall i :: i in v.idx ==> exists k :: Belongs(v, i, k)
    ensures |v.dirents| == |v.idx|
  {
    forall k, k' | k in v.dirents && k' in v.dirents && IndexOf(v, k) == IndexOf(v, k') ensures k == k' {
      assert DirentOk(v, names, k) && DirentOk(v, names, k');
    }
    forall i | i in v.idx ensures exists k :: Belongs(v, i, k) {
      assert IdxOk(v, i);
      var k := EntryOf(v, names, i);
    }
    forall k | k in v.dirents ensures IndexOf(v, k) in v.idx { assert DirentOk(v, names, k); }
    SameSize(v, v.dirents.Keys, v.idx.Keys);
  }

  lemma EntryOf(v: Volume, names: OpenName, i: IdxKey) returns (k: DirKey)
    requires DirentsOk(v, names) && i in v.idx && IdxOk(v, i)
    ensures Belongs(v, i, k)
  {
    k :| k in v.dirents && k.parent == i.parent && v.dirents[k].id == i.id;
    assert DirentOk(v, names, k) && IndexOf(v, k) == i;
  }

  lemma {:induction false} SameSize(v: Volume, keys: set<DirKey>, indexes: set<IdxKey>)
    requires keys <= v.dirents.Keys
    requires forall k, k' :: k in keys && k' in keys && IndexOf(v, k) == IndexOf(v, k') ==> k == k'
    requires forall k :: k in keys ==> IndexOf(v, k) in indexes
    requires forall i :: i in indexes ==> exists k :: k in keys && IndexOf(v, k) == i
    ensures |keys| == |indexes|
    decreases keys
  {
    if keys == {} {
      assert indexes == {};
    } else {
      var k :| k in keys;
      forall i | i in indexes - {IndexOf(v, k)} ensures exists k' :: k' in keys - {k} && IndexOf(v, k') == i {
        var k' :| k' in keys && IndexOf(v, k') == i;
        assert k' in keys - {k};
      }
      SameSize(v, keys - {k}, indexes - {IndexOf(v, k)});
    }
  }

  /** A file's link count is the number of entries that name it, unless it is a marked orphan. */
  lemma CleanLinkCounts(v: Volume, cs: nat, names: OpenName, ino: nat)
    requires Clean(v, cs, names) && ino in v.inodes
    ensures !IsDir(v, ino) ==> v.inodes[ino].nlink == |Naming(v, ino)| || (v.inodes[ino].nlink == 0 && ino in v.orphans)
    ensures IsDir(v, ino) ==> v.inodes[ino].nlink == 2 + |ChildDirs(v, ino)|
  {
    assert LinksOk(v, ino);
  }
}
