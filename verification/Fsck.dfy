/** The filesystem checker (crates/slatefs-core/src/fsck.rs, `check_readable`). Every scan may visit its
    records in any order; the checker reports no problem exactly when the volume is `Clean`. */
module Fsck {
  import opened Chunks
  import opened Metadata
  import Sums

  datatype Problem =
    | RootMissing | RootNotDir | RootParent
    | ParentMissing(k: DirKey) | ParentNotDir(k: DirKey) | IdBeyondNext(k: DirKey)
    | DanglingChild(k: DirKey) | KindMismatch(k: DirKey) | ParentDirMismatch(k: DirKey)
    | MissingIndex(k: DirKey) | IndexDisagrees(k: DirKey) | NameDiffers(k: DirKey) | NameFails(k: DirKey)
    | UnpairedIndex(i: IdxKey)
    | ManyDirents(ino: nat) | DirLinks(ino: nat) | UnreachableDir(ino: nat) | FileLinks(ino: nat) | NoTarget(ino: nat)
    | OversizeChunk(ino: nat) | BilledDiffers(ino: nat) | UnknownOwner(ino: nat) | Unreachable(ino: nat)

  type Problems = seq<Problem>

  function Count(m: map<nat, nat>, k: nat): nat { if k in m then m[k] else 0 }

  function Listed(m: map<nat, seq<nat>>, k: nat): seq<nat> { if k in m then m[k] else [] }

  predicate RootWrong(v: Volume, q: Problem) {
    match q
    case RootMissing => ROOT !in v.inodes
    case RootNotDir => ROOT in v.inodes && !v.inodes[ROOT].kind.Dir?
    case RootParent => ROOT in v.inodes && v.inodes[ROOT].parentDir != ROOT
    case _ => false
  }

  method CheckRoot(v: Volume) returns (p: Problems)
    ensures p == [] <==> RootOk(v)
    ensures forall q :: q in p <==> RootWrong(v, q)
  {
    p := [];
    if ROOT !in v.inodes {
      p := [RootMissing];
    } else {
      if !v.inodes[ROOT].kind.Dir? {
        p := p + [RootNotDir];
      }
      if v.inodes[ROOT].parentDir != ROOT {
        p := p + [RootParent];
      }
    }
  }

  // ----- directory entries -----

  predicate ParentWrong(v: Volume, k: DirKey, q: Problem)
    requires k in v.dirents
  {
    match q
    case ParentMissing(e) => e == k && k.parent !in v.inodes
    case ParentNotDir(e) => e == k && k.parent in v.inodes && !v.inodes[k.parent].kind.Dir?
    case IdBeyondNext(e) => e == k && IsDir(v, k.parent) && v.dirents[k].id >= v.inodes[k.parent].nextDirentId
    case _ => false
  }

  method CheckParent(v: Volume, k: DirKey) returns (p: Problems)
    requires k in v.dirents
    ensures p == [] <==> ParentOk(v, k)
    ensures forall q :: q in p <==> ParentWrong(v, k, q)
  {
    p := [];
    if k.parent !in v.inodes {
      p := [ParentMissing(k)];
    } else if !v.inodes[k.parent].kind.Dir? {
      p := [ParentNotDir(k)];
    } else if v.dirents[k].id >= v.inodes[k.parent].nextDirentId {
      p := [IdBeyondNext(k)];
    }
  }

  predicate ChildWrong(v: Volume, k: DirKey, q: Problem)
    requires k in v.dirents
  {
    var child, kind := v.dirents[k].child, v.dirents[k].kind;
    match q
    case DanglingChild(e) => e == k && child !in v.inodes
    case KindMismatch(e) => e == k && child in v.inodes && v.inodes[child].kind != kind
    case ParentDirMismatch(e) => e == k && IsDir(v, child) && v.inodes[child].parentDir != k.parent
    case _ => false
  }

  method CheckChild(v: Volume, k: DirKey) returns (p: Problems)
    requires k in v.dirents
    ensures p == [] <==> ChildOk(v, k)
    ensures forall q :: q in p <==> ChildWrong(v, k, q)
  {
    var d := v.dirents[k];
    p := [];
    if d.child !in v.inodes {
      p := [DanglingChild(k)];
    } else {
      if v.inodes[d.child].kind != d.kind {
        p := p + [KindMismatch(k)];
      }
      if v.inodes[d.child].kind.Dir? && v.inodes[d.child].parentDir != k.parent {
        p := p + [ParentDirMismatch(k)];
      }
    }
  }

  predicate PairWrong(v: Volume, k: DirKey, q: Problem)
    requires k in v.dirents
  {
    var d := v.dirents[k];
    var i := IdxKey(k.parent, d.id);
    match q
    case MissingIndex(e) => e == k && i !in v.idx
    case IndexDisagrees(e) => e == k && i in v.idx && v.idx[i] != DirentIdx(k.enc, d.child, d.kind)
    case _ => false
  }

  method CheckPair(v: Volume, k: DirKey) returns (p: Problems)
    requires k in v.dirents
    ensures p == [] <==> PairOk(v, k)
    ensures forall q :: q in p <==> PairWrong(v, k, q)
  {
    var d := v.dirents[k];
    var i := IdxKey(k.parent, d.id);
    p := [];
    if i !in v.idx {
      p := [MissingIndex(k)];
    } else if v.idx[i].enc != k.enc || v.idx[i].child != d.child || v.idx[i].kind != d.kind {
      p := [IndexDisagrees(k)];
    }
  }

  predicate NameWrong(v: Volume, names: OpenName, k: DirKey, q: Problem)
    requires k in v.dirents
  {
    var name := names(k.parent, k.enc);
    match q
    case NameFails(e) => e == k && name.None?
    case NameDiffers(e) => e == k && name.Some? && name.value != v.dirents[k].name
    case _ => false
  }

  method CheckName(v: Volume, names: OpenName, k: DirKey) returns (p: Problems)
    requires k in v.dirents
    ensures p == [] <==> NameOk(v, names, k)
    ensures forall q :: q in p <==> NameWrong(v, names, k, q)
  {
    var opened_ := names(k.parent, k.enc);
    p := [];
    if opened_.None? {
      p := [NameFails(k)];
    } else if opened_.value != v.dirents[k].name {
      p := [NameDiffers(k)];
    }
  }

  predicate EntryWrong(v: Volume, names: OpenName, k: DirKey, q: Problem)
    requires k in v.dirents
  {
    ParentWrong(v, k, q) || ChildWrong(v, k, q) || PairWrong(v, k, q) || NameWrong(v, names, k, q)
  }

  method CheckDirent(v: Volume, names: OpenName, k: DirKey) returns (p: Problems)
    requires k in v.dirents
    ensures p == [] <==> DirentOk(v, names, k)
    ensures forall q :: q in p <==> EntryWrong(v, names, k, q)
  {
    var parent := CheckParent(v, k);
    var child := CheckChild(v, k);
    var pair := CheckPair(v, k);
    var name := CheckName(v, names, k);
    p := parent + child + pair + name;
  }

  /** An entry in `done` is wrong in the way the problem says. */
  ghost predicate EntriesWrong(v: Volume, names: OpenName, done: set<DirKey>, q: Problem) {
    exists k :: k in done && k in v.dirents && EntryWrong(v, names, k, q)
  }

  ghost function NamingIn(v: Volume, done: set<DirKey>, ino: nat): set<DirKey> {
    set k | k in done && k in v.dirents && v.dirents[k].child == ino
  }

  ghost function ChildDirsIn(v: Volume, done: set<DirKey>, ino: nat): set<DirKey> {
    set k | k in done && k in v.dirents && k.parent == ino && IsDir(v, v.dirents[k].child)
  }

  ghost predicate EdgeIn(v: Volume, done: set<DirKey>, a: nat, b: nat) {
    exists k :: k in done && k in v.dirents && k.parent == a && v.dirents[k].child == b
  }

  /** What the entry scan has gathered from the entries in `done`. */
  ghost predicate Gathered(v: Volume, done: set<DirKey>, links: map<nat, nat>, dirs: map<nat, nat>,
                           children: map<nat, seq<nat>>) {
    true == (
      && (forall ino: nat :: Count(links, ino) == |NamingIn(v, done, ino)|)
      && (forall ino: nat :: Count(dirs, ino) == |ChildDirsIn(v, done, ino)|)
      && (forall a: nat, b: nat :: b in Listed(children, a) <==> EdgeIn(v, done, a, b)))
  }

  lemma GatherLinks(v: Volume, done: set<DirKey>, k: DirKey, ino: nat)
    requires k in v.dirents && k !in done
    ensures |NamingIn(v, done + {k}, ino)| == |NamingIn(v, done, ino)| + (if v.dirents[k].child == ino then 1 else 0)
  {
    var s, t := NamingIn(v, done, ino), NamingIn(v, done + {k}, ino);
    assert t == if v.dirents[k].child == ino then s + {k} else s;
  }

  lemma GatherDirs(v: Volume, done: set<DirKey>, k: DirKey, ino: nat)
    requires k in v.dirents && k !in done
    ensures |ChildDirsIn(v, done + {k}, ino)|
         == |ChildDirsIn(v, done, ino)| + (if k.parent == ino && IsDir(v, v.dirents[k].child) then 1 else 0)
  {
    var s, t := ChildDirsIn(v, done, ino), ChildDirsIn(v, done + {k}, ino);
    assert t == if k.parent == ino && IsDir(v, v.dirents[k].child) then s + {k} else s;
  }

  /** The entry scan: checks each entry and counts links, child directories and children. */
  method ScanDirents(v: Volume, names: OpenName)
    returns (p: Problems, links: map<nat, nat>, dirs: map<nat, nat>, children: map<nat, seq<nat>>)
    ensures p == [] <==> DirentsOk(v, names)
    ensures forall q :: q in p <==> EntriesWrong(v, names, v.dirents.Keys, q)
    ensures Gathered(v, v.dirents.Keys, links, dirs, children)
  {
    p, links, dirs, children := [], map[], map[], map[];
    var rest := v.dirents.Keys;
    ghost var done: set<DirKey> := {};
    while rest != {}
      invariant rest <= v.dirents.Keys && done == v.dirents.Keys - rest
      invariant p == [] <==> forall k :: k in done ==> DirentOk(v, names, k)
      invariant forall q :: q in p <==> EntriesWrong(v, names, done, q)
      invariant Gathered(v, done, links, dirs, children)
      decreases rest
    {
      var k :| k in rest;
      var d := v.dirents[k];
      var found := CheckDirent(v, names, k);
      p := p + found;
      ghost var links', dirs', children' := links, dirs, children;
      if d.child in v.inodes && v.inodes[d.child].kind.Dir? {
        dirs := dirs[k.parent := Count(dirs, k.parent) + 1];
      }
      links := links[d.child := Count(links, d.child) + 1];
      children := children[k.parent := Listed(children, k.parent) + [d.child]];
      GatherStep(v, done, k, links', dirs', children', links, dirs, children);
      EntriesStep(v, names, done, k);
      rest, done := rest - {k}, done + {k};
    }
    assert done == v.dirents.Keys;
  }

  lemma EntriesStep(v: Volume, names: OpenName, done: set<DirKey>, k: DirKey)
    requires k in v.dirents
    ensures forall q ::
      EntriesWrong(v, names, done + {k}, q) <==> EntriesWrong(v, names, done, q) || EntryWrong(v, names, k, q)
  {
    forall q
      ensures EntriesWrong(v, names, done + {k}, q) <==> EntriesWrong(v, names, done, q) || EntryWrong(v, names, k, q)
    {
      if EntriesWrong(v, names, done, q) {
        var e :| e in done && e in v.dirents && EntryWrong(v, names, e, q);
        assert e in done + {k};
      }
      if EntryWrong(v, names, k, q) { assert k in done + {k}; }
    }
  }

  lemma GatherStep(v: Volume, done: set<DirKey>, k: DirKey,
                   links: map<nat, nat>, dirs: map<nat, nat>, children: map<nat, seq<nat>>,
                   links': map<nat, nat>, dirs': map<nat, nat>, children': map<nat, seq<nat>>)
    requires k in v.dirents && k !in done && Gathered(v, done, links, dirs, children)
    requires links' == links[v.dirents[k].child := Count(links, v.dirents[k].child) + 1]
    requires dirs' == if IsDir(v, v.dirents[k].child) then dirs[k.parent := Count(dirs, k.parent) + 1] else dirs
    requires children' == children[k.parent := Listed(children, k.parent) + [v.dirents[k].child]]
    ensures Gathered(v, done + {k}, links', dirs', children')
  {
    forall ino: nat ensures Count(links', ino) == |NamingIn(v, done + {k}, ino)| { GatherLinks(v, done, k, ino); }
    forall ino: nat ensures Count(dirs', ino) == |ChildDirsIn(v, done + {k}, ino)| { GatherDirs(v, done, k, ino); }
    forall a: nat, b: nat ensures b in Listed(children', a) <==> EdgeIn(v, done + {k}, a, b) {
      assert b in Listed(children, a) <==> EdgeIn(v, done, a, b);
      if EdgeIn(v, done, a, b) {
        var e :| e in done && e in v.dirents && e.parent == a && v.dirents[e].child == b;
        assert e in done + {k};
      }
      if a == k.parent && b == v.dirents[k].child { assert k in done + {k}; }
    }
  }

  // ----- index records -----

  method CheckIdx(v: Volume, i: IdxKey) returns (paired: bool)
    ensures paired <==> IdxOk(v, i)
  {
    paired := exists k :: k in v.dirents && k.parent == i.parent && v.dirents[k].id == i.id;
  }

  ghost predicate IndexWrong(v: Volume, q: Problem) { q.UnpairedIndex? && q.i in v.idx && !IdxOk(v, q.i) }

  method ScanIndex(v: Volume) returns (p: Problems)
    ensures p == [] <==> IdxsOk(v)
    ensures forall q :: q in p <==> IndexWrong(v, q)
  {
    p := [];
    var rest := v.idx.Keys;
    while rest != {}
      invariant rest <= v.idx.Keys
      invariant p == [] <==> forall i :: i in v.idx && i !in rest ==> IdxOk(v, i)
      invariant forall q :: q in p <==> IndexWrong(v, q) && q.i !in rest
      decreases rest
    {
      var i :| i in rest;
      rest := rest - {i};
      var paired := CheckIdx(v, i);
      if !paired {
        p := p + [UnpairedIndex(i)];
      }
    }
  }

  // ----- inodes -----

  /** Sum of billed bytes over one inode's chunks, and whether all of them have a chunk's length. */
  method BillInode(size: nat, cs: nat, m: ChunkMap) returns (billed: nat, sized: bool)
    requires cs > 0
    ensures billed == Total(size, cs, m) && (sized <==> Sized(cs, m))
  {
    billed, sized := 0, true;
    ghost var seen: ChunkMap := map[];
    EmptyTotal(size, cs, size);
    var rest := m.Keys;
    while rest != {}
      invariant rest <= m.Keys
      invariant forall k :: k in seen <==> k in m && k !in rest
      invariant forall k :: k in seen ==> seen[k] == m[k]
      invariant billed == Total(size, cs, seen)
      invariant sized <==> Sized(cs, seen)
      decreases rest
    {
      var k :| k in rest;
      rest := rest - {k};
      if |m[k]| > cs {
        sized := false;
      }
      billed := billed + Billed(size, Start(cs, k), |m[k]|);
      TotalChange(size, cs, seen, seen[k := m[k]], k);
      assert Sized(cs, seen[k := m[k]]) <==> Sized(cs, seen) && |m[k]| <= cs by {
        if Sized(cs, seen[k := m[k]]) {
          forall j | j in seen ensures |seen[j]| <= cs { assert j in seen[k := m[k]]; }
          assert k in seen[k := m[k]];
        }
      }
      seen := seen[k := m[k]];
    }
    assert seen == m;
  }

  predicate LinksWrong(v: Volume, ino: nat, q: Problem)
    requires ino in v.inodes
  {
    var inode, links := v.inodes[ino], |Naming(v, ino)|;
    match q
    case ManyDirents(e) => e == ino && inode.kind.Dir? && links > 1
    case DirLinks(e) => e == ino && inode.kind.Dir? && inode.nlink != 2 + |ChildDirs(v, ino)|
    case UnreachableDir(e) => e == ino && inode.kind.Dir? && ino != ROOT && links == 0
    case FileLinks(e) => e == ino && !inode.kind.Dir? && inode.nlink != links && !LegitOrphan(v, ino)
    case NoTarget(e) => e == ino && inode.kind.Symlink? && ino !in v.symlinks
    case _ => false
  }

  method CheckLinks(v: Volume, ino: nat, links: nat, dirs: nat) returns (p: Problems)
    requires ino in v.inodes && links == |Naming(v, ino)| && dirs == |ChildDirs(v, ino)|
    ensures p == [] <==> LinksOk(v, ino)
    ensures forall q :: q in p <==> LinksWrong(v, ino, q)
  {
    var inode := v.inodes[ino];
    p := [];
    if inode.kind.Dir? {
      if links > 1 {
        p := p + [ManyDirents(ino)];
      }
      if inode.nlink != 2 + dirs {
        p := p + [DirLinks(ino)];
      }
      if ino != ROOT && links == 0 {
        p := p + [UnreachableDir(ino)];
      }
    } else {
      if inode.nlink != links && !(inode.nlink == 0 && ino in v.orphans) {
        p := p + [FileLinks(ino)];
      }
      if inode.kind.Symlink? && ino !in v.symlinks {
        p := p + [NoTarget(ino)];
      }
    }
  }

  ghost predicate BillWrong(v: Volume, cs: nat, ino: nat, q: Problem)
    requires ino in v.inodes
  {
    var inode, m := v.inodes[ino], ChunksOf(v, ino);
    match q
    case OversizeChunk(e) => e == ino && !Sized(cs, m)
    case BilledDiffers(e) => e == ino && inode.billedBytes != Total(inode.size, cs, m)
    case _ => false
  }

  ghost predicate InodeWrong(v: Volume, cs: nat, ino: nat, q: Problem)
    requires ino in v.inodes
  {
    LinksWrong(v, ino, q) || BillWrong(v, cs, ino, q)
  }

  method CheckInode(v: Volume, cs: nat, ino: nat, links: nat, dirs: nat) returns (p: Problems)
    requires cs > 0 && ino in v.inodes && links == |Naming(v, ino)| && dirs == |ChildDirs(v, ino)|
    ensures p == [] <==> LinksOk(v, ino) && BillOk(v, cs, ino)
    ensures forall q :: q in p <==> InodeWrong(v, cs, ino, q)
  {
    p := CheckLinks(v, ino, links, dirs);
    var billed, sized := BillInode(v.inodes[ino].size, cs, ChunksOf(v, ino));
    if !sized {
      p := p + [OversizeChunk(ino)];
    }
    if billed != v.inodes[ino].billedBytes {
      p := p + [BilledDiffers(ino)];
    }
  }

  /** Recounted bytes of the inodes in `done`. */
  ghost function Recount(v: Volume, cs: nat, done: set<nat>): map<nat, int> {
    map ino | ino in done && ino in v.inodes :: Total(v.inodes[ino].size, cs, ChunksOf(v, ino))
  }

  /** An inode in `done` is wrong in the way the problem says. */
  ghost predicate InodesWrong(v: Volume, cs: nat, done: set<nat>, q: Problem) {
    exists ino :: ino in done && ino in v.inodes && InodeWrong(v, cs, ino, q)
  }

  ghost predicate InodesFine(v: Volume, cs: nat, done: set<nat>) {
    true == forall ino :: ino in done && ino in v.inodes ==> LinksOk(v, ino) && BillOk(v, cs, ino)
  }

  lemma InodesStep(v: Volume, cs: nat, done: set<nat>, ino: nat)
    requires ino in v.inodes
    ensures InodesFine(v, cs, done + {ino}) <==> InodesFine(v, cs, done) && LinksOk(v, ino) && BillOk(v, cs, ino)
    ensures forall q ::
      InodesWrong(v, cs, done + {ino}, q) <==> InodesWrong(v, cs, done, q) || InodeWrong(v, cs, ino, q)
  {
    if InodesFine(v, cs, done + {ino}) {
      assert ino in done + {ino};
      forall i | i in done && i in v.inodes ensures LinksOk(v, i) && BillOk(v, cs, i) { assert i in done + {ino}; }
    }
    forall q
      ensures InodesWrong(v, cs, done + {ino}, q) <==> InodesWrong(v, cs, done, q) || InodeWrong(v, cs, ino, q)
    {
      if InodesWrong(v, cs, done, q) {
        var i :| i in done && i in v.inodes && InodeWrong(v, cs, i, q);
        assert i in done + {ino};
      }
      if InodeWrong(v, cs, ino, q) { assert ino in done + {ino}; }
    }
  }

  method ScanInodes(v: Volume, cs: nat, links: map<nat, nat>, dirs: map<nat, nat>) returns (p: Problems)
    requires cs > 0
    requires forall ino: nat :: Count(links, ino) == |Naming(v, ino)| && Count(dirs, ino) == |ChildDirs(v, ino)|
    ensures p == [] <==> InodesOk(v, cs)
    ensures forall q :: q in p <==> InodesWrong(v, cs, v.inodes.Keys, q)
  {
    p := [];
    var rest := v.inodes.Keys;
    ghost var done: set<nat> := {};
    while rest != {}
      invariant rest <= v.inodes.Keys && done == v.inodes.Keys - rest
      invariant p == [] <==> InodesFine(v, cs, done)
      invariant forall q :: q in p <==> InodesWrong(v, cs, done, q)
      decreases rest
    {
      var ino :| ino in rest;
      var found := CheckInode(v, cs, ino, Count(links, ino), Count(dirs, ino));
      p := p + found;
      InodesStep(v, cs, done, ino);
      rest, done := rest - {ino}, done + {ino};
    }
    assert done == v.inodes.Keys;
  }

  /** The recounted bytes, which the source adds up in the same loop. */
  method RecountBytes(v: Volume, cs: nat) returns (bytes: int)
    requires cs > 0
    ensures bytes == Sums.Sum(Recount(v, cs, v.inodes.Keys))
  {
    bytes := 0;
    var rest := v.inodes.Keys;
    Sums.SumZeroes(Recount(v, cs, v.inodes.Keys - rest));
    while rest != {}
      invariant rest <= v.inodes.Keys
      invariant bytes == Sums.Sum(Recount(v, cs, v.inodes.Keys - rest))
      decreases rest
    {
      var ino :| ino in rest;
      var billed, _ := BillInode(v.inodes[ino].size, cs, ChunksOf(v, ino));
      bytes := bytes + billed;
      RecountStep(v, cs, rest, ino);
      rest := rest - {ino};
    }
    assert v.inodes.Keys - rest == v.inodes.Keys;
  }

  lemma RecountStep(v: Volume, cs: nat, rest: set<nat>, ino: nat)
    requires ino in v.inodes && ino in rest
    ensures Sums.Sum(Recount(v, cs, v.inodes.Keys - (rest - {ino})))
         == Sums.Sum(Recount(v, cs, v.inodes.Keys - rest)) + Total(v.inodes[ino].size, cs, ChunksOf(v, ino))
  {
    var t := Total(v.inodes[ino].size, cs, ChunksOf(v, ino));
    RecountMore(v, cs, rest, ino);
    Sums.SumPut(Recount(v, cs, v.inodes.Keys - rest), ino, t);
  }

  lemma RecountMore(v: Volume, cs: nat, rest: set<nat>, ino: nat)
    requires ino in v.inodes && ino in rest
    ensures ino !in Recount(v, cs, v.inodes.Keys - rest)
    ensures Recount(v, cs, v.inodes.Keys - (rest - {ino}))
         == Recount(v, cs, v.inodes.Keys - rest)[ino := Total(v.inodes[ino].size, cs, ChunksOf(v, ino))]
  {
  }

  predicate OwnerWrong(v: Volume, q: Problem) {
    q.UnknownOwner? && q.ino in v.chunks && q.ino !in v.inodes && q.ino !in v.orphans
  }

  method ScanOwners(v: Volume) returns (p: Problems)
    ensures p == [] <==> OwnersOk(v)
    ensures forall q :: q in p <==> OwnerWrong(v, q)
  {
    p := [];
    var rest := v.chunks.Keys;
    while rest != {}
      invariant rest <= v.chunks.Keys
      invariant p == [] <==> forall ino :: ino in v.chunks && ino !in rest ==> ino in v.inodes || ino in v.orphans
      invariant forall q :: q in p <==> OwnerWrong(v, q) && q.ino !in rest
      decreases rest
    {
      var ino :| ino in rest;
      rest := rest - {ino};
      if ino !in v.inodes && ino !in v.orphans {
        p := p + [UnknownOwner(ino)];
      }
    }
  }

  // ----- reachability -----

  /** Inodes the search expands: the root and every directory it meets. */
  predicate Expands(v: Volume, ino: nat) { ino == ROOT || IsDir(v, ino) }

  lemma ExtendPath(v: Volume, a: nat, b: nat)
    requires Reachable(v, a) && Expands(v, a) && Edge(v, a, b)
    ensures Reachable(v, b)
  {
    var path :| IsPath(v, path) && path[|path| - 1] == a;
    if a == ROOT {
      assert IsPath(v, [ROOT, b]);
    } else {
      assert IsPath(v, path + [b]);
    }
  }

  /** A set that holds the root and is closed under expansion holds every path. */
  lemma {:induction false} ClosedHoldsPath(v: Volume, reached: set<nat>, path: seq<nat>)
    requires ROOT in reached && IsPath(v, path)
    requires forall a, b :: a in reached && Expands(v, a) && Edge(v, a, b) ==> b in reached
    ensures path[|path| - 1] in reached
    decreases |path|
  {
    if |path| > 1 {
      var init := path[..|path| - 1];
      assert IsPath(v, init);
      ClosedHoldsPath(v, reached, init);
      assert Edge(v, path[|path| - 2], path[|path| - 1]);
    }
  }

  /** Breadth-first search from the root over the gathered children. */
  method Search(v: Volume, children: map<nat, seq<nat>>) returns (reached: set<nat>)
    requires forall a: nat, b: nat :: b in Listed(children, a) <==> Edge(v, a, b)
    ensures forall ino: nat :: ino in reached <==> Reachable(v, ino)
  {
    reached := {ROOT};
    var queue := [ROOT];
    ghost var universe := {ROOT} + (set k | k in v.dirents :: v.dirents[k].child);
    assert IsPath(v, [ROOT]);
    while queue != []
      invariant ROOT in reached && reached <= universe
      invariant forall ino :: ino in reached ==> Reachable(v, ino)
      invariant forall q :: q in queue ==> q in reached && Expands(v, q)
      invariant forall a, b :: a in reached && a !in queue && Expands(v, a) && Edge(v, a, b) ==> b in reached
      decreases universe - reached, |queue|
    {
      var dir := queue[0];
      ghost var before, waiting := reached, queue;
      reached, queue := Expand(v, dir, Listed(children, dir), reached, queue[1..]);
      forall ino | ino in reached ensures Reachable(v, ino) {
        if ino !in before { ExtendPath(v, dir, ino); }
      }
      forall ino | ino in reached && ino !in before ensures ino in universe {
        assert Edge(v, dir, ino);
      }
    }
    forall ino: nat | Reachable(v, ino) ensures ino in reached {
      var path :| IsPath(v, path) && path[|path| - 1] == ino;
      ClosedHoldsPath(v, reached, path);
    }
  }

  /** Marks the children of one directory, queueing the directories met for the first time. */
  method Expand(v: Volume, ghost dir: nat, list: seq<nat>, reached: set<nat>, queue: seq<nat>)
    returns (reached': set<nat>, queue': seq<nat>)
    ensures reached' == reached + (set c | c in list)
    ensures forall q :: q in queue' <==> q in queue || (q in reached' && q !in reached && IsDir(v, q))
    ensures reached' == reached ==> queue' == queue
  {
    reached', queue' := reached, queue;
    var i := 0;
    while i < |list|
      invariant 0 <= i <= |list|
      invariant reached' == reached + (set c | c in list[..i])
      invariant forall q :: q in queue' <==> q in queue || (q in reached' && q !in reached && IsDir(v, q))
      invariant reached' == reached ==> queue' == queue
    {
      var child := list[i];
      assert list[..i + 1] == list[..i] + [child];
      if child !in reached' {
        if child in v.inodes && v.inodes[child].kind.Dir? {
          queue' := queue' + [child];
        }
        reached' := reached' + {child};
      }
      i := i + 1;
    }
    assert list[..i] == list;
  }

  ghost predicate ReachWrong(v: Volume, q: Problem) {
    q.Unreachable? && q.ino in v.inodes && !Reachable(v, q.ino) && !LegitOrphan(v, q.ino)
  }

  method ScanReachable(v: Volume, reached: set<nat>) returns (p: Problems)
    requires forall ino: nat :: ino in reached <==> Reachable(v, ino)
    ensures p == [] <==> ReachOk(v)
    ensures forall q :: q in p <==> ReachWrong(v, q)
  {
    p := [];
    var rest := v.inodes.Keys;
    while rest != {}
      invariant rest <= v.inodes.Keys
      invariant p == [] <==> forall ino :: ino in v.inodes && ino !in rest ==> Reachable(v, ino) || LegitOrphan(v, ino)
      invariant forall q :: q in p <==> ReachWrong(v, q) && q.ino !in rest
      decreases rest
    {
      var ino :| ino in rest;
      rest := rest - {ino};
      if ino !in reached && !LegitOrphan(v, ino) {
        p := p + [Unreachable(ino)];
      }
    }
  }

  // ----- the checker -----

  datatype Report = Report(problems: Problems, bytesCounted: int, inodesCounted: int)

  /** What the problem says is so of the record it names. */
  ghost predicate Wrong(v: Volume, cs: nat, names: OpenName, q: Problem) {
    || RootWrong(v, q) || EntriesWrong(v, names, v.dirents.Keys, q) || IndexWrong(v, q)
    || InodesWrong(v, cs, v.inodes.Keys, q) || OwnerWrong(v, q) || ReachWrong(v, q)
  }

  /** No problem is reported if and only if the volume is clean, and each problem if and only if its own record is wrong
      in that way. */
  method Check(v: Volume, cs: nat, names: OpenName) returns (report: Report)
    requires cs > 0
    ensures report.problems == [] <==> Clean(v, cs, names)
    ensures forall q :: q in report.problems <==> Wrong(v, cs, names, q)
    ensures report.inodesCounted == |v.inodes|
    ensures report.bytesCounted == Sums.Sum(Recount(v, cs, v.inodes.Keys))
  {
    var root := CheckRoot(v);
    var dirents, links, dirs, children := ScanDirents(v, names);
    AllGathered(v, links, dirs, children);
    var index := ScanIndex(v);
    var inodes := ScanInodes(v, cs, links, dirs);
    var bytes := RecountBytes(v, cs);
    var owners := ScanOwners(v);
    var reached := Search(v, children);
    var reach := ScanReachable(v, reached);
    report := Report(root + dirents + index + inodes + owners + reach, bytes, |v.inodes|);
  }

  lemma AllGathered(v: Volume, links: map<nat, nat>, dirs: map<nat, nat>, children: map<nat, seq<nat>>)
    requires Gathered(v, v.dirents.Keys, links, dirs, children)
    ensures forall ino: nat :: Count(links, ino) == |Naming(v, ino)| && Count(dirs, ino) == |ChildDirs(v, ino)|
    ensures forall a: nat, b: nat :: b in Listed(children, a) <==> Edge(v, a, b)
  {
    forall ino: nat ensures Count(links, ino) == |Naming(v, ino)| && Count(dirs, ino) == |ChildDirs(v, ino)| {
      assert NamingIn(v, v.dirents.Keys, ino) == Naming(v, ino);
      assert ChildDirsIn(v, v.dirents.Keys, ino) == ChildDirs(v, ino);
    }
    forall a: nat, b: nat ensures b in Listed(children, a) <==> Edge(v, a, b) {
      assert b in Listed(children, a) <==> EdgeIn(v, v.dirents.Keys, a, b);
    }
  }
}
