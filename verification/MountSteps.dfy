/** What each operation of a mounted volume does to it (crates/slatefs-core/src/vfs_impl.rs; volume.rs, the reaper at
    mount), and whether the volume stays sound. Each batch is atomic; reaping and long truncates go on in batches
    after the first and can stop between any two. */
module MountSteps {
  import opened Common
  import opened Chunks
  import opened Data
  import opened Metadata
  import opened Entries
  import opened Namespace
  import opened Removal
  import opened Moving
  import opened Filesystem
  import opened Reaping
  import opened Renaming
  import opened Quota
  import FileContent

  /** What an operation meets: whether its batch is written, how many of the batches after it are, and the time. */
  datatype Fate = Fate(commits: bool, writes: nat, now: nat)

  /** Usage at the counters cannot grow by this much. */
  predicate Refused(limits: QuotaLimits, fs: Fs, bytes: int, inodes: int, now: nat) {
    || (bytes > 0 && ExceedsLimit(fs.counterBytes + bytes, limits.bytes, now))
    || (inodes > 0 && ExceedsLimit(fs.counterInodes + inodes, limits.inodes, now))
  }

  // ----- new names -----

  /** Name `k` leads to inode `ino`, which is of kind `kind`. */
  predicate Made(v: Volume, k: DirKey, ino: nat, kind: Kind) {
    true == (k in v.dirents && v.dirents[k].child == ino && ino in v.inodes && v.inodes[ino].kind == kind)
  }

  /** What a node starts as: a directory with its own two links and dirent ids from 3 on, or anything else with one. */
  predicate Blank(v: Volume, ino: nat, kind: Kind, parent: nat, size: nat) {
    true == (
      && ino in v.inodes
      && v.inodes[ino] == if kind.Dir? then Inode(kind, 2, 0, 3, 0, parent)
                          else Inode(kind, 1, if kind.Symlink? then size else 0, 3, 0, 0))
  }

  lemma MadeSound(c: Codec, cs: nat, fs: Fs, parent: nat, name: Name, kind: Kind, size: nat)
    requires Sound(c, cs, fs) && IsDir(fs.v, parent) && KeyOf(c, parent, name) !in fs.v.dirents
    ensures Sound(c, cs, Created(fs, c, parent, name, NewNode(kind, parent, size)))
    ensures fs.nextIno !in fs.v.inodes
  {
    CreatedKeeps(c, cs, fs, parent, name, NewNode(kind, parent, size));
  }

  lemma CreatedNode(c: Codec, fs: Fs, parent: nat, name: Name, i: Inode)
    requires parent in fs.v.inodes && fs.nextIno !in fs.v.inodes
    ensures Made(Created(fs, c, parent, name, i).v, KeyOf(c, parent, name), fs.nextIno, i.kind)
    ensures Created(fs, c, parent, name, i).v.inodes[fs.nextIno] == i
  {
  }

  /** Creating or linking adds exactly one name, which leads to the inode; no other name changes. */
  predicate AddsName(before: Volume, after: Volume, k: DirKey, child: nat) {
    k !in before.dirents && k in after.dirents && after.dirents[k].child == child && after.dirents - {k} == before.dirents
  }

  lemma CreatedNames(c: Codec, fs: Fs, parent: nat, name: Name, i: Inode)
    requires parent in fs.v.inodes && KeyOf(c, parent, name) !in fs.v.dirents
    ensures AddsName(fs.v, Created(fs, c, parent, name, i).v, KeyOf(c, parent, name), fs.nextIno)
  {
  }

  lemma LinkedNames(c: Codec, fs: Fs, ino: nat, parent: nat, name: Name)
    requires CanLink(fs.v, c, ino, parent, name)
    ensures AddsName(fs.v, Linked(fs, c, ino, parent, name).v, KeyOf(c, parent, name), ino)
  {
  }

  /** Removing a name removes only that name, and the inode exactly if it was the last name of a closed file. */
  lemma UnnamedNames(fs: Fs, k: DirKey, open: multiset<nat>)
    requires CanUnlink(fs.v, k)
    ensures var v := Unnamed(fs, k, fs.v.dirents[k].child in open).v;
      && v.dirents == fs.v.dirents - {k}
      && v.inodes.Keys == fs.v.inodes.Keys - if Dies(fs.v, k, open) then {fs.v.dirents[k].child} else {}
  {
  }

  lemma EmptiedNames(fs: Fs, k: DirKey)
    requires CanRmdir(fs.v, k)
    ensures var v := Emptied(fs, k).v;
      v.dirents == fs.v.dirents - {k} && v.inodes.Keys == fs.v.inodes.Keys - {fs.v.dirents[k].child}
  {
  }

  lemma SpentSound(c: Codec, cs: nat, fs: Fs)
    requires Sound(c, cs, fs)
    ensures Sound(c, cs, fs.(nextIno := fs.nextIno + 1))
  {
    assert Holdings(cs, fs.v, fs.nextIno + 1);
  }

  /** The directory exists and does not hold the name yet. */
  method NameFree(v: Volume, c: Codec, parent: nat, name: Name) returns (refused: Option<Error>)
    ensures refused == None <==> IsDir(v, parent) && KeyOf(c, parent, name) !in v.dirents
    ensures refused == Some(Stale) <==> parent !in v.inodes
    ensures refused == Some(NotDir) <==> parent in v.inodes && !IsDir(v, parent)
    ensures refused == Some(Exists) <==> IsDir(v, parent) && KeyOf(c, parent, name) in v.dirents
  {
    if parent !in v.inodes {
      return Some(Stale);
    }
    if !IsDir(v, parent) {
      return Some(NotDir);
    }
    if KeyOf(c, parent, name) in v.dirents {
      return Some(Exists);
    }
    return None;
  }

  predicate Free(fs: Fs, c: Codec, parent: nat, name: Name) {
    IsDir(fs.v, parent) && KeyOf(c, parent, name) !in fs.v.dirents
  }

  /** An inode number is taken, whatever becomes of the batch. */
  function Spent(fs: Fs): Fs { fs.(nextIno := fs.nextIno + 1) }

  /** mkdir, mknod, symlink, and create of a free name. */
  ghost predicate MakeStep(c: Codec, limits: QuotaLimits, fs: Fs, parent: nat, name: Name, kind: Kind, size: nat,
                           fate: Fate, fs': Fs, ok: bool) {
    true == (
      && (ok <==> Free(fs, c, parent, name) && !Refused(limits, fs, 0, 1, fate.now) && fate.commits)
      && fs' == (if ok then Created(fs, c, parent, name, NewNode(kind, parent, size))
                 else if Free(fs, c, parent, name) then Spent(fs) else fs))
  }

  lemma MakeStepSound(c: Codec, cs: nat, limits: QuotaLimits, fs: Fs, parent: nat, name: Name, kind: Kind, size: nat,
                      fate: Fate, fs': Fs, ok: bool)
    requires Sound(c, cs, fs) && MakeStep(c, limits, fs, parent, name, kind, size, fate, fs', ok)
    ensures Sound(c, cs, fs')
    ensures ok ==> fs.nextIno !in fs.v.inodes
    ensures ok ==> Made(fs'.v, KeyOf(c, parent, name), fs.nextIno, kind)
    ensures ok ==> Blank(fs'.v, fs.nextIno, kind, parent, size)
    ensures ok ==> AddsName(fs.v, fs'.v, KeyOf(c, parent, name), fs.nextIno)
  {
    SpentSound(c, cs, fs);
    if ok {
      MadeSound(c, cs, fs, parent, name, kind, size);
      CreatedNode(c, fs, parent, name, NewNode(kind, parent, size));
      CreatedNames(c, fs, parent, name, NewNode(kind, parent, size));
    }
  }

  /** create: a name that is taken opens its file unless it must be new. */
  ghost predicate CreateStep(c: Codec, limits: QuotaLimits, fs: Fs, parent: nat, name: Name, exclusive: bool, fate: Fate,
                             fs': Fs, ok: bool) {
    true == (
      var k := KeyOf(c, parent, name);
      if k in fs.v.dirents then fs' == fs && (ok <==> !exclusive && !IsDir(fs.v, fs.v.dirents[k].child))
      else MakeStep(c, limits, fs, parent, name, Kind.File, 0, fate, fs', ok))
  }

  lemma CreateStepSound(c: Codec, cs: nat, limits: QuotaLimits, fs: Fs, parent: nat, name: Name, exclusive: bool, fate: Fate,
                        fs': Fs, ok: bool)
    requires Sound(c, cs, fs) && CreateStep(c, limits, fs, parent, name, exclusive, fate, fs', ok)
    ensures Sound(c, cs, fs')
  {
    if KeyOf(c, parent, name) !in fs.v.dirents {
      MakeStepSound(c, cs, limits, fs, parent, name, Kind.File, 0, fate, fs', ok);
    }
  }

  ghost predicate LinkStep(c: Codec, fs: Fs, ino: nat, parent: nat, name: Name, fate: Fate, fs': Fs, ok: bool) {
    true == (
      && (ok <==> CanLink(fs.v, c, ino, parent, name) && fate.commits)
      && fs' == if ok then Linked(fs, c, ino, parent, name) else fs)
  }

  /** A link to a file that is open but has no name left. */
  predicate RevivesDead(fs: Fs, ino: nat) { ino in fs.v.inodes && fs.v.inodes[ino].nlink == 0 }

  lemma LinkStepSoundIff(c: Codec, cs: nat, fs: Fs, ino: nat, parent: nat, name: Name, fate: Fate, fs': Fs, ok: bool)
    requires Sound(c, cs, fs) && LinkStep(c, fs, ino, parent, name, fate, fs', ok)
    ensures Sound(c, cs, fs') <==> !(ok && RevivesDead(fs, ino))
    ensures Clean(fs'.v, cs, c.open)
    ensures ok ==> AddsName(fs.v, fs'.v, KeyOf(c, parent, name), ino)
  {
    if ok {
      LinkedKeepsIff(c, cs, fs, ino, parent, name);
      LinkedClean(c, cs, fs, ino, parent, name);
      LinkedNames(c, fs, ino, parent, name);
    } else {
      InvClean(c, cs, fs);
    }
  }

  // ----- removing names -----

  /** What follows the batch that removed a name: the data of a file that died is reaped. */
  ghost predicate Cleared(fs: Fs, ino: nat, dies: bool, writes: nat, fs': Fs, ok: bool) {
    true == (
      if dies then ReapedBy(fs, ino, writes, fs', ok) else fs' == fs && ok)
  }

  lemma ClearedSound(c: Codec, cs: nat, fs: Fs, ino: nat, dies: bool, writes: nat, fs': Fs, ok: bool)
    requires Sound(c, cs, fs) && Cleared(fs, ino, dies, writes, fs', ok)
    requires dies ==> ino in fs.v.orphans && ino !in fs.v.inodes
    ensures Sound(c, cs, fs')
  {
    if dies { ReapedKeeps(c, cs, fs, ino, writes, fs', ok); }
  }

  ghost predicate UnlinkStep(c: Codec, fs: Fs, open: multiset<nat>, parent: nat, name: Name, fate: Fate, fs': Fs,
                             ok: bool) {
    true == (
      var k := KeyOf(c, parent, name);
      if CanUnlink(fs.v, k) && fate.commits then
        var child := fs.v.dirents[k].child;
        Cleared(Unnamed(fs, k, child in open), child, Dies(fs.v, k, open), fate.writes, fs', ok)
      else fs' == fs && !ok)
  }

  lemma UnlinkStepSound(c: Codec, cs: nat, fs: Fs, open: multiset<nat>, parent: nat, name: Name, fate: Fate, fs': Fs,
                        ok: bool)
    requires Sound(c, cs, fs) && UnlinkStep(c, fs, open, parent, name, fate, fs', ok)
    ensures Sound(c, cs, fs')
  {
    var k := KeyOf(c, parent, name);
    if CanUnlink(fs.v, k) && fate.commits {
      var child := fs.v.dirents[k].child;
      UnnamedSound(c, cs, fs, k, open);
      ClearedSound(c, cs, Unnamed(fs, k, child in open), child, Dies(fs.v, k, open), fate.writes, fs', ok);
    }
  }

  lemma UnnamedSound(c: Codec, cs: nat, fs: Fs, k: DirKey, open: multiset<nat>)
    requires Sound(c, cs, fs) && CanUnlink(fs.v, k)
    ensures var fs1, child := Unnamed(fs, k, fs.v.dirents[k].child in open), fs.v.dirents[k].child;
      Sound(c, cs, fs1) && (Dies(fs.v, k, open) ==> child in fs1.v.orphans && child !in fs1.v.inodes)
  {
    UnnamedKeeps(c, cs, fs, k, fs.v.dirents[k].child in open);
  }

  ghost predicate RmdirStep(c: Codec, fs: Fs, parent: nat, name: Name, fate: Fate, fs': Fs, ok: bool) {
    true == (
      var k := KeyOf(c, parent, name);
      && (ok <==> CanRmdir(fs.v, k) && fate.commits)
      && fs' == if ok then Emptied(fs, k) else fs)
  }

  lemma RmdirStepSound(c: Codec, cs: nat, fs: Fs, parent: nat, name: Name, fate: Fate, fs': Fs, ok: bool)
    requires Sound(c, cs, fs) && RmdirStep(c, fs, parent, name, fate, fs', ok)
    ensures Sound(c, cs, fs')
  {
    if ok { EmptiedKeeps(c, cs, fs, KeyOf(c, parent, name)); }
  }

  /** rename: nothing to do between names of one inode; otherwise what the target name held is removed and the entry
      moves, in one batch. Moving a directory below itself is refused. */
  ghost predicate RenameStep(c: Codec, fs: Fs, open: multiset<nat>, parent: nat, name: Name, newParent: nat,
                             newName: Name, fate: Fate, fs': Fs, ok: bool) {
    true == (
      var src, dst := KeyOf(c, parent, name), KeyOf(c, newParent, newName);
      if Distinct(fs.v, src, dst) && CanRename(fs.v, c, src, newParent, newName) && fate.commits then
        && Movable(fs, c, src, newParent, newName, Held(fs, dst, open))
        && Cleared(MovedOver(fs, c, src, newParent, newName, Held(fs, dst, open)), Target(fs, dst),
                   Dies(fs.v, dst, open), fate.writes, fs', ok)
      else fs' == fs && (ok <==> src in fs.v.dirents && !Distinct(fs.v, src, dst)))
  }

  lemma RenameStepSound(c: Codec, cs: nat, fs: Fs, open: multiset<nat>, parent: nat, name: Name, newParent: nat,
                        newName: Name, fate: Fate, fs': Fs, ok: bool)
    requires Sound(c, cs, fs) && RenameStep(c, fs, open, parent, name, newParent, newName, fate, fs', ok)
    ensures Sound(c, cs, fs')
  {
    var src, dst := KeyOf(c, parent, name), KeyOf(c, newParent, newName);
    if Distinct(fs.v, src, dst) && CanRename(fs.v, c, src, newParent, newName) && fate.commits {
      MovedOverSound(c, cs, fs, src, newParent, newName, open);
      ClearedSound(c, cs, MovedOver(fs, c, src, newParent, newName, Held(fs, dst, open)), Target(fs, dst),
                   Dies(fs.v, dst, open), fate.writes, fs', ok);
    }
  }

  lemma MovedOverSound(c: Codec, cs: nat, fs: Fs, src: DirKey, parent: nat, name: Name, open: multiset<nat>)
    requires Sound(c, cs, fs) && CanRename(fs.v, c, src, parent, name) && Distinct(fs.v, src, KeyOf(c, parent, name))
    ensures var dst := KeyOf(c, parent, name);
      && Movable(fs, c, src, parent, name, Held(fs, dst, open))
      && var fs1 := MovedOver(fs, c, src, parent, name, Held(fs, dst, open));
        && Sound(c, cs, fs1)
        && (Dies(fs.v, dst, open) ==> Target(fs, dst) in fs1.v.orphans && Target(fs, dst) !in fs1.v.inodes)
  {
    RenameSound(c, cs, fs, src, parent, name, Held(fs, KeyOf(c, parent, name), open));
    if Dies(fs.v, KeyOf(c, parent, name), open) { DiesOrphaned(c, fs, src, parent, name, open); }
  }

  // ----- settling what was unlinked while open -----

  /** finish_orphan: the record if it is still there, then the data. */
  ghost predicate SettledBy(fs: Fs, ino: nat, fate: Fate, fs': Fs, ok: bool) {
    true == (
      if ino in fs.v.inodes && !fate.commits then fs' == fs && !ok
      else ReapedBy(Dropped(fs, ino), ino, fate.writes, fs', ok))
  }

  method SettleFile(fs: Fs, ino: nat, fate: Fate) returns (fs': Fs, ok: bool)
    ensures SettledBy(fs, ino, fate, fs', ok)
  {
    if ino in fs.v.inodes && !fate.commits {
      return fs, false;
    }
    fs', ok := ReapData(Dropped(fs, ino), ino, fate.writes);
  }

  lemma SettledSound(c: Codec, cs: nat, fs: Fs, ino: nat, fate: Fate, fs': Fs, ok: bool)
    requires Sound(c, cs, fs) && ino in fs.v.orphans && SettledBy(fs, ino, fate, fs', ok)
    ensures Sound(c, cs, fs')
  {
    if !(ino in fs.v.inodes && !fate.commits) {
      DroppedKeeps(c, cs, fs, ino);
      ReapedKeeps(c, cs, Dropped(fs, ino), ino, fate.writes, fs', ok);
    }
  }

  /** close: the last handle of an unlinked file settles it. */
  ghost predicate CloseStep(fs: Fs, open: multiset<nat>, ino: nat, fate: Fate, fs': Fs, open': multiset<nat>, ok: bool) {
    true == (
      && open' == open - multiset{ino}
      && if ino in open && ino !in open' && ino in fs.v.orphans then SettledBy(fs, ino, fate, fs', ok)
         else fs' == fs && (ok <==> ino in open))
  }

  lemma CloseStepSound(c: Codec, cs: nat, fs: Fs, open: multiset<nat>, ino: nat, fate: Fate, fs': Fs, open': multiset<nat>,
                       ok: bool)
    requires Sound(c, cs, fs) && CloseStep(fs, open, ino, fate, fs', open', ok)
    ensures Sound(c, cs, fs')
  {
    if ino in open && ino !in open' && ino in fs.v.orphans { SettledSound(c, cs, fs, ino, fate, fs', ok); }
  }

  /** `v'` is `v` but for what belongs to `ino`, and if `ok` nothing belongs to it any more. */
  ghost predicate OnlyChanged(v: Volume, v': Volume, ino: nat, ok: bool) {
    true == (
      && v'.dirents == v.dirents && v'.idx == v.idx && v'.orphans == (if ok then v.orphans - {ino} else v.orphans)
      && v'.inodes - {ino} == v.inodes - {ino} && v'.chunks - {ino} == v.chunks - {ino}
      && v'.symlinks - {ino} == v.symlinks - {ino}
      && (ok ==> ino !in v'.inodes && ino !in v'.chunks && ino !in v'.symlinks))
  }

  lemma SettledOnly(fs: Fs, ino: nat, fate: Fate, fs': Fs, ok: bool)
    requires SettledBy(fs, ino, fate, fs', ok)
    ensures fs'.nextIno == fs.nextIno && OnlyChanged(fs.v, fs'.v, ino, ok)
    ensures fs'.v.inodes.Keys <= fs.v.inodes.Keys && fs'.v.chunks.Keys <= fs.v.chunks.Keys
    ensures fs'.v.symlinks <= fs.v.symlinks
  {
    if !(ino in fs.v.inodes && !fate.commits) {
      DroppedOnly(fs.v, ino);
      ReapedOnly(Dropped(fs, ino).v, ino, fs'.v, ok);
    }
  }

  lemma DroppedOnly(v: Volume, ino: nat)
    ensures OnlyChanged(v, DropInode(v, ino), ino, false) && ino !in DropInode(v, ino).inodes
    ensures DropInode(v, ino).inodes.Keys <= v.inodes.Keys
  {
  }

  lemma ReapedOnly(v: Volume, ino: nat, v': Volume, ok: bool)
    requires ReapedOr(v, ino, v', ok) && ino !in v.inodes
    ensures OnlyChanged(v, v', ino, ok)
    ensures v'.inodes == v.inodes && v'.chunks.Keys <= v.chunks.Keys && v'.symlinks <= v.symlinks
  {
    if !ok { assert v'.chunks - {ino} == v.chunks - {ino}; }
  }

  lemma MinusMore<V>(m: map<nat, V>, m1: map<nat, V>, m2: map<nat, V>, ino: nat, s: set<nat>)
    requires m1 - s == m - s && m2 - {ino} == m1 - {ino} && ino in s
    ensures m2 - s == m - s
  {
    assert m2 - s == (m2 - {ino}) - s;
    assert m1 - s == (m1 - {ino}) - s;
  }

  /** reap_crashed_orphans: the orphans in ascending order, up to the first that cannot be settled. */
  ghost predicate MountStep(fs: Fs, todo: set<nat>, fates: nat -> Fate, fs': Fs, ok: bool)
    decreases todo
  {
    if todo == {} then fs' == fs && ok
    else exists ino: nat, fs1: Fs, done: bool ::
      && SettledBy(fs, ino, fates(ino), fs1, done) && IsNext(todo, 0, Some(ino))
      && if done then MountStep(fs1, todo - {ino}, fates, fs', ok) else fs' == fs1 && !ok
  }

  method ReapOrphans(fs: Fs, fates: nat -> Fate) returns (fs': Fs, ok: bool)
    ensures MountStep(fs, fs.v.orphans, fates, fs', ok)
  {
    var todo := fs.v.orphans;
    var next: Option<nat> := ScanNext(todo, 0);
    fs', ok := fs, true;
    while next.Some?
      invariant ok && IsNext(todo, 0, next)
      invariant forall fs2, ok2 ::
        MountStep(fs', todo, fates, fs2, ok2) ==> MountStep(fs, fs.v.orphans, fates, fs2, ok2)
      decreases todo
    {
      var ino, before := next.value, fs';
      fs', ok := SettleFile(before, ino, fates(ino));
      if !ok {
        assert MountStep(before, todo, fates, fs', false);
        return;
      }
      todo := todo - {ino};
      next := ScanNext(todo, 0);
    }
    assert todo == {};
  }

  lemma {:induction false} MountStepSound(c: Codec, cs: nat, fs: Fs, todo: set<nat>, fates: nat -> Fate, fs': Fs, ok: bool)
    requires Sound(c, cs, fs) && todo <= fs.v.orphans && MountStep(fs, todo, fates, fs', ok)
    ensures Sound(c, cs, fs')
    decreases todo
  {
    if todo != {} {
      var ino, fs1, done :| SettledBy(fs, ino, fates(ino), fs1, done) && IsNext(todo, 0, Some(ino)) &&
                            if done then MountStep(fs1, todo - {ino}, fates, fs', ok) else fs' == fs1 && !ok;
      SettledSound(c, cs, fs, ino, fates(ino), fs1, done);
      SettledOnly(fs, ino, fates(ino), fs1, done);
      if done { MountStepSound(c, cs, fs1, todo - {ino}, fates, fs', ok); }
    }
  }

  /** Only what belongs to `todo` changes, and a marker goes only with all that belongs to it. The reaper gets through
      if and only if every marker in `todo` is gone. */
  ghost predicate OrphansSettled(v: Volume, todo: set<nat>, v': Volume, ok: bool) {
    true == (
      && v'.dirents == v.dirents && v'.idx == v.idx && v.orphans - todo <= v'.orphans <= v.orphans
      && v'.inodes - todo == v.inodes - todo && v'.chunks - todo == v.chunks - todo
      && v'.symlinks - todo == v.symlinks - todo
      && v'.inodes.Keys <= v.inodes.Keys && v'.chunks.Keys <= v.chunks.Keys && v'.symlinks <= v.symlinks
      && v'.inodes.Keys !! v.orphans - v'.orphans && v'.chunks.Keys !! v.orphans - v'.orphans
      && v'.symlinks !! v.orphans - v'.orphans
      && (ok <==> v'.orphans == v.orphans - todo))
  }

  lemma {:induction false} MountStepSettles(fs: Fs, todo: set<nat>, fates: nat -> Fate, fs': Fs, ok: bool)
    requires todo <= fs.v.orphans && MountStep(fs, todo, fates, fs', ok)
    ensures OrphansSettled(fs.v, todo, fs'.v, ok)
    decreases todo
  {
    if todo != {} {
      var ino, fs1, done :| SettledBy(fs, ino, fates(ino), fs1, done) && IsNext(todo, 0, Some(ino)) &&
                            if done then MountStep(fs1, todo - {ino}, fates, fs', ok) else fs' == fs1 && !ok;
      SettledOnly(fs, ino, fates(ino), fs1, done);
      if done {
        MountStepSettles(fs1, todo - {ino}, fates, fs', ok);
        OrphansSettledMore(fs.v, todo, ino, fs1.v, fs'.v, ok);
      } else {
        StoppedSettles(fs.v, todo, ino, fs1.v);
      }
    }
  }

  lemma StoppedSettles(v: Volume, todo: set<nat>, ino: nat, v': Volume)
    requires ino in todo && todo <= v.orphans && OnlyChanged(v, v', ino, false)
    requires v'.inodes.Keys <= v.inodes.Keys && v'.chunks.Keys <= v.chunks.Keys && v'.symlinks <= v.symlinks
    ensures OrphansSettled(v, todo, v', false)
  {
    MinusMore(v.inodes, v.inodes, v'.inodes, ino, todo);
    MinusMore(v.chunks, v.chunks, v'.chunks, ino, todo);
    assert v'.symlinks - todo == v'.symlinks - {ino} - todo && v.symlinks - todo == v.symlinks - {ino} - todo;
  }

  lemma OrphansSettledMore(v: Volume, todo: set<nat>, ino: nat, v1: Volume, v': Volume, ok: bool)
    requires ino in todo && todo <= v.orphans && OnlyChanged(v, v1, ino, true) && OrphansSettled(v1, todo - {ino}, v', ok)
    requires v1.inodes.Keys <= v.inodes.Keys && v1.chunks.Keys <= v.chunks.Keys && v1.symlinks <= v.symlinks
    ensures OrphansSettled(v, todo, v', ok)
  {
    MinusBoth(v.inodes, v1.inodes, v'.inodes, ino, todo);
    MinusBoth(v.chunks, v1.chunks, v'.chunks, ino, todo);
    assert v1.orphans - (todo - {ino}) == v.orphans - todo;
    assert v.symlinks - todo == v.symlinks - {ino} - todo && v1.symlinks - todo == v1.symlinks - {ino} - todo;
    assert v'.symlinks - todo == v'.symlinks - (todo - {ino}) - todo;
    assert v1.symlinks - todo == v1.symlinks - (todo - {ino}) - todo;
  }

  lemma MinusBoth<V>(m: map<nat, V>, m1: map<nat, V>, m2: map<nat, V>, ino: nat, s: set<nat>)
    requires m1 - {ino} == m - {ino} && m2 - (s - {ino}) == m1 - (s - {ino}) && ino in s
    ensures m2 - s == m - s
  {
    assert m1 - s == m1 - {ino} - s && m - s == m - {ino} - s;
    assert m2 - s == m2 - (s - {ino}) - s && m1 - s == m1 - (s - {ino}) - s;
  }

  // ----- content -----

  function FileOf(v: Volume, ino: nat): FileContent.File
    requires ino in v.inodes
  {
    FileContent.File(v.inodes[ino].size, v.inodes[ino].billedBytes, ChunksOf(v, ino))
  }

  /** The batch of a write or a truncate: record, chunks and counter. */
  function Stored(fs: Fs, ino: nat, f: FileContent.File): Fs
    requires ino in fs.v.inodes
  {
    Rewritten(fs, ino, f.size, if f.billed < 0 then 0 else f.billed, f.chunks)
  }

  predicate IsFile(v: Volume, ino: nat) { ino in v.inodes && v.inodes[ino].kind == Kind.File }

  /** The largest file: one chunk less than indices can count. */
  function MaxFile(cs: nat): nat { cs * (INDEX_LIMIT - 1) }

  ghost predicate WriteStep(cs: nat, limits: QuotaLimits, fs: Fs, ino: nat, offset: nat, data: seq<byte>, fate: Fate,
                            fs': Fs, ok: bool) {
    true == (
      if data == [] then fs' == fs && ok
      else if offset + |data| > MaxFile(cs) || !IsFile(fs.v, ino) then fs' == fs && !ok
      else
        var f := FileContent.Written(cs, FileOf(fs.v, ino), offset, data);
        && (ok <==> !Refused(limits, fs, f.billed - fs.v.inodes[ino].billedBytes, 0, fate.now) && fate.commits)
        && fs' == if ok then Stored(fs, ino, f) else fs)
  }

  /** setattr of the size. Quota never refuses it. A truncate whose later batches fail has already happened. */
  ghost predicate SizeStep(cs: nat, fs: Fs, ino: nat, newSize: nat, fate: Fate, fs': Fs, ok: bool) {
    true == (
      if !IsFile(fs.v, ino) || !fate.commits then fs' == fs && !ok
      else if newSize == fs.v.inodes[ino].size then fs' == fs && ok
      else
        var f := FileContent.Resized(cs, FileOf(fs.v, ino), newSize, fate.writes);
        && fs' == Stored(fs, ino, f)
        && (ok <==> newSize > fs.v.inodes[ino].size || forall k :: k in f.chunks ==> Start(cs, k) < newSize))
  }

  /** A write that leaves a gap over a leftover chunk. */
  predicate WriteRevives(cs: nat, fs: Fs, ino: nat, offset: nat, data: seq<byte>) {
    && data != [] && IsFile(fs.v, ino)
    && FileContent.Revives(cs, FileOf(fs.v, ino), Max(fs.v.inodes[ino].size, offset + |data|), offset, offset + |data|)
  }

  /** A growth over a leftover chunk. */
  predicate GrowRevives(cs: nat, fs: Fs, ino: nat, newSize: nat) {
    && IsFile(fs.v, ino) && newSize > fs.v.inodes[ino].size
    && FileContent.Revives(cs, FileOf(fs.v, ino), newSize, 0, 0)
  }

  lemma FileSound(c: Codec, cs: nat, fs: Fs, ino: nat)
    requires Sound(c, cs, fs) && ino in fs.v.inodes
    ensures var f := FileOf(fs.v, ino);
      cs > 0 && Tidy(f.size, cs, f.chunks) && Sized(cs, f.chunks) && FileContent.Exact(cs, f)
  {
    assert FileOk(fs.v, cs, ino);
  }

  /** A content batch whose bill is exact keeps the volume sound; any other is found by the checker. */
  lemma StoredSoundIff(c: Codec, cs: nat, fs: Fs, ino: nat, f: FileContent.File)
    requires Sound(c, cs, fs) && IsFile(fs.v, ino) && f.billed >= 0
    requires FileContent.Exact(cs, f) ==> Tidy(f.size, cs, f.chunks)
    ensures Sound(c, cs, Stored(fs, ino, f)) <==> FileContent.Exact(cs, f)
    ensures Clean(Stored(fs, ino, f).v, cs, c.open) <==> FileContent.Exact(cs, f)
  {
    var fs' := Stored(fs, ino, f);
    if FileContent.Exact(cs, f) {
      RewrittenKeeps(c, cs, fs, ino, f.size, f.billed, f.chunks);
      InvClean(c, cs, fs');
    } else {
      Misbilled(cs, fs'.v, ino, f);
      if Sound(c, cs, fs') { InvClean(c, cs, fs'); }
    }
  }

  lemma Misbilled(cs: nat, v: Volume, ino: nat, f: FileContent.File)
    requires ino in v.inodes && FileOf(v, ino) == f && !FileContent.Exact(cs, f)
    ensures forall names: OpenName :: !Clean(v, cs, names)
  {
    assert !BillOk(v, cs, ino);
  }

  lemma WriteStepSoundIff(c: Codec, cs: nat, limits: QuotaLimits, fs: Fs, ino: nat, offset: nat, data: seq<byte>, fate: Fate,
                          fs': Fs, ok: bool)
    requires Sound(c, cs, fs) && WriteStep(cs, limits, fs, ino, offset, data, fate, fs', ok)
    ensures Sound(c, cs, fs') <==> !(ok && WriteRevives(cs, fs, ino, offset, data))
    ensures Clean(fs'.v, cs, c.open) <==> !(ok && WriteRevives(cs, fs, ino, offset, data))
  {
    InvClean(c, cs, fs);
    if ok && data != [] {
      FileSound(c, cs, fs, ino);
      var f := FileContent.Written(cs, FileOf(fs.v, ino), offset, data);
      FileContent.WrittenExactIff(cs, FileOf(fs.v, ino), offset, data);
      WrittenBilled(cs, FileOf(fs.v, ino), offset, data);
      StoredSoundIff(c, cs, fs, ino, f);
    }
  }

  lemma WrittenBilled(cs: nat, f: FileContent.File, offset: nat, data: seq<byte>)
    requires FileContent.Exact(cs, f)
    ensures FileContent.Written(cs, f, offset, data).billed >= 0
  {
  }

  lemma ResizedBilled(cs: nat, f: FileContent.File, newSize: nat, groups: nat)
    requires cs > 0 && Tidy(f.size, cs, f.chunks) && FileContent.Exact(cs, f)
    ensures 0 <= FileContent.Resized(cs, f, newSize, groups).billed <= f.billed
  {
    if newSize < f.size { FileContent.ShrunkReads(cs, f, newSize, groups); }
  }

  lemma SizeStepSoundIff(c: Codec, cs: nat, fs: Fs, ino: nat, newSize: nat, fate: Fate, fs': Fs, ok: bool)
    requires Sound(c, cs, fs) && SizeStep(cs, fs, ino, newSize, fate, fs', ok)
    ensures Sound(c, cs, fs') <==> !(ok && GrowRevives(cs, fs, ino, newSize))
    ensures Clean(fs'.v, cs, c.open) <==> !(ok && GrowRevives(cs, fs, ino, newSize))
  {
    InvClean(c, cs, fs);
    if IsFile(fs.v, ino) && fate.commits && newSize != fs.v.inodes[ino].size {
      FileSound(c, cs, fs, ino);
      var f := FileOf(fs.v, ino);
      if newSize > f.size {
        FileContent.GrownExactIff(cs, f, newSize);
      } else {
        FileContent.ShrunkReads(cs, f, newSize, fate.writes);
      }
      StoredSoundIff(c, cs, fs, ino, FileContent.Resized(cs, f, newSize, fate.writes));
    }
  }

  // ----- a dead file with a new name -----

  /** A link to a dead file is not noticed at once: the volume it leaves is still clean. */
  lemma LinkedClean(c: Codec, cs: nat, fs: Fs, ino: nat, parent: nat, name: Name)
    requires Sound(c, cs, fs) && CanLink(fs.v, c, ino, parent, name)
    ensures Clean(Linked(fs, c, ino, parent, name).v, cs, c.open)
  {
    var v' := Link(fs.v, c, ino, parent, name);
    LinkShape(c, fs.v, ino, parent, name);
    LinkBills(cs, fs.v, c, ino, parent, name);
    LinkRoot(fs.v, fs.nextIno, c, ino, parent, name);
    LinkOrphansIff(fs.v, c, ino, parent, name);
    ShapeReachOk(c, v');
    EntriesDirentsOk(c, v');
    ExactLinksOk(v', cs);
    OwnedOwners(v');
  }

  lemma OwnedOwners(v: Volume)
    requires Owned(v)
    ensures OwnersOk(v)
  {
  }

  /** The last close of a file, and likewise a crash and the next mount: settles it if its marker is there. */
  function AfterLastClose(fs: Fs, ino: nat): Fs {
    if ino in fs.v.orphans then Dropped(fs, ino).(v := Reap(Dropped(fs, ino).v, ino)) else fs
  }

  /** When the last handle closes the volume is clean if and only if the linked file still had a name: otherwise the
      marker stays, the inode goes, and the checker finds that the new entry dangles. */
  lemma LinkedThenClosedIff(c: Codec, cs: nat, fs: Fs, ino: nat, parent: nat, name: Name)
    requires Sound(c, cs, fs) && CanLink(fs.v, c, ino, parent, name)
    ensures var fs' := AfterLastClose(Linked(fs, c, ino, parent, name), ino);
      Clean(fs'.v, cs, c.open) <==> fs.v.inodes[ino].nlink > 0
  {
    var fs1 := Linked(fs, c, ino, parent, name);
    assert LinkExact(fs.v, ino);
    if fs.v.inodes[ino].nlink > 0 {
      assert ino !in fs1.v.orphans;
      LinkedClean(c, cs, fs, ino, parent, name);
    } else {
      assert ino in fs1.v.orphans && KeyOf(c, parent, name) in fs1.v.dirents;
      Dangles(AfterLastClose(fs1, ino).v, cs, KeyOf(c, parent, name));
    }
  }

  lemma LinkRevives(c: Codec, cs: nat, fs: Fs, ino: nat, parent: nat, name: Name, fate: Fate, fs': Fs)
    requires Sound(c, cs, fs) && LinkStep(c, fs, ino, parent, name, fate, fs', true) && RevivesDead(fs, ino)
    ensures !Clean(AfterLastClose(fs', ino).v, cs, c.open)
  {
    LinkedThenClosedIff(c, cs, fs, ino, parent, name);
  }

  lemma Dangles(v: Volume, cs: nat, k: DirKey)
    requires k in v.dirents && v.dirents[k].child !in v.inodes
    ensures forall names: OpenName :: !Clean(v, cs, names)
  {
    forall names: OpenName ensures !Clean(v, cs, names) { assert !DirentOk(v, names, k); }
  }
}
