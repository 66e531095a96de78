/** The checks and the batch of `rename` (crates/slatefs-core/src/vfs_impl.rs). */
module Renaming {
  import opened Common
  import opened Metadata
  import opened FsckSound
  import opened Entries
  import opened Namespace
  import opened Removal
  import opened Moving
  import opened Filesystem

  /** A rename that the checks let through. */
  ghost predicate CanRename(v: Volume, c: Codec, src: DirKey, parent: nat, name: Name) {
    var dst := KeyOf(c, parent, name);
    && src in v.dirents && IsDir(v, parent)
    && (IsDir(v, v.dirents[src].child) && src.parent != parent ==> !Below(v, parent, v.dirents[src].child))
    && (dst in v.dirents ==>
      && IsDir(v, v.dirents[dst].child) == IsDir(v, v.dirents[src].child)
      && (IsDir(v, v.dirents[dst].child) ==> EntriesIn(v, v.dirents[dst].child) == {}))
  }

  /** The chunk size is positive, names open to what was sealed, and the namespace invariant holds. */
  ghost predicate Sound(c: Codec, cs: nat, fs: Fs) { true == (cs > 0 && GoodCodec(c) && Inv(c, cs, fs)) }

  /** Whether removing name `k` also removes the file. */
  predicate Dies(v: Volume, k: DirKey, open: multiset<nat>) {
    && k in v.dirents && v.dirents[k].child in v.inodes && !IsDir(v, v.dirents[k].child)
    && v.inodes[v.dirents[k].child].nlink == 1 && v.dirents[k].child !in open
  }

  lemma EntryFound(c: Codec, cs: nat, fs: Fs, k: DirKey)
    requires Sound(c, cs, fs) && k in fs.v.dirents
    ensures fs.v.dirents[k].child in fs.v.inodes
  {
    assert EntryOk(fs.v, c, k);
  }

  function Target(fs: Fs, dst: DirKey): nat { if dst in fs.v.dirents then fs.v.dirents[dst].child else 0 }

  /** Whether a handle keeps what the target name holds. */
  predicate Held(fs: Fs, dst: DirKey, open: multiset<nat>) { Target(fs, dst) in open }

  /** The two names lead to different inodes. */
  predicate Distinct(v: Volume, src: DirKey, dst: DirKey) {
    src in v.dirents && (dst in v.dirents ==> v.dirents[dst].child != v.dirents[src].child)
  }

  /** The move would put a directory below itself. */
  ghost predicate Cyclic(v: Volume, src: DirKey, parent: nat)
    requires src in v.dirents
  {
    IsDir(v, parent) && Reparents(v, src, parent) && Below(v, parent, v.dirents[src].child)
  }

  /** The move is refused with this error. */
  ghost predicate RenameRefused(v: Volume, c: Codec, src: DirKey, parent: nat, name: Name, e: Error)
    requires src in v.dirents
  {
    var dst, dir := KeyOf(c, parent, name), IsDir(v, v.dirents[src].child);
    var onto := IsDir(v, parent) && !Cyclic(v, src, parent) && dst in v.dirents;
    match e
    case Stale => parent !in v.inodes
    case NotDir => (parent in v.inodes && !IsDir(v, parent)) || (onto && dir && !IsDir(v, v.dirents[dst].child))
    case Invalid => Cyclic(v, src, parent)
    case IsDirectory => onto && !dir && IsDir(v, v.dirents[dst].child)
    case NotEmpty => onto && dir && IsDir(v, v.dirents[dst].child) && EntriesIn(v, v.dirents[dst].child) != {}
    case _ => false
  }

  /** The checks of `rename` in their order, once the source is known and differs from the target. */
  method CheckRename(c: Codec, cs: nat, fs: Fs, src: DirKey, parent: nat, name: Name) returns (refused: Option<Error>)
    requires Sound(c, cs, fs) && src in fs.v.dirents
    ensures refused == None <==> CanRename(fs.v, c, src, parent, name)
    ensures forall e :: refused == Some(e) <==> RenameRefused(fs.v, c, src, parent, name, e)
  {
    if parent !in fs.v.inodes {
      return Some(Stale);
    }
    if !IsDir(fs.v, parent) {
      return Some(NotDir);
    }
    var child, dst := fs.v.dirents[src].child, KeyOf(c, parent, name);
    if Reparents(fs.v, src, parent) {
      SourceOk(c, cs, fs, src);
      ghost var up: nat :| Rooted(fs.v, parent, up);
      BelowIff(fs.v, parent, up, child);
      var found := FindAbove(fs.v, parent, child, up);
      if found {
        return Some(Error.Invalid);
      }
    }
    refused := if dst in fs.v.dirents then CheckTarget(fs.v, IsDir(fs.v, child), fs.v.dirents[dst].child) else None;
  }

  /** What the target name holds must be of the moved kind, and empty if a directory. */
  function CheckTarget(v: Volume, dir: bool, target: nat): (refused: Option<Error>)
    ensures refused == None <==> IsDir(v, target) == dir && (dir ==> EntriesIn(v, target) == {})
    ensures refused == Some(NotDir) <==> dir && !IsDir(v, target)
    ensures refused == Some(IsDirectory) <==> !dir && IsDir(v, target)
    ensures refused == Some(NotEmpty) <==> dir && IsDir(v, target) && EntriesIn(v, target) != {}
  {
    if dir && !IsDir(v, target) then Some(NotDir)
    else if !dir && IsDir(v, target) then Some(IsDirectory)
    else if dir && EntriesIn(v, target) != {} then Some(NotEmpty)
    else None
  }

  lemma CanRenameReplace(c: Codec, cs: nat, fs: Fs, src: DirKey, parent: nat, name: Name)
    requires Sound(c, cs, fs) && CanRename(fs.v, c, src, parent, name)
    ensures CanReplace(fs.v, KeyOf(c, parent, name))
  {
    var dst := KeyOf(c, parent, name);
    if dst in fs.v.dirents {
      if IsDir(fs.v, fs.v.dirents[dst].child) {
        EmptyCanRmdir(fs.v, c, dst);
      } else {
        NamedCanUnlink(fs.v, c, dst);
      }
    }
  }

  /** How high the target hangs when a directory changes parents; the walk has shown it avoids the moved one. */
  lemma NotBelowHeight(c: Codec, cs: nat, fs: Fs, src: DirKey, parent: nat, name: Name) returns (up: nat)
    requires Sound(c, cs, fs) && CanRename(fs.v, c, src, parent, name)
    ensures NotBelow(fs.v, src, parent, up) && fs.v.dirents[src].child != parent
  {
    SourceOk(c, cs, fs, src);
    up :| Rooted(fs.v, parent, up);
    BelowIff(fs.v, parent, up, fs.v.dirents[src].child);
  }

  /** Once the target name is cleared the move goes through. */
  predicate Movable(fs: Fs, c: Codec, src: DirKey, parent: nat, name: Name, held: bool) {
    var dst := KeyOf(c, parent, name);
    true == (CanReplace(fs.v, dst) && CanMove(Replaced(fs, dst, held).v, c, src, parent, name))
  }

  /** The whole batch of a rename: the target name loses what it held, then the entry moves there. */
  function MovedOver(fs: Fs, c: Codec, src: DirKey, parent: nat, name: Name, held: bool): Fs
    requires Movable(fs, c, src, parent, name, held)
  {
    Renamed(Replaced(fs, KeyOf(c, parent, name), held), c, src, parent, name)
  }

  lemma ClearedMoves(c: Codec, cs: nat, v: Volume, fs1: Fs, src: DirKey, parent: nat, name: Name)
    requires IsDir(v, parent) && Distinct(v, src, KeyOf(c, parent, name)) && v.dirents[src].child != parent
    requires CanReplace(v, KeyOf(c, parent, name)) && WithoutEntry(v, KeyOf(c, parent, name), fs1.v)
    requires Sound(c, cs, fs1)
    ensures CanMove(fs1.v, c, src, parent, name)
  {
    ParentStays(v, KeyOf(c, parent, name), fs1.v);
    ReplacedCanMove(c, cs, v, fs1, src, parent, name);
  }

  lemma ClearedNotBelow(c: Codec, cs: nat, fs: Fs, fs1: Fs, src: DirKey, parent: nat, name: Name, up: nat)
    requires Sound(c, cs, fs) && IsDir(fs.v, parent)
    requires Distinct(fs.v, src, KeyOf(c, parent, name)) && CanReplace(fs.v, KeyOf(c, parent, name))
    requires WithoutEntry(fs.v, KeyOf(c, parent, name), fs1.v) && src in fs1.v.dirents && NotBelow(fs.v, src, parent, up)
    ensures NotBelow(fs1.v, src, parent, up)
  {
    EntryFound(c, cs, fs, src);
    DirsEntered(fs.v, c);
    NotBelowStays(fs.v, fs1.v, KeyOf(c, parent, name), src, up, fs.nextIno);
  }

  lemma RenameMovable(c: Codec, cs: nat, fs: Fs, src: DirKey, parent: nat, name: Name, held: bool) returns (up: nat)
    requires Sound(c, cs, fs) && CanRename(fs.v, c, src, parent, name) && Distinct(fs.v, src, KeyOf(c, parent, name))
    ensures CanReplace(fs.v, KeyOf(c, parent, name))
    ensures var fs1 := Replaced(fs, KeyOf(c, parent, name), held);
      Sound(c, cs, fs1) && CanMove(fs1.v, c, src, parent, name) && NotBelow(fs1.v, src, parent, up)
  {
    var dst := KeyOf(c, parent, name);
    CanRenameReplace(c, cs, fs, src, parent, name);
    up := NotBelowHeight(c, cs, fs, src, parent, name);
    var fs1 := Replaced(fs, dst, held);
    ReplacedSound(c, cs, fs, dst, held);
    ReplacedWithout(fs, dst, held);
    ClearedMoves(c, cs, fs.v, fs1, src, parent, name);
    ClearedNotBelow(c, cs, fs, fs1, src, parent, name, up);
  }

  lemma ReplacedSound(c: Codec, cs: nat, fs: Fs, dst: DirKey, held: bool)
    requires Sound(c, cs, fs) && CanReplace(fs.v, dst)
    ensures Sound(c, cs, Replaced(fs, dst, held))
  {
    ReplacedKeeps(c, cs, fs, dst, held);
  }

  lemma RenamedSound(c: Codec, cs: nat, fs: Fs, src: DirKey, parent: nat, name: Name, up: nat)
    requires Sound(c, cs, fs) && CanMove(fs.v, c, src, parent, name) && NotBelow(fs.v, src, parent, up)
    ensures Sound(c, cs, Renamed(fs, c, src, parent, name))
  {
    RenamedKeeps(c, cs, fs, src, parent, name, up);
  }

  /** A rename that passes its checks keeps the volume sound. */
  lemma RenameSound(c: Codec, cs: nat, fs: Fs, src: DirKey, parent: nat, name: Name, held: bool)
    requires Sound(c, cs, fs) && CanRename(fs.v, c, src, parent, name) && Distinct(fs.v, src, KeyOf(c, parent, name))
    ensures Movable(fs, c, src, parent, name, held) && Sound(c, cs, MovedOver(fs, c, src, parent, name, held))
  {
    var up := RenameMovable(c, cs, fs, src, parent, name, held);
    RenamedSound(c, cs, Replaced(fs, KeyOf(c, parent, name), held), src, parent, name, up);
  }

  /** A lookup of the new name finds what the old name led to, the old name is gone, and no other name changes. */
  lemma RenamedNames(fs: Fs, c: Codec, src: DirKey, parent: nat, name: Name, held: bool)
    requires Movable(fs, c, src, parent, name, held) && Distinct(fs.v, src, KeyOf(c, parent, name))
    ensures var v, dst := MovedOver(fs, c, src, parent, name, held).v, KeyOf(c, parent, name);
      && v.dirents.Keys == fs.v.dirents.Keys - {src} + {dst} && v.dirents[dst].child == fs.v.dirents[src].child
      && forall k :: k in v.dirents && k != dst ==> v.dirents[k] == fs.v.dirents[k]
  {
    var dst := KeyOf(c, parent, name);
    ReplacedWithout(fs, dst, held);
    MoveNames(Replaced(fs, dst, held).v, c, src, parent, name);
  }

  lemma MoveNames(v: Volume, c: Codec, k: DirKey, parent: nat, name: Name)
    requires CanMove(v, c, k, parent, name)
    ensures var v' := Move(v, c, k, parent, name);
      && v'.dirents == (v.dirents - {k})[KeyOf(c, parent, name) := v'.dirents[KeyOf(c, parent, name)]]
      && v'.dirents[KeyOf(c, parent, name)].child == v.dirents[k].child
  {
  }

  lemma DiesOrphaned(c: Codec, fs: Fs, src: DirKey, parent: nat, name: Name, open: multiset<nat>)
    requires Dies(fs.v, KeyOf(c, parent, name), open) && Movable(fs, c, src, parent, name, false)
    ensures Target(fs, KeyOf(c, parent, name)) in MovedOver(fs, c, src, parent, name, false).v.orphans
  {
  }
}
