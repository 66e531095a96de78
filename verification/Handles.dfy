/** What an open handle is worth (crates/slatefs-core/src/vfs_impl.rs, `open`, `close` and `bury_inode`): a file that is
    open keeps its record and its content, also without a name, until it is written or its last handle closes; then
    nothing of an unnamed file is left. */
module Handles {
  import opened Metadata
  import opened Entries
  import opened Namespace
  import opened Removal
  import opened Moving
  import opened Filesystem
  import opened Renaming
  import opened MountSteps
  import opened MountedRuns
  import opened Quota

  /** The inode is there before and after, of the same kind, with the same size, bill and chunks. */
  ghost predicate Untouched(v: Volume, v': Volume, ino: nat) {
    true == (
      && ino in v.inodes && ino in v'.inodes && v'.inodes[ino].kind == v.inodes[ino].kind
      && FileOf(v', ino) == FileOf(v, ino))
  }

  lemma MakeUntouched(c: Codec, cs: nat, limits: QuotaLimits, fs: Fs, parent: nat, name: Name, kind: Kind, size: nat,
                      fate: Fate, fs': Fs, ok: bool, ino: nat)
    requires Sound(c, cs, fs) && MakeStep(c, limits, fs, parent, name, kind, size, fate, fs', ok) && ino in fs.v.inodes
    ensures Untouched(fs.v, fs'.v, ino)
  {
    if ok { MakeStepSound(c, cs, limits, fs, parent, name, kind, size, fate, fs', ok); }
  }

  lemma LinkUntouched(c: Codec, fs: Fs, i: nat, parent: nat, name: Name, fate: Fate, fs': Fs, ok: bool, ino: nat)
    requires LinkStep(c, fs, i, parent, name, fate, fs', ok) && ino in fs.v.inodes
    ensures Untouched(fs.v, fs'.v, ino)
  {
  }

  lemma RmdirUntouched(c: Codec, fs: Fs, parent: nat, name: Name, fate: Fate, fs': Fs, ok: bool, ino: nat)
    requires RmdirStep(c, fs, parent, name, fate, fs', ok) && ino in fs.v.inodes && !IsDir(fs.v, ino)
    ensures Untouched(fs.v, fs'.v, ino)
  {
  }

  lemma UnnamedUntouched(fs: Fs, k: DirKey, open: multiset<nat>, ino: nat)
    requires CanUnlink(fs.v, k) && ino in fs.v.inodes && ino in open
    ensures Untouched(fs.v, Unnamed(fs, k, fs.v.dirents[k].child in open).v, ino)
  {
  }

  lemma ClearedUntouched(fs: Fs, i: nat, dies: bool, writes: nat, fs': Fs, ok: bool, ino: nat)
    requires Cleared(fs, i, dies, writes, fs', ok) && ino in fs.v.inodes && (dies ==> i != ino)
    ensures Untouched(fs.v, fs'.v, ino)
  {
  }

  lemma UntouchedThrough(v: Volume, v1: Volume, v': Volume, ino: nat)
    requires Untouched(v, v1, ino) && Untouched(v1, v', ino)
    ensures Untouched(v, v', ino)
  {
  }

  lemma UnlinkUntouched(c: Codec, fs: Fs, open: multiset<nat>, parent: nat, name: Name, fate: Fate, fs': Fs, ok: bool,
                        ino: nat)
    requires UnlinkStep(c, fs, open, parent, name, fate, fs', ok) && ino in fs.v.inodes && ino in open
    ensures Untouched(fs.v, fs'.v, ino)
  {
    var k := KeyOf(c, parent, name);
    if CanUnlink(fs.v, k) && fate.commits {
      var child := fs.v.dirents[k].child;
      var fs1 := Unnamed(fs, k, child in open);
      UnnamedUntouched(fs, k, open, ino);
      ClearedUntouched(fs1, child, Dies(fs.v, k, open), fate.writes, fs', ok, ino);
      UntouchedThrough(fs.v, fs1.v, fs'.v, ino);
    }
  }

  lemma ReplacedUntouched(fs: Fs, k: DirKey, open: multiset<nat>, ino: nat)
    requires CanReplace(fs.v, k) && ino in fs.v.inodes && ino in open && !IsDir(fs.v, ino)
    ensures Untouched(fs.v, Replaced(fs, k, Held(fs, k, open)).v, ino)
  {
    if k in fs.v.dirents && !IsDir(fs.v, fs.v.dirents[k].child) { UnnamedUntouched(fs, k, open, ino); }
  }

  lemma RenamedUntouched(fs: Fs, c: Codec, k: DirKey, parent: nat, name: Name, ino: nat)
    requires CanMove(fs.v, c, k, parent, name) && ino in fs.v.inodes
    ensures Untouched(fs.v, Renamed(fs, c, k, parent, name).v, ino)
  {
  }

  lemma RenameUntouched(c: Codec, fs: Fs, open: multiset<nat>, parent: nat, name: Name, newParent: nat, newName: Name,
                        fate: Fate, fs': Fs, ok: bool, ino: nat)
    requires RenameStep(c, fs, open, parent, name, newParent, newName, fate, fs', ok)
    requires ino in fs.v.inodes && ino in open && !IsDir(fs.v, ino)
    ensures Untouched(fs.v, fs'.v, ino)
  {
    var src, dst := KeyOf(c, parent, name), KeyOf(c, newParent, newName);
    if Distinct(fs.v, src, dst) && CanRename(fs.v, c, src, newParent, newName) && fate.commits {
      var fs1 := Replaced(fs, dst, Held(fs, dst, open));
      var fs2 := Renamed(fs1, c, src, newParent, newName);
      ReplacedUntouched(fs, dst, open, ino);
      RenamedUntouched(fs1, c, src, newParent, newName, ino);
      UntouchedThrough(fs.v, fs1.v, fs2.v, ino);
      ClearedUntouched(fs2, Target(fs, dst), Dies(fs.v, dst, open), fate.writes, fs', ok, ino);
      UntouchedThrough(fs.v, fs2.v, fs'.v, ino);
    }
  }

  lemma OthersUntouched(v: Volume, v': Volume, i: nat, ok: bool, ino: nat)
    requires OnlyChanged(v, v', i, ok) && i != ino && ino in v.inodes
    ensures Untouched(v, v', ino)
  {
    assert ino in (v.inodes - {i}) && (v'.inodes - {i})[ino] == v'.inodes[ino];
    assert ino in v.chunks <==> ino in v.chunks - {i};
    assert ino in v'.chunks <==> ino in v'.chunks - {i};
  }

  lemma CloseUntouched(fs: Fs, open: multiset<nat>, i: nat, fate: Fate, fs': Fs, open': multiset<nat>, ok: bool, ino: nat)
    requires CloseStep(fs, open, i, fate, fs', open', ok) && ino in fs.v.inodes && ino in open'
    ensures Untouched(fs.v, fs'.v, ino)
  {
    if i in open && i !in open' && i in fs.v.orphans {
      SettledOnly(fs, i, fate, fs', ok);
      OthersUntouched(fs.v, fs'.v, i, ok, ino);
    }
  }

  /** The operation changes what the inode holds. */
  predicate Changes(op: Op, ino: nat) { (op.Write? || op.SetSize?) && op.ino == ino }

  /** A file stays, and stays as it is unless it is written or resized. */
  ghost predicate Kept(v: Volume, v': Volume, op: Op, ino: nat) {
    true == (ino in v'.inodes && !IsDir(v', ino) && (Changes(op, ino) || Untouched(v, v', ino)))
  }

  lemma KeptIf(v: Volume, v': Volume, op: Op, ino: nat)
    requires Untouched(v, v', ino) && !IsDir(v, ino)
    ensures Kept(v, v', op, ino)
  {
  }

  lemma NewKeeps(c: Codec, cs: nat, limits: QuotaLimits, s: Mount, op: Op, s': Mount, ok: bool, ino: nat)
    requires Sound(c, cs, s.fs) && FollowsUp(c, cs, limits, s.fs, s.open, op, s'.fs, s'.open, ok)
    requires ino in s.fs.v.inodes && !IsDir(s.fs.v, ino) && (op.Make? || op.Create? || op.Link?)
    ensures Untouched(s.fs.v, s'.fs.v, ino)
  {
    if op.Make? {
      MakeUntouched(c, cs, limits, s.fs, op.parent, op.name, op.kind, op.size, op.fate, s'.fs, ok, ino);
    } else if op.Link? {
      LinkUntouched(c, s.fs, op.ino, op.parent, op.name, op.fate, s'.fs, ok, ino);
    } else if KeyOf(c, op.parent, op.name) !in s.fs.v.dirents {
      MakeUntouched(c, cs, limits, s.fs, op.parent, op.name, Kind.File, 0, op.fate, s'.fs, ok, ino);
    }
  }

  lemma RemovalKeeps(c: Codec, cs: nat, limits: QuotaLimits, s: Mount, op: Op, s': Mount, ok: bool, ino: nat)
    requires FollowsUp(c, cs, limits, s.fs, s.open, op, s'.fs, s'.open, ok) && (op.Unlink? || op.Rmdir? || op.Rename?)
    requires ino in s.fs.v.inodes && !IsDir(s.fs.v, ino) && ino in s.open
    ensures Untouched(s.fs.v, s'.fs.v, ino)
  {
    if op.Unlink? {
      UnlinkUntouched(c, s.fs, s.open, op.parent, op.name, op.fate, s'.fs, ok, ino);
    } else if op.Rmdir? {
      RmdirUntouched(c, s.fs, op.parent, op.name, op.fate, s'.fs, ok, ino);
    } else {
      RenameUntouched(c, s.fs, s.open, op.parent, op.name, op.newParent, op.newName, op.fate, s'.fs, ok, ino);
    }
  }

  lemma ContentKeeps(c: Codec, cs: nat, limits: QuotaLimits, s: Mount, op: Op, s': Mount, ok: bool, ino: nat)
    requires FollowsUp(c, cs, limits, s.fs, s.open, op, s'.fs, s'.open, ok) && (op.Write? || op.SetSize?)
    requires ino in s.fs.v.inodes && !IsDir(s.fs.v, ino)
    ensures Kept(s.fs.v, s'.fs.v, op, ino)
  {
  }

  /** One operation on a mounted volume leaves a file that stays open as it is, unless it writes or resizes that file. */
  lemma HandleKeeps(c: Codec, cs: nat, limits: QuotaLimits, s: Mount, op: Op, s': Mount, ok: bool, ino: nat)
    requires Sound(c, cs, s.fs) && Follows(c, cs, limits, s, op, s', ok) && !op.Crash?
    requires ino in s.fs.v.inodes && !IsDir(s.fs.v, ino) && ino in s.open && ino in s'.open
    ensures Kept(s.fs.v, s'.fs.v, op, ino)
  {
    if s.up && (op.Write? || op.SetSize?) {
      ContentKeeps(c, cs, limits, s, op, s', ok, ino);
    } else {
      if s.up && (op.Make? || op.Create? || op.Link?) {
        NewKeeps(c, cs, limits, s, op, s', ok, ino);
      } else if s.up && (op.Unlink? || op.Rmdir? || op.Rename?) {
        RemovalKeeps(c, cs, limits, s, op, s', ok, ino);
      } else if s.up && op.Close? {
        CloseUntouched(s.fs, s.open, op.ino, op.fate, s'.fs, s'.open, ok, ino);
      }
      KeptIf(s.fs.v, s'.fs.v, op, ino);
    }
  }

  ghost predicate HeldOpen(states: seq<Mount>, i: nat, j: nat, ino: nat)
    requires i <= j < |states|
  {
    true == forall n :: i <= n <= j ==> ino in states[n].open
  }

  ghost predicate NoneChanges(ops: seq<Op>, i: nat, j: nat, ino: nat)
    requires i <= j <= |ops|
  {
    true == forall n :: i <= n < j ==> !Changes(ops[n], ino)
  }

  predicate Lives(v: Volume, ino: nat) { true == (ino in v.inodes && !IsDir(v, ino)) }

  /** Each volume keeps the file from the one before. */
  ghost predicate Chain(vs: seq<Volume>, ops: seq<Op>, i: nat, j: nat, ino: nat)
    requires i <= j < |vs| && j <= |ops|
  {
    true == forall n {:trigger ops[n]} :: i <= n < j && Lives(vs[n], ino) ==> Kept(vs[n], vs[n + 1], ops[n], ino)
  }

  lemma {:induction false} ChainKeeps(vs: seq<Volume>, ops: seq<Op>, i: nat, j: nat, ino: nat)
    requires i <= j < |vs| && j <= |ops| && Chain(vs, ops, i, j, ino) && Lives(vs[i], ino)
    ensures Lives(vs[j], ino) && (NoneChanges(ops, i, j, ino) ==> Untouched(vs[i], vs[j], ino))
    decreases j
  {
    if i < j {
      var op := ops[j - 1];
      ChainKeeps(vs, ops, i, j - 1, ino);
      assert Kept(vs[j - 1], vs[j], op, ino);
      if NoneChanges(ops, i, j, ino) { UntouchedThrough(vs[i], vs[j - 1], vs[j], ino); }
    }
  }

  /** A crash closes every handle, so it is no step of a run that keeps one open. */
  lemma StepKeeps(c: Codec, cs: nat, limits: QuotaLimits, ops: seq<Op>, states: seq<Mount>, oks: seq<bool>, n: nat,
                  ino: nat)
    requires IsRun(c, cs, limits, ops, states, oks) && n < |oks| && RevivesNone(cs, ops, states, oks, n)
    requires Sound(c, cs, states[0].fs) && Lives(states[n].fs.v, ino)
    requires ino in states[n].open && ino in states[n + 1].open
    ensures Kept(states[n].fs.v, states[n + 1].fs.v, ops[n], ino)
  {
    RunClean(c, cs, limits, ops, states, oks, n);
    HandleKeeps(c, cs, limits, states[n], ops[n], states[n + 1], oks[n], ino);
  }

  function Volumes(states: seq<Mount>): seq<Volume> { seq(|states|, n requires 0 <= n < |states| => states[n].fs.v) }

  lemma RunChain(c: Codec, cs: nat, limits: QuotaLimits, ops: seq<Op>, states: seq<Mount>, oks: seq<bool>, i: nat, j: nat,
                 ino: nat)
    requires IsRun(c, cs, limits, ops, states, oks) && i <= j <= |oks| && RevivesNone(cs, ops, states, oks, j)
    requires Sound(c, cs, states[0].fs) && HeldOpen(states, i, j, ino)
    ensures Chain(Volumes(states), ops, i, j, ino)
  {
    var vs := Volumes(states);
    forall n {:trigger ops[n]} | i <= n < j && Lives(vs[n], ino) ensures Kept(vs[n], vs[n + 1], ops[n], ino) {
      StepKeeps(c, cs, limits, ops, states, oks, n, ino);
    }
  }

  /** From one state of a run to another between which a file stays open, it stays, and what it holds changes only by
      writing or resizing it. */
  lemma RunHandle(c: Codec, cs: nat, limits: QuotaLimits, ops: seq<Op>, states: seq<Mount>, oks: seq<bool>, i: nat, j: nat,
                  ino: nat)
    requires IsRun(c, cs, limits, ops, states, oks) && i <= j <= |oks| && RevivesNone(cs, ops, states, oks, j)
    requires Sound(c, cs, states[0].fs) && Lives(states[i].fs.v, ino) && HeldOpen(states, i, j, ino)
    ensures Lives(states[j].fs.v, ino)
    ensures NoneChanges(ops, i, j, ino) ==> Untouched(states[i].fs.v, states[j].fs.v, ino)
  {
    RunChain(c, cs, limits, ops, states, oks, i, j, ino);
    ChainKeeps(Volumes(states), ops, i, j, ino);
  }

  /** Closing the last handle of a file without a name, when it gets through, leaves nothing of it, and touches nothing
      else; a file with a name is left alone. */
  lemma LastCloseFrees(c: Codec, cs: nat, fs: Fs, open: multiset<nat>, ino: nat, fate: Fate, fs': Fs,
                       open': multiset<nat>, ok: bool)
    requires Sound(c, cs, fs) && CloseStep(fs, open, ino, fate, fs', open', ok) && ok
    requires ino in fs.v.inodes && !IsDir(fs.v, ino) && ino in open && ino !in open'
    ensures Naming(fs.v, ino) == {} ==> OnlyChanged(fs.v, fs'.v, ino, true)
    ensures Naming(fs.v, ino) != {} ==> fs' == fs
  {
    assert LinkExact(fs.v, ino);
    if ino in fs.v.orphans { SettledOnly(fs, ino, fate, fs', ok); }
  }

  /** A handle does not keep a directory: rmdir looks only for entries, so an open empty directory goes. */
  lemma OpenDirectoryGoes(c: Codec, fs: Fs, parent: nat, name: Name, fate: Fate, fs': Fs, ok: bool)
    requires RmdirStep(c, fs, parent, name, fate, fs', ok) && CanRmdir(fs.v, KeyOf(c, parent, name))
    ensures fs.v.dirents[KeyOf(c, parent, name)].child in fs'.v.inodes <==> !fate.commits
  {
  }
}
