/** Whole runs on a mounted volume: however operations succeed, are refused, fail, stop half-way or crash, the checker
    finds nothing after them and its counts are the persistent counters, up to the first operation that brings back
    something the volume had given up: a dead file by a new link, or a leftover chunk by a write or growth over it. */
module MountedRuns {
  import opened Common
  import opened Metadata
  import opened Entries
  import opened Namespace
  import opened Renaming
  import opened Quota
  import opened MountSteps
  import opened MountedVolumes
  import Fsck
  import Sums

  datatype Op =
    | Make(parent: nat, name: Name, kind: Kind, size: nat, fate: Fate)
    | Create(parent: nat, name: Name, exclusive: bool, fate: Fate)
    | Link(ino: nat, parent: nat, name: Name, fate: Fate)
    | Unlink(parent: nat, name: Name, fate: Fate)
    | Rmdir(parent: nat, name: Name, fate: Fate)
    | Rename(parent: nat, name: Name, newParent: nat, newName: Name, fate: Fate)
    | Open(ino: nat)
    | Close(ino: nat, fate: Fate)
    | Write(ino: nat, offset: nat, data: seq<byte>, fate: Fate)
    | SetSize(ino: nat, newSize: nat, fate: Fate)
    | Crash(fates: nat -> Fate)

  /** The store, the handles, and whether a mount has got through its reaping. */
  datatype Mount = Mount(fs: Fs, open: multiset<nat>, up: bool)

  /** What one operation does. While no mount is up there is nothing to do but try the next one. */
  ghost predicate Follows(c: Codec, cs: nat, limits: QuotaLimits, s: Mount, op: Op, s': Mount, ok: bool) {
    true == (
      if op.Crash? then MountStep(s.fs, s.fs.v.orphans, op.fates, s'.fs, ok) && s'.open == multiset{} && s'.up == ok
      else if !s.up then s' == s && !ok
      else s'.up && FollowsUp(c, cs, limits, s.fs, s.open, op, s'.fs, s'.open, ok))
  }

  ghost predicate FollowsUp(c: Codec, cs: nat, limits: QuotaLimits, fs: Fs, open: multiset<nat>, op: Op, fs': Fs,
                            open': multiset<nat>, ok: bool) {
    true == (
      && (!op.Open? && !op.Close? ==> open' == open)
      && match op
         case Make(parent, name, kind, size, fate) =>
           MakeStep(c, limits, fs, parent, name, kind, size, fate, fs', ok)
         case Create(parent, name, exclusive, fate) =>
           CreateStep(c, limits, fs, parent, name, exclusive, fate, fs', ok)
         case Link(ino, parent, name, fate) => LinkStep(c, fs, ino, parent, name, fate, fs', ok)
         case Unlink(parent, name, fate) => UnlinkStep(c, fs, open, parent, name, fate, fs', ok)
         case Rmdir(parent, name, fate) => RmdirStep(c, fs, parent, name, fate, fs', ok)
         case Rename(parent, name, newParent, newName, fate) =>
           RenameStep(c, fs, open, parent, name, newParent, newName, fate, fs', ok)
         case Write(ino, offset, data, fate) => WriteStep(cs, limits, fs, ino, offset, data, fate, fs', ok)
         case SetSize(ino, newSize, fate) => SizeStep(cs, fs, ino, newSize, fate, fs', ok)
         case Open(ino) =>
           && fs' == fs && (ok <==> ino in fs.v.inodes)
           && open' == (if ok then open + multiset{ino} else open)
         case Close(ino, fate) => CloseStep(fs, open, ino, fate, fs', open', ok)
         case Crash(_) => true)
  }

  /** The operation gave a name to a file that is open but has none left. */
  predicate RevivesFile(fs: Fs, op: Op, ok: bool) { ok && op.Link? && RevivesDead(fs, op.ino) }

  /** The operation brought chunks back that an interrupted truncate had left behind. */
  predicate RevivesChunk(cs: nat, fs: Fs, op: Op, ok: bool) {
    true == (
      && ok
      && match op
         case Write(ino, offset, data, _) => WriteRevives(cs, fs, ino, offset, data)
         case SetSize(ino, newSize, _) => GrowRevives(cs, fs, ino, newSize)
         case _ => false)
  }

  predicate Revives(cs: nat, s: Mount, op: Op, ok: bool) {
    true == (s.up && (RevivesFile(s.fs, op, ok) || RevivesChunk(cs, s.fs, op, ok)))
  }

  // ----- each step -----

  /** One step keeps a sound volume sound if and only if it revives nothing. The checker finds a revived chunk at once
      and a revived file not yet. */
  lemma StepSoundIff(c: Codec, cs: nat, limits: QuotaLimits, s: Mount, op: Op, s': Mount, ok: bool)
    requires Sound(c, cs, s.fs) && Follows(c, cs, limits, s, op, s', ok)
    ensures Sound(c, cs, s'.fs) <==> !Revives(cs, s, op, ok)
    ensures Clean(s'.fs.v, cs, c.open) <==> !(s.up && RevivesChunk(cs, s.fs, op, ok))
  {
    if s.up && op.Link? {
      LinkFollows(c, cs, limits, s, op, s', ok);
    } else if s.up && op.Write? {
      WriteFollows(c, cs, limits, s, op, s', ok);
    } else if s.up && op.SetSize? {
      SizeFollows(c, cs, limits, s, op, s', ok);
    } else {
      PlainFollows(c, cs, limits, s, op, s', ok);
      RevivesNothing(cs, s, op, ok);
      InvClean(c, cs, s'.fs);
    }
  }

  lemma RevivesNothing(cs: nat, s: Mount, op: Op, ok: bool)
    requires s.up ==> !op.Link? && !op.Write? && !op.SetSize?
    ensures !Revives(cs, s, op, ok) && !(s.up && RevivesChunk(cs, s.fs, op, ok))
  {
  }

  lemma LinkDid(c: Codec, cs: nat, limits: QuotaLimits, s: Mount, op: Op, s': Mount, ok: bool)
    requires Follows(c, cs, limits, s, op, s', ok) && s.up && op.Link?
    ensures LinkStep(c, s.fs, op.ino, op.parent, op.name, op.fate, s'.fs, ok)
    ensures Revives(cs, s, op, ok) <==> ok && RevivesDead(s.fs, op.ino)
    ensures !RevivesChunk(cs, s.fs, op, ok)
  {
  }

  lemma LinkFollows(c: Codec, cs: nat, limits: QuotaLimits, s: Mount, op: Op, s': Mount, ok: bool)
    requires Sound(c, cs, s.fs) && Follows(c, cs, limits, s, op, s', ok) && s.up && op.Link?
    ensures Sound(c, cs, s'.fs) <==> !Revives(cs, s, op, ok)
    ensures Clean(s'.fs.v, cs, c.open) <==> !(s.up && RevivesChunk(cs, s.fs, op, ok))
  {
    LinkDid(c, cs, limits, s, op, s', ok);
    LinkStepSoundIff(c, cs, s.fs, op.ino, op.parent, op.name, op.fate, s'.fs, ok);
  }

  lemma WriteDid(c: Codec, cs: nat, limits: QuotaLimits, s: Mount, op: Op, s': Mount, ok: bool)
    requires Follows(c, cs, limits, s, op, s', ok) && s.up && op.Write?
    ensures WriteStep(cs, limits, s.fs, op.ino, op.offset, op.data, op.fate, s'.fs, ok)
    ensures Revives(cs, s, op, ok) <==> ok && WriteRevives(cs, s.fs, op.ino, op.offset, op.data)
    ensures RevivesChunk(cs, s.fs, op, ok) <==> ok && WriteRevives(cs, s.fs, op.ino, op.offset, op.data)
  {
  }

  lemma WriteFollows(c: Codec, cs: nat, limits: QuotaLimits, s: Mount, op: Op, s': Mount, ok: bool)
    requires Sound(c, cs, s.fs) && Follows(c, cs, limits, s, op, s', ok) && s.up && op.Write?
    ensures Sound(c, cs, s'.fs) <==> !Revives(cs, s, op, ok)
    ensures Clean(s'.fs.v, cs, c.open) <==> !(s.up && RevivesChunk(cs, s.fs, op, ok))
  {
    WriteDid(c, cs, limits, s, op, s', ok);
    WriteStepSoundIff(c, cs, limits, s.fs, op.ino, op.offset, op.data, op.fate, s'.fs, ok);
  }

  lemma SizeDid(c: Codec, cs: nat, limits: QuotaLimits, s: Mount, op: Op, s': Mount, ok: bool)
    requires Follows(c, cs, limits, s, op, s', ok) && s.up && op.SetSize?
    ensures SizeStep(cs, s.fs, op.ino, op.newSize, op.fate, s'.fs, ok)
    ensures Revives(cs, s, op, ok) <==> ok && GrowRevives(cs, s.fs, op.ino, op.newSize)
    ensures RevivesChunk(cs, s.fs, op, ok) <==> ok && GrowRevives(cs, s.fs, op.ino, op.newSize)
  {
  }

  lemma SizeFollows(c: Codec, cs: nat, limits: QuotaLimits, s: Mount, op: Op, s': Mount, ok: bool)
    requires Sound(c, cs, s.fs) && Follows(c, cs, limits, s, op, s', ok) && s.up && op.SetSize?
    ensures Sound(c, cs, s'.fs) <==> !Revives(cs, s, op, ok)
    ensures Clean(s'.fs.v, cs, c.open) <==> !(s.up && RevivesChunk(cs, s.fs, op, ok))
  {
    SizeDid(c, cs, limits, s, op, s', ok);
    SizeStepSoundIff(c, cs, s.fs, op.ino, op.newSize, op.fate, s'.fs, ok);
  }

  lemma PlainFollows(c: Codec, cs: nat, limits: QuotaLimits, s: Mount, op: Op, s': Mount, ok: bool)
    requires Sound(c, cs, s.fs) && Follows(c, cs, limits, s, op, s', ok)
    requires s.up ==> !op.Link? && !op.Write? && !op.SetSize?
    ensures Sound(c, cs, s'.fs)
  {
    if op.Crash? {
      MountStepSound(c, cs, s.fs, s.fs.v.orphans, op.fates, s'.fs, ok);
    } else if s.up && (op.Make? || op.Create?) {
      MakeFollows(c, cs, limits, s, op, s', ok);
    } else if s.up && (op.Unlink? || op.Rmdir?) {
      RemoveFollows(c, cs, limits, s, op, s', ok);
    } else if s.up && (op.Rename? || op.Close?) {
      ShiftFollows(c, cs, limits, s, op, s', ok);
    }
  }

  lemma MakeFollows(c: Codec, cs: nat, limits: QuotaLimits, s: Mount, op: Op, s': Mount, ok: bool)
    requires Sound(c, cs, s.fs) && FollowsUp(c, cs, limits, s.fs, s.open, op, s'.fs, s'.open, ok)
    requires op.Make? || op.Create?
    ensures Sound(c, cs, s'.fs)
  {
    if op.Make? {
      MakeStepSound(c, cs, limits, s.fs, op.parent, op.name, op.kind, op.size, op.fate, s'.fs, ok);
    } else {
      CreateStepSound(c, cs, limits, s.fs, op.parent, op.name, op.exclusive, op.fate, s'.fs, ok);
    }
  }

  lemma RemoveFollows(c: Codec, cs: nat, limits: QuotaLimits, s: Mount, op: Op, s': Mount, ok: bool)
    requires Sound(c, cs, s.fs) && FollowsUp(c, cs, limits, s.fs, s.open, op, s'.fs, s'.open, ok)
    requires op.Unlink? || op.Rmdir?
    ensures Sound(c, cs, s'.fs)
  {
    if op.Unlink? {
      UnlinkStepSound(c, cs, s.fs, s.open, op.parent, op.name, op.fate, s'.fs, ok);
    } else {
      RmdirStepSound(c, cs, s.fs, op.parent, op.name, op.fate, s'.fs, ok);
    }
  }

  lemma ShiftFollows(c: Codec, cs: nat, limits: QuotaLimits, s: Mount, op: Op, s': Mount, ok: bool)
    requires Sound(c, cs, s.fs) && FollowsUp(c, cs, limits, s.fs, s.open, op, s'.fs, s'.open, ok)
    requires op.Rename? || op.Close?
    ensures Sound(c, cs, s'.fs)
  {
    if op.Rename? {
      RenameStepSound(c, cs, s.fs, s.open, op.parent, op.name, op.newParent, op.newName, op.fate, s'.fs, ok);
    } else {
      CloseStepSound(c, cs, s.fs, s.open, op.ino, op.fate, s'.fs, s'.open, ok);
    }
  }

  // ----- every run -----

  /** Each state follows from the one before by the next operation. */
  ghost predicate IsRun(c: Codec, cs: nat, limits: QuotaLimits, ops: seq<Op>, states: seq<Mount>, oks: seq<bool>) {
    true == (
      && |states| == |oks| + 1 && |oks| <= |ops|
      && forall i :: 0 <= i < |oks| ==> Follows(c, cs, limits, states[i], ops[i], states[i + 1], oks[i]))
  }

  /** The first `n` operations revive nothing. */
  ghost predicate RevivesNone(cs: nat, ops: seq<Op>, states: seq<Mount>, oks: seq<bool>, n: nat)
    requires |states| == |oks| + 1 && n <= |oks| <= |ops|
  {
    true == (
      forall i :: 0 <= i < n ==> !Revives(cs, states[i], ops[i], oks[i]))
  }

  /** As long as nothing is revived the volume is clean and its counters are what the checker counts. */
  lemma {:induction false} RunClean(c: Codec, cs: nat, limits: QuotaLimits, ops: seq<Op>, states: seq<Mount>, oks: seq<bool>,
                                    n: nat)
    requires IsRun(c, cs, limits, ops, states, oks) && n <= |oks| && RevivesNone(cs, ops, states, oks, n)
    requires Sound(c, cs, states[0].fs)
    ensures Sound(c, cs, states[n].fs) && Clean(states[n].fs.v, cs, c.open)
    ensures states[n].fs.counterInodes == |states[n].fs.v.inodes|
    ensures states[n].fs.counterBytes == Sums.Sum(Fsck.Recount(states[n].fs.v, cs, states[n].fs.v.inodes.Keys))
  {
    if n > 0 {
      RunClean(c, cs, limits, ops, states, oks, n - 1);
      StepSoundIff(c, cs, limits, states[n - 1], ops[n - 1], states[n], oks[n - 1]);
    }
    InvClean(c, cs, states[n].fs);
  }

  /** The first operation that revives something: a chunk, and the checker finds it at once; or a file, and the checker
      finds it if the file's last handle closes next. */
  lemma RunRevives(c: Codec, cs: nat, limits: QuotaLimits, ops: seq<Op>, states: seq<Mount>, oks: seq<bool>, n: nat)
    requires IsRun(c, cs, limits, ops, states, oks) && n < |oks| && RevivesNone(cs, ops, states, oks, n)
    requires Sound(c, cs, states[0].fs) && Revives(cs, states[n], ops[n], oks[n])
    ensures !Sound(c, cs, states[n + 1].fs)
    ensures Clean(states[n + 1].fs.v, cs, c.open) <==> RevivesFile(states[n].fs, ops[n], oks[n])
    ensures RevivesFile(states[n].fs, ops[n], oks[n]) ==>
      !Clean(AfterLastClose(states[n + 1].fs, ops[n].ino).v, cs, c.open)
  {
    RunClean(c, cs, limits, ops, states, oks, n);
    StepSoundIff(c, cs, limits, states[n], ops[n], states[n + 1], oks[n]);
    if RevivesFile(states[n].fs, ops[n], oks[n]) {
      RevivedThenClosed(c, cs, limits, states[n], ops[n], states[n + 1], oks[n]);
    }
  }

  lemma RevivedThenClosed(c: Codec, cs: nat, limits: QuotaLimits, s: Mount, op: Op, s': Mount, ok: bool)
    requires Sound(c, cs, s.fs) && Follows(c, cs, limits, s, op, s', ok) && s.up && RevivesFile(s.fs, op, ok)
    ensures !Clean(AfterLastClose(s'.fs, op.ino).v, cs, c.open)
  {
    LinkDid(c, cs, limits, s, op, s', ok);
    LinkRevives(c, cs, s.fs, op.ino, op.parent, op.name, op.fate, s'.fs);
  }

  // ----- performing them -----

  lemma UnlinkDone(c: Codec, cs: nat, limits: QuotaLimits, fs: Fs, open: multiset<nat>, op: Op, fs': Fs, ok: bool)
    requires op.Unlink? && UnlinkStep(c, fs, open, op.parent, op.name, op.fate, fs', ok)
    ensures FollowsUp(c, cs, limits, fs, open, op, fs', open, ok)
  {
  }

  lemma RenameDone(c: Codec, cs: nat, limits: QuotaLimits, fs: Fs, open: multiset<nat>, op: Op, fs': Fs, ok: bool)
    requires op.Rename? && RenameStep(c, fs, open, op.parent, op.name, op.newParent, op.newName, op.fate, fs', ok)
    ensures FollowsUp(c, cs, limits, fs, open, op, fs', open, ok)
  {
  }

  lemma CrashDone(c: Codec, cs: nat, limits: QuotaLimits, fs: Fs, open: multiset<nat>, up: bool, op: Op, fs': Fs, ok: bool)
    requires op.Crash? && MountStep(fs, fs.v.orphans, op.fates, fs', ok)
    ensures Follows(c, cs, limits, Mount(fs, open, up), op, Mount(fs', multiset{}, ok), ok)
  {
  }

  lemma UpDone(c: Codec, cs: nat, limits: QuotaLimits, fs: Fs, open: multiset<nat>, op: Op, fs': Fs, open': multiset<nat>,
               ok: bool)
    requires !op.Crash? && FollowsUp(c, cs, limits, fs, open, op, fs', open', ok)
    ensures Follows(c, cs, limits, Mount(fs, open, true), op, Mount(fs', open', true), ok)
  {
  }

  method Perform(m: MountedVolume, up: bool, op: Op) returns (up': bool, ok: bool)
    requires m.Valid()
    modifies m, m.quota
    ensures Follows(m.c, m.cs, old(m.quota.limits), Mount(old(m.fs), old(m.open), up), op, Mount(m.fs, m.open, up'), ok)
    ensures m.Valid() <==> !Revives(m.cs, Mount(old(m.fs), old(m.open), up), op, ok)
    ensures m.quota.limits == old(m.quota.limits)
  {
    if op.Crash? {
      ok := m.Remount(op.fates);
      CrashDone(m.c, m.cs, old(m.quota.limits), old(m.fs), old(m.open), up, op, m.fs, ok);
      RevivesNothing(m.cs, Mount(old(m.fs), old(m.open), up), op, ok);
      return ok, ok;
    }
    if !up {
      return false, false;
    }
    ok := PerformUp(m, op);
    UpDone(m.c, m.cs, old(m.quota.limits), old(m.fs), old(m.open), op, m.fs, m.open, ok);
    return true, ok;
  }

  method PerformUp(m: MountedVolume, op: Op) returns (ok: bool)
    requires m.Valid() && !op.Crash?
    modifies m, m.quota
    ensures FollowsUp(m.c, m.cs, old(m.quota.limits), old(m.fs), old(m.open), op, m.fs, m.open, ok)
    ensures m.Valid() <==> !Revives(m.cs, Mount(old(m.fs), old(m.open), true), op, ok)
    ensures m.quota.limits == old(m.quota.limits)
  {
    if op.Make? || op.Create? {
      ok := PerformNew(m, op);
    } else if op.Link? {
      ok := PerformLink(m, op);
    } else if op.Unlink? {
      ok := PerformUnlink(m, op);
    } else if op.Rmdir? {
      ok := PerformRmdir(m, op);
    } else if op.Rename? {
      ok := PerformRename(m, op);
    } else if op.Open? || op.Close? {
      ok := PerformHandle(m, op);
    } else {
      ok := PerformContent(m, op);
    }
  }

  method PerformNew(m: MountedVolume, op: Op) returns (ok: bool)
    requires m.Valid() && (op.Make? || op.Create?)
    modifies m, m.quota
    ensures FollowsUp(m.c, m.cs, old(m.quota.limits), old(m.fs), old(m.open), op, m.fs, m.open, ok)
    ensures m.Valid() <==> !Revives(m.cs, Mount(old(m.fs), old(m.open), true), op, ok)
    ensures m.quota.limits == old(m.quota.limits)
  {
    match op {
      case Make(parent, name, kind, size, fate) =>
        var r := m.Make(parent, name, kind, size, fate);
        ok := r.Ok?;
      case Create(parent, name, exclusive, fate) =>
        var r := m.Create(parent, name, exclusive, fate);
        ok := r.Ok?;
    }
  }

  method PerformLink(m: MountedVolume, op: Op) returns (ok: bool)
    requires m.Valid() && op.Link?
    modifies m, m.quota
    ensures FollowsUp(m.c, m.cs, old(m.quota.limits), old(m.fs), old(m.open), op, m.fs, m.open, ok)
    ensures m.Valid() <==> !Revives(m.cs, Mount(old(m.fs), old(m.open), true), op, ok)
    ensures m.quota.limits == old(m.quota.limits)
  {
    var r := m.Link(op.ino, op.parent, op.name, op.fate);
    ok := r.Ok?;
  }

  method PerformUnlink(m: MountedVolume, op: Op) returns (ok: bool)
    requires m.Valid() && op.Unlink?
    modifies m, m.quota
    ensures FollowsUp(m.c, m.cs, old(m.quota.limits), old(m.fs), old(m.open), op, m.fs, m.open, ok)
    ensures m.Valid() <==> !Revives(m.cs, Mount(old(m.fs), old(m.open), true), op, ok)
    ensures m.quota.limits == old(m.quota.limits)
  {
    var r := m.Unlink(op.parent, op.name, op.fate);
    ok := r.Ok?;
    UnlinkDone(m.c, m.cs, old(m.quota.limits), old(m.fs), old(m.open), op, m.fs, ok);
    RevivesNothing(m.cs, Mount(old(m.fs), old(m.open), true), op, ok);
  }

  method PerformRmdir(m: MountedVolume, op: Op) returns (ok: bool)
    requires m.Valid() && op.Rmdir?
    modifies m, m.quota
    ensures FollowsUp(m.c, m.cs, old(m.quota.limits), old(m.fs), old(m.open), op, m.fs, m.open, ok)
    ensures m.Valid() <==> !Revives(m.cs, Mount(old(m.fs), old(m.open), true), op, ok)
    ensures m.quota.limits == old(m.quota.limits)
  {
    var r := m.Rmdir(op.parent, op.name, op.fate);
    ok := r.Ok?;
  }

  method PerformRename(m: MountedVolume, op: Op) returns (ok: bool)
    requires m.Valid() && op.Rename?
    modifies m, m.quota
    ensures FollowsUp(m.c, m.cs, old(m.quota.limits), old(m.fs), old(m.open), op, m.fs, m.open, ok)
    ensures m.Valid() <==> !Revives(m.cs, Mount(old(m.fs), old(m.open), true), op, ok)
    ensures m.quota.limits == old(m.quota.limits)
  {
    var r := m.Rename(op.parent, op.name, op.newParent, op.newName, op.fate);
    ok := r.Ok?;
    RenameDone(m.c, m.cs, old(m.quota.limits), old(m.fs), old(m.open), op, m.fs, ok);
    RevivesNothing(m.cs, Mount(old(m.fs), old(m.open), true), op, ok);
  }

  method PerformHandle(m: MountedVolume, op: Op) returns (ok: bool)
    requires m.Valid() && (op.Open? || op.Close?)
    modifies m, m.quota
    ensures FollowsUp(m.c, m.cs, old(m.quota.limits), old(m.fs), old(m.open), op, m.fs, m.open, ok)
    ensures m.Valid() <==> !Revives(m.cs, Mount(old(m.fs), old(m.open), true), op, ok)
    ensures m.quota.limits == old(m.quota.limits)
  {
    match op {
      case Open(ino) =>
        var r := m.Open(ino);
        ok := r.Ok?;
      case Close(ino, fate) =>
        var r := m.Close(ino, fate);
        ok := r.Ok?;
    }
  }

  method PerformContent(m: MountedVolume, op: Op) returns (ok: bool)
    requires m.Valid() && (op.Write? || op.SetSize?)
    modifies m, m.quota
    ensures FollowsUp(m.c, m.cs, old(m.quota.limits), old(m.fs), old(m.open), op, m.fs, m.open, ok)
    ensures m.Valid() <==> !Revives(m.cs, Mount(old(m.fs), old(m.open), true), op, ok)
    ensures m.quota.limits == old(m.quota.limits)
  {
    match op {
      case Write(ino, offset, data, fate) =>
        var r := m.Write(ino, offset, data, fate);
        ok := r.Ok?;
      case SetSize(ino, newSize, fate) =>
        var r := m.SetSize(ino, newSize, fate);
        ok := r.Ok?;
    }
  }

  lemma RunMore(c: Codec, cs: nat, limits: QuotaLimits, ops: seq<Op>, states: seq<Mount>, oks: seq<bool>, s': Mount,
                ok: bool)
    requires IsRun(c, cs, limits, ops, states, oks) && |oks| < |ops| && RevivesNone(cs, ops, states, oks, |oks|)
    requires Follows(c, cs, limits, states[|oks|], ops[|oks|], s', ok)
    ensures IsRun(c, cs, limits, ops, states + [s'], oks + [ok]) && RevivesNone(cs, ops, states + [s'], oks + [ok], |oks|)
    ensures Revives(cs, (states + [s'])[|oks|], ops[|oks|], (oks + [ok])[|oks|]) <==>
      Revives(cs, states[|oks|], ops[|oks|], ok)
    ensures RevivesNone(cs, ops, states + [s'], oks + [ok], |oks| + 1) <==> !Revives(cs, states[|oks|], ops[|oks|], ok)
  {
  }

  /** How far a run got: to its end, or just past the first operation that revived something. */
  ghost predicate Stopped(cs: nat, ops: seq<Op>, states: seq<Mount>, oks: seq<bool>, revived: bool)
    requires |states| == |oks| + 1 && |oks| <= |ops|
  {
    true == (
      if revived then |oks| > 0 && RevivesNone(cs, ops, states, oks, |oks| - 1) && LastRevives(cs, ops, states, oks)
      else RevivesNone(cs, ops, states, oks, |oks|))
  }

  ghost predicate LastRevives(cs: nat, ops: seq<Op>, states: seq<Mount>, oks: seq<bool>)
    requires |states| == |oks| + 1 && 0 < |oks| <= |ops|
  {
    Revives(cs, states[|oks| - 1], ops[|oks| - 1], oks[|oks| - 1])
  }

  /** Runs operations up to the first that revives something. */
  method Run(m: MountedVolume, ops: seq<Op>)
    returns (revived: bool, up: bool, ghost states: seq<Mount>, ghost oks: seq<bool>)
    requires m.Valid()
    modifies m, m.quota
    ensures IsRun(m.c, m.cs, old(m.quota.limits), ops, states, oks)
    ensures states[0] == Mount(old(m.fs), old(m.open), true) && states[|oks|] == Mount(m.fs, m.open, up)
    ensures Stopped(m.cs, ops, states, oks, revived) && (!revived ==> |oks| == |ops|)
    ensures m.Valid() <==> !revived
  {
    var n := 0;
    revived, up, states, oks := false, true, [Mount(m.fs, m.open, true)], [];
    ghost var limits := m.quota.limits;
    while n < |ops| && !revived
      invariant n == |oks| <= |ops| && IsRun(m.c, m.cs, limits, ops, states, oks) && m.quota.limits == limits
      invariant states[0] == Mount(old(m.fs), old(m.open), true) && states[n] == Mount(m.fs, m.open, up)
      invariant m.Valid() <==> !revived
      invariant Stopped(m.cs, ops, states, oks, revived)
    {
      var before := Mount(m.fs, m.open, up);
      var ok;
      up, ok := Perform(m, up, ops[n]);
      revived := Revives(m.cs, before, ops[n], ok);
      RunMore(m.c, m.cs, limits, ops, states, oks, Mount(m.fs, m.open, up), ok);
      states, oks := states + [Mount(m.fs, m.open, up)], oks + [ok];
      n := n + 1;
    }
  }

  /** The report of a sound volume: no problems, and the counts are the persistent counters. */
  predicate Agrees(report: Fsck.Report, fs: Fs) {
    report.problems == [] && report.inodesCounted == fs.counterInodes && report.bytesCounted == fs.counterBytes
  }

  /** The checker after a run finds something if and only if the run has revived a chunk. */
  method CheckAfter(m: MountedVolume, ops: seq<Op>)
    returns (report: Fsck.Report, revived: bool, ghost states: seq<Mount>, ghost oks: seq<bool>)
    requires m.Valid()
    modifies m, m.quota
    ensures IsRun(m.c, m.cs, old(m.quota.limits), ops, states, oks) && states[0] == Mount(old(m.fs), old(m.open), true)
    ensures states[|oks|].fs == m.fs && states[|oks|].open == m.open && Stopped(m.cs, ops, states, oks, revived)
    ensures revived <==> exists i :: 0 <= i < |oks| && Revives(m.cs, states[i], ops[i], oks[i])
    ensures !revived ==> |oks| == |ops| && Agrees(report, m.fs)
    ensures report.problems != [] <==>
      exists i :: 0 <= i < |oks| && states[i].up && RevivesChunk(m.cs, states[i].fs, ops[i], oks[i])
  {
    ghost var limits := m.quota.limits;
    ghost var c, cs := m.c, m.cs;
    var up;
    revived, up, states, oks := Run(m, ops);
    report := Fsck.Check(m.fs.v, m.cs, m.c.open);
    if revived {
      RunRevives(c, cs, limits, ops, states, oks, |oks| - 1);
    } else {
      RunClean(c, cs, limits, ops, states, oks, |oks|);
    }
  }
}
