/** A mounted filesystem volume (crates/slatefs-core/src/vfs_impl.rs): the store, the open handles and the tracker of
    quota usage in memory, which every operation keeps equal to the persistent counters. */
module MountedVolumes {
  import opened Common
  import opened Chunks
  import opened Metadata
  import opened Entries
  import opened Namespace
  import opened Removal
  import opened Filesystem
  import opened Reaping
  import opened Renaming
  import opened MountSteps
  import opened Quota
  import FileContent

  /** What the batch that clears name `k` gives back: bytes and inodes. */
  function Freed(fs: Fs, k: DirKey, open: multiset<nat>): (int, int) {
    if k in fs.v.dirents && IsDir(fs.v, fs.v.dirents[k].child) then (0, 1)
    else if Dies(fs.v, k, open) then (fs.v.inodes[fs.v.dirents[k].child].billedBytes, 1)
    else (0, 0)
  }

  /** `fs'` counts that much less than `fs`. */
  predicate Pays(fs: Fs, fs': Fs, freed: (int, int)) {
    && freed.0 >= 0 && freed.1 >= 0
    && fs'.counterBytes == fs.counterBytes - freed.0 && fs'.counterInodes == fs.counterInodes - freed.1
  }

  lemma ReplacedFrees(fs: Fs, k: DirKey, open: multiset<nat>)
    requires CanReplace(fs.v, k)
    ensures Pays(fs, Replaced(fs, k, Held(fs, k, open)), Freed(fs, k, open))
  {
  }

  // ----- which error a caller gets -----

  /** The reply is success or a failure of the store. */
  ghost predicate Tried<T>(r: Result<T, Error>) { r.Ok? || r == Err(Error.Io) }

  ghost predicate LinkReplies(v: Volume, c: Codec, ino: nat, parent: nat, name: Name, r: Result<(), Error>) {
    var file, k := ino in v.inodes && !IsDir(v, ino), KeyOf(c, parent, name);
    true == (
      && (r == Err(Stale) <==> ino !in v.inodes || (file && parent !in v.inodes))
      && (r == Err(NotPermitted) <==> IsDir(v, ino))
      && (r == Err(NotDir) <==> file && parent in v.inodes && !IsDir(v, parent))
      && (r == Err(Exists) <==> file && IsDir(v, parent) && k in v.dirents)
      && (Tried(r) <==> file && IsDir(v, parent) && k !in v.dirents))
  }

  ghost predicate UnlinkReplies(v: Volume, k: DirKey, r: Result<(), Error>) {
    true == (
      && (r == Err(NotFound) <==> k !in v.dirents)
      && (r == Err(IsDirectory) <==> k in v.dirents && IsDir(v, v.dirents[k].child))
      && (Tried(r) <==> k in v.dirents && !IsDir(v, v.dirents[k].child)))
  }

  ghost predicate RmdirReplies(v: Volume, k: DirKey, r: Result<(), Error>) {
    true == (
      && (r == Err(NotFound) <==> k !in v.dirents)
      && (r == Err(NotDir) <==> k in v.dirents && !IsDir(v, v.dirents[k].child))
      && (r == Err(NotEmpty) <==>
          k in v.dirents && IsDir(v, v.dirents[k].child) && EntriesIn(v, v.dirents[k].child) != {})
      && (Tried(r) <==> k in v.dirents && IsDir(v, v.dirents[k].child) && EntriesIn(v, v.dirents[k].child) == {}))
  }

  ghost predicate RenameReplies(v: Volume, c: Codec, src: DirKey, parent: nat, name: Name, r: Result<(), Error>) {
    true == (
      && (r == Err(NotFound) <==> src !in v.dirents)
      && (src in v.dirents && Distinct(v, src, KeyOf(c, parent, name)) ==>
          && (Tried(r) <==> CanRename(v, c, src, parent, name))
          && forall e :: e != Error.Io ==> (r == Err(e) <==> RenameRefused(v, c, src, parent, name, e)))
      && (src in v.dirents && !Distinct(v, src, KeyOf(c, parent, name)) ==> r.Ok?))
  }

  /** What a call for a regular file answers for anything else. */
  ghost predicate FileReplies<T>(v: Volume, ino: nat, r: Result<T, Error>) {
    true == (
      && (r == Err(Stale) <==> ino !in v.inodes)
      && (r == Err(IsDirectory) <==> IsDir(v, ino))
      && (r == Err(Error.Invalid) <==> ino in v.inodes && !IsDir(v, ino) && !IsFile(v, ino))
      && (Tried(r) || r == Err(Error.QuotaExceeded) <==> IsFile(v, ino)))
  }

  ghost predicate WriteReplies(cs: nat, limits: QuotaLimits, fs: Fs, ino: nat, offset: nat, data: seq<byte>, now: nat,
                               r: Result<nat, Error>) {
    true == (
      && (data == [] ==> r == Ok(0))
      && (r == Err(Error.FileTooBig) <==> data != [] && offset + |data| > MaxFile(cs))
      && (data != [] && offset + |data| <= MaxFile(cs) ==>
          && FileReplies(fs.v, ino, r)
          && (r == Err(Error.QuotaExceeded) <==> IsFile(fs.v, ino) && Refused(limits, fs,
                FileContent.Written(cs, FileOf(fs.v, ino), offset, data).billed - fs.v.inodes[ino].billedBytes, 0, now))))
  }

  ghost predicate MakeReplies(limits: QuotaLimits, fs: Fs, c: Codec, parent: nat, name: Name, now: nat,
                              r: Result<nat, Error>) {
    true == (
      && (r == Err(Stale) <==> parent !in fs.v.inodes)
      && (r == Err(NotDir) <==> parent in fs.v.inodes && !IsDir(fs.v, parent))
      && (r == Err(Exists) <==> IsDir(fs.v, parent) && KeyOf(c, parent, name) in fs.v.dirents)
      && (r == Err(Error.QuotaExceeded) <==> Free(fs, c, parent, name) && Refused(limits, fs, 0, 1, now))
      && (Tried(r) <==> Free(fs, c, parent, name) && !Refused(limits, fs, 0, 1, now)))
  }

  lemma UnlinkTried(v: Volume, k: DirKey, r: Result<(), Error>)
    requires k in v.dirents && !IsDir(v, v.dirents[k].child) && Tried(r)
    ensures UnlinkReplies(v, k, r)
  {
  }

  lemma RenameTried(v: Volume, c: Codec, src: DirKey, parent: nat, name: Name, r: Result<(), Error>)
    requires CanRename(v, c, src, parent, name) && Tried(r)
    requires Distinct(v, src, KeyOf(c, parent, name)) && forall e :: !RenameRefused(v, c, src, parent, name, e)
    ensures RenameReplies(v, c, src, parent, name, r)
  {
  }

  lemma FileTried<T>(v: Volume, ino: nat, r: Result<T, Error>)
    requires IsFile(v, ino) && (Tried(r) || r == Err(Error.QuotaExceeded))
    ensures FileReplies(v, ino, r)
  {
  }

  lemma WriteTried(cs: nat, limits: QuotaLimits, fs: Fs, ino: nat, offset: nat, data: seq<byte>, now: nat, delta: int,
                   r: Result<nat, Error>)
    requires IsFile(fs.v, ino) && data != [] && offset + |data| <= MaxFile(cs)
    requires delta == FileContent.Written(cs, FileOf(fs.v, ino), offset, data).billed - fs.v.inodes[ino].billedBytes
    requires if Refused(limits, fs, delta, 0, now) then r == Err(Error.QuotaExceeded) else Tried(r)
    ensures WriteReplies(cs, limits, fs, ino, offset, data, now, r)
  {
    FileTried(fs.v, ino, r);
  }

  // ----- the operations on values -----

  method CheckNew(c: Codec, ghost limits: QuotaLimits, fs: Fs, parent: nat, name: Name, ghost kind: Kind, ghost size: nat,
                  ghost fate: Fate) returns (refused: Option<Error>)
    ensures refused == None <==> Free(fs, c, parent, name)
    ensures refused.Some? ==> MakeStep(c, limits, fs, parent, name, kind, size, fate, fs, false)
    ensures refused.Some? ==> MakeReplies(limits, fs, c, parent, name, fate.now, Err(refused.value))
  {
    refused := NameFree(fs.v, c, parent, name);
  }

  lemma SettledPays(fs: Fs, ino: nat, fate: Fate, fs': Fs, ok: bool)
    requires SettledBy(fs, ino, fate, fs', ok)
    ensures Pays(fs, fs', if ino in fs.v.inodes && fate.commits then (fs.v.inodes[ino].billedBytes, 1) else (0, 0))
  {
  }

  /** insert_new_node, once quota has been asked. */
  method InsertNode(c: Codec, cs: nat, limits: QuotaLimits, fs: Fs, parent: nat, name: Name, kind: Kind, size: nat,
                    fate: Fate, admitted: bool) returns (r: Result<nat, Error>, fs': Fs)
    requires Sound(c, cs, fs) && Free(fs, c, parent, name) && admitted == !Refused(limits, fs, 0, 1, fate.now)
    ensures Sound(c, cs, fs') && MakeStep(c, limits, fs, parent, name, kind, size, fate, fs', r.Ok?)
    ensures r.Ok? ==> r.value !in fs.v.inodes && Made(fs'.v, KeyOf(c, parent, name), r.value, kind)
    ensures r.Ok? ==> Blank(fs'.v, r.value, kind, parent, size)
    ensures MakeReplies(limits, fs, c, parent, name, fate.now, r)
    ensures fs'.counterBytes == fs.counterBytes
    ensures fs'.counterInodes == fs.counterInodes + (if admitted && fate.commits then 1 else 0)
  {
    if !admitted {
      r, fs' := Err(Error.QuotaExceeded), Spent(fs);
    } else if !fate.commits {
      r, fs' := Err(Error.Io), Spent(fs);
    } else {
      r, fs' := Ok(fs.nextIno), Created(fs, c, parent, name, NewNode(kind, parent, size));
    }
    MakeStepSound(c, cs, limits, fs, parent, name, kind, size, fate, fs', r.Ok?);
  }

  method LinkFile(c: Codec, ghost cs: nat, fs: Fs, ino: nat, parent: nat, name: Name, fate: Fate)
    returns (r: Result<(), Error>, fs': Fs)
    requires Sound(c, cs, fs)
    ensures LinkStep(c, fs, ino, parent, name, fate, fs', r.Ok?) && LinkReplies(fs.v, c, ino, parent, name, r)
    ensures Sound(c, cs, fs') <==> !(r.Ok? && RevivesDead(fs, ino))
    ensures fs'.counterBytes == fs.counterBytes && fs'.counterInodes == fs.counterInodes
  {
    if ino !in fs.v.inodes {
      return Err(Stale), fs;
    }
    if IsDir(fs.v, ino) {
      return Err(NotPermitted), fs;
    }
    var refused := NameFree(fs.v, c, parent, name);
    if refused.Some? {
      return Err(refused.value), fs;
    }
    if !fate.commits {
      return Err(Error.Io), fs;
    }
    LinkedKeepsIff(c, cs, fs, ino, parent, name);
    return Ok(()), Linked(fs, c, ino, parent, name);
  }

  /** Reaps the data of a file whose record went in the batch before. */
  method ReapIf(ghost c: Codec, ghost cs: nat, fs: Fs, ino: nat, dies: bool, writes: nat)
    returns (r: Result<(), Error>, fs': Fs)
    requires Sound(c, cs, fs) && (dies ==> ino in fs.v.orphans && ino !in fs.v.inodes)
    ensures Sound(c, cs, fs') && Cleared(fs, ino, dies, writes, fs', r.Ok?) && Tried(r)
    ensures fs'.counterBytes == fs.counterBytes && fs'.counterInodes == fs.counterInodes
  {
    var done;
    fs', done := fs, true;
    if dies {
      fs', done := ReapData(fs, ino, writes);
    }
    ClearedSound(c, cs, fs, ino, dies, writes, fs', done);
    r := if done then Ok(()) else Err(Error.Io);
  }

  method UnlinkFile(c: Codec, ghost cs: nat, fs: Fs, open: multiset<nat>, parent: nat, name: Name, fate: Fate)
    returns (r: Result<(), Error>, fs': Fs, freed: (int, int))
    requires Sound(c, cs, fs)
    ensures Sound(c, cs, fs') && UnlinkStep(c, fs, open, parent, name, fate, fs', r.Ok?)
    ensures Pays(fs, fs', freed) && UnlinkReplies(fs.v, KeyOf(c, parent, name), r)
    ensures var k := KeyOf(c, parent, name);
      CanUnlink(fs.v, k) <==> k in fs.v.dirents && !IsDir(fs.v, fs.v.dirents[k].child)
  {
    var k := KeyOf(c, parent, name);
    r, fs', freed := Err(Error.Io), fs, (0, 0);
    if k !in fs.v.dirents {
      return Err(NotFound), fs, (0, 0);
    }
    var child := fs.v.dirents[k].child;
    if IsDir(fs.v, child) {
      return Err(IsDirectory), fs, (0, 0);
    }
    NamedCanUnlink(fs.v, c, k);
    if fate.commits {
      UnnamedSound(c, cs, fs, k, open);
      ReplacedFrees(fs, k, open);
      freed := Freed(fs, k, open);
      r, fs' := ReapIf(c, cs, Unnamed(fs, k, child in open), child, Dies(fs.v, k, open), fate.writes);
    }
    UnlinkTried(fs.v, k, r);
  }

  method RemoveDir(c: Codec, ghost cs: nat, fs: Fs, parent: nat, name: Name, fate: Fate)
    returns (r: Result<(), Error>, fs': Fs, freed: (int, int))
    requires Sound(c, cs, fs)
    ensures Sound(c, cs, fs') && RmdirStep(c, fs, parent, name, fate, fs', r.Ok?)
    ensures Pays(fs, fs', freed) && RmdirReplies(fs.v, KeyOf(c, parent, name), r)
    ensures var k := KeyOf(c, parent, name);
      CanRmdir(fs.v, k) <==>
      k in fs.v.dirents && IsDir(fs.v, fs.v.dirents[k].child) && EntriesIn(fs.v, fs.v.dirents[k].child) == {}
  {
    var k := KeyOf(c, parent, name);
    if k !in fs.v.dirents {
      return Err(NotFound), fs, (0, 0);
    }
    if !IsDir(fs.v, fs.v.dirents[k].child) {
      return Err(NotDir), fs, (0, 0);
    }
    if EntriesIn(fs.v, fs.v.dirents[k].child) != {} {
      return Err(NotEmpty), fs, (0, 0);
    }
    EmptyCanRmdir(fs.v, c, k);
    if !fate.commits {
      return Err(Error.Io), fs, (0, 0);
    }
    EmptiedKeeps(c, cs, fs, k);
    return Ok(()), Emptied(fs, k), (0, 1);
  }

  method RenameEntry(c: Codec, cs: nat, fs: Fs, open: multiset<nat>, parent: nat, name: Name, newParent: nat,
                     newName: Name, fate: Fate) returns (r: Result<(), Error>, fs': Fs, freed: (int, int))
    requires Sound(c, cs, fs)
    ensures Sound(c, cs, fs') && RenameStep(c, fs, open, parent, name, newParent, newName, fate, fs', r.Ok?)
    ensures Pays(fs, fs', freed) && RenameReplies(fs.v, c, KeyOf(c, parent, name), newParent, newName, r)
  {
    var src, dst := KeyOf(c, parent, name), KeyOf(c, newParent, newName);
    if src !in fs.v.dirents {
      return Err(NotFound), fs, (0, 0);
    }
    if !Distinct(fs.v, src, dst) {
      return Ok(()), fs, (0, 0);
    }
    var refused := CheckRename(c, cs, fs, src, newParent, newName);
    if refused.Some? {
      return Err(refused.value), fs, (0, 0);
    }
    r, fs', freed := Err(Error.Io), fs, (0, 0);
    RenameTried(fs.v, c, src, newParent, newName, r);
    if !fate.commits {
      return;
    }
    MovedOverSound(c, cs, fs, src, newParent, newName, open);
    ReplacedFrees(fs, dst, open);
    freed := Freed(fs, dst, open);
    r, fs' := ReapIf(c, cs, MovedOver(fs, c, src, newParent, newName, Held(fs, dst, open)), Target(fs, dst),
                     Dies(fs.v, dst, open), fate.writes);
    RenameTried(fs.v, c, src, newParent, newName, r);
  }

  function CheckFile(v: Volume, ino: nat): (refused: Option<Error>)
    ensures refused == None <==> IsFile(v, ino)
    ensures refused == Some(Stale) <==> ino !in v.inodes
    ensures refused == Some(IsDirectory) <==> IsDir(v, ino)
  {
    if ino !in v.inodes then Some(Stale)
    else if v.inodes[ino].kind == Kind.File then None
    else if IsDir(v, ino) then Some(IsDirectory)
    else Some(Error.Invalid)
  }

  // ----- content -----

  /** What a write returns before it looks at the data. */
  method CheckWrite(ghost c: Codec, cs: nat, ghost limits: QuotaLimits, fs: Fs, ino: nat, offset: nat, data: seq<byte>,
                    ghost fate: Fate) returns (early: Option<Result<nat, Error>>)
    ensures early == None <==> Writable(cs, fs, ino, offset, data)
    ensures early.Some? ==> WriteStep(cs, limits, fs, ino, offset, data, fate, fs, early.value.Ok?)
    ensures early.Some? && early.value.Ok? ==> early.value.value == |data|
    ensures early.Some? ==> WriteReplies(cs, limits, fs, ino, offset, data, fate.now, early.value)
  {
    if data == [] {
      return Some(Ok(0));
    }
    if offset + |data| > MaxFile(cs) {
      return Some(Err(Error.FileTooBig));
    }
    var refused := CheckFile(fs.v, ino);
    early := if refused.Some? then Some(Err(refused.value)) else None;
  }

  /** The write is of some bytes of a regular file, within the largest size. */
  predicate Writable(cs: nat, fs: Fs, ino: nat, offset: nat, data: seq<byte>) {
    true == (data != [] && offset + |data| <= MaxFile(cs) && IsFile(fs.v, ino))
  }

  /** `f` is the file after the write, and bills `delta` more. */
  ghost predicate Planned(cs: nat, fs: Fs, ino: nat, offset: nat, data: seq<byte>, f: FileContent.File, delta: int) {
    true == (
      && ino in fs.v.inodes && f == FileContent.Written(cs, FileOf(fs.v, ino), offset, data)
      && delta == f.billed - FileOf(fs.v, ino).billed)
  }

  method PlanFileWrite(ghost c: Codec, cs: nat, fs: Fs, ino: nat, offset: nat, data: seq<byte>)
    returns (f: FileContent.File, delta: int)
    requires Sound(c, cs, fs) && Writable(cs, fs, ino, offset, data)
    ensures Planned(cs, fs, ino, offset, data, f, delta)
  {
    FileSound(c, cs, fs, ino);
    f, delta := FileContent.WriteFile(cs, FileOf(fs.v, ino), offset, data);
  }

  /** The batch of a write, once quota has been asked. */
  method FinishWrite(ghost c: Codec, cs: nat, ghost limits: QuotaLimits, fs: Fs, ino: nat, offset: nat, data: seq<byte>,
                     fate: Fate, f: FileContent.File, delta: int, admitted: bool)
    returns (r: Result<nat, Error>, fs': Fs)
    requires Sound(c, cs, fs) && Writable(cs, fs, ino, offset, data)
    requires Planned(cs, fs, ino, offset, data, f, delta)
    requires admitted == !Refused(limits, fs, delta, 0, fate.now)
    ensures WriteStep(cs, limits, fs, ino, offset, data, fate, fs', r.Ok?)
    ensures Sound(c, cs, fs') <==> !(r.Ok? && WriteRevives(cs, fs, ino, offset, data))
    ensures Charges(fs, fs', if admitted && fate.commits then delta else 0)
    ensures r.Ok? ==> r.value == |data|
    ensures WriteReplies(cs, limits, fs, ino, offset, data, fate.now, r)
  {
    var ok := admitted && fate.commits;
    FileSound(c, cs, fs, ino);
    WrittenBilled(cs, FileOf(fs.v, ino), offset, data);
    StoredBills(fs, ino, f);
    fs' := if ok then Stored(fs, ino, f) else fs;
    r := if !admitted then Err(Error.QuotaExceeded) else if ok then Ok(|data|) else Err(Error.Io);
    WriteStepSoundIff(c, cs, limits, fs, ino, offset, data, fate, fs', ok);
    WriteTried(cs, limits, fs, ino, offset, data, fate.now, delta, r);
  }

  /** `fs'` counts that many bytes more than `fs`. */
  predicate Charges(fs: Fs, fs': Fs, bytes: int) {
    fs'.counterInodes == fs.counterInodes && fs'.counterBytes == fs.counterBytes + bytes
  }

  lemma StoredBills(fs: Fs, ino: nat, f: FileContent.File)
    requires ino in fs.v.inodes && f.billed >= 0
    ensures Charges(fs, Stored(fs, ino, f), f.billed - fs.v.inodes[ino].billedBytes)
  {
  }

  method CheckSize(ghost cs: nat, fs: Fs, ino: nat, newSize: nat, fate: Fate) returns (early: Option<Result<(), Error>>)
    ensures early == None <==> IsFile(fs.v, ino) && newSize != fs.v.inodes[ino].size
    ensures early.Some? ==> SizeStep(cs, fs, ino, newSize, fate, fs, early.value.Ok?)
    ensures early.Some? && early.value.Ok? ==> newSize == fs.v.inodes[ino].size
    ensures early.Some? ==> FileReplies(fs.v, ino, early.value) && early.value != Err(Error.QuotaExceeded)
  {
    var refused := CheckFile(fs.v, ino);
    if refused.Some? {
      return Some(Err(refused.value));
    }
    if newSize == fs.v.inodes[ino].size {
      return Some(if fate.commits then Ok(()) else Err(Error.Io));
    }
    return None;
  }

  /** Growing and shrinking never cost quota. */
  method PlanFileSize(ghost c: Codec, cs: nat, fs: Fs, ino: nat, newSize: nat, fate: Fate)
    returns (f: FileContent.File, delta: int, complete: bool)
    requires Sound(c, cs, fs) && IsFile(fs.v, ino)
    ensures f == FileContent.Resized(cs, FileOf(fs.v, ino), newSize, fate.writes)
    ensures 0 <= f.billed && delta == f.billed - FileOf(fs.v, ino).billed <= 0
    ensures complete <==> newSize >= fs.v.inodes[ino].size || forall k :: k in f.chunks ==> Start(cs, k) < newSize
  {
    FileSound(c, cs, fs, ino);
    ResizedBilled(cs, FileOf(fs.v, ino), newSize, fate.writes);
    f, delta, complete := FileContent.Resize(cs, FileOf(fs.v, ino), newSize, fate.writes);
  }

  method FinishSize(ghost c: Codec, ghost cs: nat, fs: Fs, ino: nat, newSize: nat, fate: Fate, f: FileContent.File,
                    ghost delta: int, complete: bool) returns (r: Result<(), Error>, fs': Fs)
    requires Sound(c, cs, fs) && IsFile(fs.v, ino) && newSize != fs.v.inodes[ino].size
    requires f == FileContent.Resized(cs, FileOf(fs.v, ino), newSize, fate.writes) && f.billed >= 0
    requires delta == f.billed - FileOf(fs.v, ino).billed
    requires complete <==> newSize > fs.v.inodes[ino].size || forall k :: k in f.chunks ==> Start(cs, k) < newSize
    ensures SizeStep(cs, fs, ino, newSize, fate, fs', r.Ok?) && FileReplies(fs.v, ino, r) && Tried(r)
    ensures Sound(c, cs, fs') <==> !(r.Ok? && GrowRevives(cs, fs, ino, newSize))
    ensures Charges(fs, fs', if fate.commits then delta else 0)
  {
    StoredBills(fs, ino, f);
    fs' := if fate.commits then Stored(fs, ino, f) else fs;
    r := if fate.commits && complete then Ok(()) else Err(Error.Io);
    SizeStepSoundIff(c, cs, fs, ino, newSize, fate, fs', r.Ok?);
    FileTried(fs.v, ino, r);
  }

  class MountedVolume {
    const c: Codec
    const cs: nat
    const quota: QuotaTracker
    var fs: Fs
    // Inodes with open handles, one occurrence for each handle.
    var open: multiset<nat>

    ghost predicate Tracked()
      reads this, quota
    {
      true == (quota.bytes == fs.counterBytes && quota.inodes == fs.counterInodes)
    }

    ghost predicate Valid()
      reads this, quota
    {
      true == (Sound(c, cs, fs) && Tracked())
    }

    /** mkfs and the first mount. */
    constructor (c: Codec, cs: nat, limits: QuotaLimits)
      requires cs > 0 && GoodCodec(c)
      ensures Valid() && fresh(quota) && quota.limits == limits
      ensures this.c == c && this.cs == cs && fs == Formatted() && open == multiset{}
    {
      this.c, this.cs, fs, open := c, cs, Formatted(), multiset{};
      quota := new QuotaTracker(0, 1, limits);
      FormattedSound(c, cs);
    }

    method Make(parent: nat, name: Name, kind: Kind, size: nat, fate: Fate) returns (r: Result<nat, Error>)
      requires Valid()
      modifies this`fs, quota
      ensures Valid() && quota.limits == old(quota.limits)
      ensures MakeStep(c, old(quota.limits), old(fs), parent, name, kind, size, fate, fs, r.Ok?)
      ensures r.Ok? ==> r.value !in old(fs.v.inodes) && Made(fs.v, KeyOf(c, parent, name), r.value, kind)
      ensures r.Ok? ==> Blank(fs.v, r.value, kind, parent, size)
      ensures MakeReplies(old(quota.limits), old(fs), c, parent, name, fate.now, r)
    {
      var before, limits := fs, quota.limits;
      var refused := CheckNew(c, limits, before, parent, name, kind, size, fate);
      if refused.Some? {
        return Err(refused.value);
      }
      var admitted := quota.Charge(0, 1, fate.commits, fate.now);
      var after;
      r, after := InsertNode(c, cs, limits, before, parent, name, kind, size, fate, admitted);
      fs := after;
    }

    method Create(parent: nat, name: Name, exclusive: bool, fate: Fate) returns (r: Result<nat, Error>)
      requires Valid()
      modifies this`fs, quota
      ensures Valid() && quota.limits == old(quota.limits)
      ensures CreateStep(c, old(quota.limits), old(fs), parent, name, exclusive, fate, fs, r.Ok?)
      ensures r.Ok? ==> exists kind :: kind != Dir && Made(fs.v, KeyOf(c, parent, name), r.value, kind)
      ensures old(KeyOf(c, parent, name) !in fs.v.dirents) ==>
        MakeReplies(old(quota.limits), old(fs), c, parent, name, fate.now, r)
      ensures old(KeyOf(c, parent, name) in fs.v.dirents) ==>
        r == if exclusive then Err(Exists)
             else if old(IsDir(fs.v, fs.v.dirents[KeyOf(c, parent, name)].child)) then Err(IsDirectory)
             else Ok(old(fs.v.dirents[KeyOf(c, parent, name)].child))
    {
      var k := KeyOf(c, parent, name);
      if k in fs.v.dirents {
        EntryFound(c, cs, fs, k);
        if exclusive {
          return Err(Exists);
        }
        if IsDir(fs.v, fs.v.dirents[k].child) {
          return Err(IsDirectory);
        }
        assert Made(fs.v, k, fs.v.dirents[k].child, fs.v.inodes[fs.v.dirents[k].child].kind);
        return Ok(fs.v.dirents[k].child);
      }
      r := Make(parent, name, Kind.File, 0, fate);
    }

    /** link: the volume stays sound if and only if the inode still had a link. */
    method Link(ino: nat, parent: nat, name: Name, fate: Fate) returns (r: Result<(), Error>)
      requires Valid()
      modifies this`fs
      ensures LinkStep(c, old(fs), ino, parent, name, fate, fs, r.Ok?)
      ensures LinkReplies(old(fs.v), c, ino, parent, name, r)
      ensures Tracked() && (Valid() <==> !(r.Ok? && RevivesDead(old(fs), ino)))
    {
      r, fs := LinkFile(c, cs, fs, ino, parent, name, fate);
    }

    /** What a batch that gave something back leaves. Frees after a commit never fail. */
    method Install(after: Fs, freed: (int, int))
      requires Tracked() && Pays(fs, after, freed)
      modifies this`fs, quota
      ensures fs == after && Tracked() && open == old(open) && quota.limits == old(quota.limits)
    {
      var _ := quota.Reserve(-freed.0, -freed.1, 0);
      fs := after;
    }

    method Unlink(parent: nat, name: Name, fate: Fate) returns (r: Result<(), Error>)
      requires Valid()
      modifies this`fs, quota
      ensures Valid() && quota.limits == old(quota.limits)
      ensures open == old(open)
      ensures UnlinkStep(c, old(fs), old(open), parent, name, fate, fs, r.Ok?)
      ensures UnlinkReplies(old(fs.v), KeyOf(c, parent, name), r)
    {
      var after, freed;
      r, after, freed := UnlinkFile(c, cs, fs, open, parent, name, fate);
      Install(after, freed);
    }

    method Rmdir(parent: nat, name: Name, fate: Fate) returns (r: Result<(), Error>)
      requires Valid()
      modifies this`fs, quota
      ensures Valid() && quota.limits == old(quota.limits)
      ensures RmdirStep(c, old(fs), parent, name, fate, fs, r.Ok?)
      ensures RmdirReplies(old(fs.v), KeyOf(c, parent, name), r)
    {
      var after, freed;
      r, after, freed := RemoveDir(c, cs, fs, parent, name, fate);
      Install(after, freed);
    }

    method Rename(parent: nat, name: Name, newParent: nat, newName: Name, fate: Fate) returns (r: Result<(), Error>)
      requires Valid()
      modifies this`fs, quota
      ensures Valid() && quota.limits == old(quota.limits)
      ensures open == old(open)
      ensures RenameStep(c, old(fs), old(open), parent, name, newParent, newName, fate, fs, r.Ok?)
      ensures RenameReplies(old(fs.v), c, KeyOf(c, parent, name), newParent, newName, r)
    {
      var after, freed;
      r, after, freed := RenameEntry(c, cs, fs, open, parent, name, newParent, newName, fate);
      Install(after, freed);
    }

    method Open(ino: nat) returns (r: Result<(), Error>)
      modifies this`open
      ensures r.Ok? <==> ino in fs.v.inodes
      ensures open == if r.Ok? then old(open) + multiset{ino} else old(open)
    {
      if ino !in fs.v.inodes {
        return Err(Stale);
      }
      open := open + multiset{ino};
      return Ok(());
    }

    /** finish_orphan. */
    method Settle(ino: nat, fate: Fate) returns (r: Result<(), Error>)
      requires Tracked()
      modifies this`fs, quota
      ensures SettledBy(old(fs), ino, fate, fs, r.Ok?)
      ensures Tracked() && quota.limits == old(quota.limits)
    {
      var after, ok := SettleFile(fs, ino, fate);
      SettledPays(fs, ino, fate, after, ok);
      Install(after, if ino in fs.v.inodes && fate.commits then (fs.v.inodes[ino].billedBytes, 1) else (0, 0));
      return if ok then Ok(()) else Err(Error.Io);
    }

    /** close, on any volume. */
    method Close(ino: nat, fate: Fate) returns (r: Result<(), Error>)
      requires Tracked()
      modifies this, quota
      ensures CloseStep(old(fs), old(open), ino, fate, fs, open, r.Ok?)
      ensures Tracked() && (old(Valid()) ==> Valid()) && quota.limits == old(quota.limits)
    {
      if ino !in open {
        return Err(BadHandle);
      }
      open := open - multiset{ino};
      r := Ok(());
      if ino !in open && ino in fs.v.orphans {
        r := Settle(ino, fate);
      }
      if old(Valid()) { CloseStepSound(c, cs, old(fs), old(open), ino, fate, fs, open, r.Ok?); }
    }

    /** A crash forgets the handles and the tracker. The next mount reaps and reads the counters. */
    method Remount(fates: nat -> Fate) returns (ok: bool)
      modifies this, quota
      ensures MountStep(old(fs), old(fs).v.orphans, fates, fs, ok) && open == multiset{}
      ensures Tracked() && (old(Sound(c, cs, fs)) ==> Valid()) && quota.limits == old(quota.limits)
    {
      var after;
      after, ok := ReapOrphans(fs, fates);
      if old(Sound(c, cs, fs)) { MountStepSound(c, cs, old(fs), old(fs).v.orphans, fates, after, ok); }
      quota.Load(after.counterBytes, after.counterInodes);
      fs, open := after, multiset{};
    }

    /** write: the volume stays sound if and only if no leftover chunk comes back outside the range written. */
    method Write(ino: nat, offset: nat, data: seq<byte>, fate: Fate) returns (r: Result<nat, Error>)
      requires Valid()
      modifies this`fs, quota
      ensures WriteStep(cs, old(quota.limits), old(fs), ino, offset, data, fate, fs, r.Ok?)
      ensures Tracked() && quota.limits == old(quota.limits)
      ensures Valid() <==> !(r.Ok? && WriteRevives(cs, old(fs), ino, offset, data))
      ensures WriteReplies(cs, old(quota.limits), old(fs), ino, offset, data, fate.now, r)
      ensures r.Ok? ==> r.value == |data|
    {
      var early := CheckWrite(c, cs, quota.limits, fs, ino, offset, data, fate);
      if early.Some? {
        return early.value;
      }
      r := WriteBytes(ino, offset, data, fate);
    }

    /** write, once the file is known to take the bytes. */
    method WriteBytes(ino: nat, offset: nat, data: seq<byte>, fate: Fate) returns (r: Result<nat, Error>)
      requires Valid() && Writable(cs, fs, ino, offset, data)
      modifies this`fs, quota
      ensures WriteStep(cs, old(quota.limits), old(fs), ino, offset, data, fate, fs, r.Ok?)
      ensures Tracked() && quota.limits == old(quota.limits)
      ensures Valid() <==> !(r.Ok? && WriteRevives(cs, old(fs), ino, offset, data))
      ensures WriteReplies(cs, old(quota.limits), old(fs), ino, offset, data, fate.now, r)
      ensures r.Ok? ==> r.value == |data|
    {
      var before, limits := fs, quota.limits;
      var f, delta := PlanFileWrite(c, cs, before, ino, offset, data);
      var admitted := quota.Charge(delta, 0, fate.commits, fate.now);
      var after;
      r, after := FinishWrite(c, cs, limits, before, ino, offset, data, fate, f, delta, admitted);
      fs := after;
    }

    /** setattr of the size: the volume stays sound if and only if no leftover chunk comes back. */
    method SetSize(ino: nat, newSize: nat, fate: Fate) returns (r: Result<(), Error>)
      requires Valid()
      modifies this`fs, quota
      ensures SizeStep(cs, old(fs), ino, newSize, fate, fs, r.Ok?) && FileReplies(old(fs.v), ino, r)
      ensures r != Err(Error.QuotaExceeded)
      ensures Tracked() && quota.limits == old(quota.limits)
      ensures Valid() <==> !(r.Ok? && GrowRevives(cs, old(fs), ino, newSize))
    {
      var before := fs;
      var early := CheckSize(cs, before, ino, newSize, fate);
      if early.Some? {
        return early.value;
      }
      var f, delta, complete := PlanFileSize(c, cs, before, ino, newSize, fate);
      var _ := quota.Charge(delta, 0, fate.commits, fate.now);
      var after;
      r, after := FinishSize(c, cs, before, ino, newSize, fate, f, delta, complete);
      fs := after;
    }
  }
}
