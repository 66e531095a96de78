/** Settling unlinked files (crates/slatefs-core/src/vfs_impl.rs, `finish_orphan`; volume.rs, `reap_orphan_data`):
    the record goes in one batch, the chunks in batches after it, the orphan marker last. It can stop anywhere. */
module Reaping {
  import opened Common
  import opened Chunks
  import opened Data
  import opened Metadata
  import opened Entries
  import opened Namespace
  import opened Removal
  import opened Filesystem

  const REAP_BATCH: nat := 1024

  // ----- deleting chunks in batches -----

  /** `m'` is `m` without its first `n` chunks. */
  ghost predicate FirstGone(m: ChunkMap, m': ChunkMap, n: nat) {
    true == (
      && |m'| + n == |m| && (forall k :: k in m' ==> k in m && m'[k] == m[k])
      && (forall k, j :: k in m && k !in m' && j in m' ==> k < j))
  }

  /** How many batches it takes to delete `n` chunks. */
  function Batches(n: nat): nat { if n <= REAP_BATCH then (if n == 0 then 0 else 1) else 1 + Batches(n - REAP_BATCH) }

  lemma FirstGoneMore(m: ChunkMap, m': ChunkMap, n: nat, k: nat)
    requires FirstGone(m, m', n) && IsNext(m'.Keys, 0, Some(k))
    ensures FirstGone(m, m' - {k}, n + 1)
  {
    assert (m' - {k}).Keys == m'.Keys - {k};
    assert |m' - {k}| == |(m' - {k}).Keys| && |m'| == |m'.Keys|;
  }

  /** One batch: the first chunks in the order of the scan. */
  method TakeBatch(m: ChunkMap) returns (m': ChunkMap, n: nat)
    ensures n == Min(REAP_BATCH, |m|) && FirstGone(m, m', n)
  {
    m', n := m, 0;
    while n < REAP_BATCH
      invariant n <= REAP_BATCH && FirstGone(m, m', n)
    {
      var next := ScanNext(m'.Keys, 0);
      if next.None? {
        assert m'.Keys == {} && |m'| == |m'.Keys|;
        return;
      }
      FirstGoneMore(m, m', n, next.value);
      assert |m'| == |m'.Keys| && next.value in m'.Keys;
      m', n := m' - {next.value}, n + 1;
    }
  }

  lemma FirstGoneThen(m: ChunkMap, m': ChunkMap, n: nat, m'': ChunkMap, n': nat)
    requires FirstGone(m, m', n) && FirstGone(m', m'', n')
    ensures FirstGone(m, m'', n + n')
  {
  }

  /** Deletes chunks batch by batch; `writes` of the writes succeed. All chunks go if there are enough, and one
      write more is needed for the marker. */
  method ReapChunks(m: ChunkMap, writes: nat) returns (m': ChunkMap, done: bool)
    ensures done <==> writes > Batches(|m|)
    ensures done ==> m' == map[]
    ensures !done ==> FirstGone(m, m', Min(|m|, REAP_BATCH * writes))
  {
    var left: nat := writes;
    ghost var gone: nat := 0;
    m', done := m, false;
    while true
      invariant FirstGone(m, m', gone) && left <= writes && gone == Min(|m|, REAP_BATCH * (writes - left))
      invariant Batches(|m|) == Batches(|m'|) + writes - left
      decreases |m'|
    {
      var next, n := TakeBatch(m');
      if n == 0 {
        break;
      }
      if left == 0 {
        return;
      }
      FirstGoneThen(m, m', gone, next, n);
      m', left, gone := next, left - 1, gone + n;
      assert gone == Min(|m|, REAP_BATCH * (writes - left));
      if n < REAP_BATCH {
        break;
      }
    }
    done := left > 0;
    assert gone == |m| && |m'| == |m'.Keys|;
  }

  // ----- settling -----

  /** The record of an orphan goes, and its bill with it. */
  function Dropped(fs: Fs, ino: nat): Fs {
    if ino in fs.v.inodes then
      fs.(v := DropInode(fs.v, ino), counterInodes := fs.counterInodes - 1,
          counterBytes := fs.counterBytes - fs.v.inodes[ino].billedBytes)
    else fs
  }

  /** Its data is reaped as far as `writes` writes go. */
  ghost predicate ReapedBy(fs: Fs, ino: nat, writes: nat, fs': Fs, done: bool) {
    true == (
      && fs' == fs.(v := fs'.v) && (done <==> writes > Batches(|ChunksOf(fs.v, ino)|))
      && if done then fs'.v == Reap(fs.v, ino) else PartlyReaped(fs.v, ino, REAP_BATCH * writes, fs'.v))
  }

  ghost predicate PartlyReaped(v: Volume, ino: nat, n: nat, v': Volume) {
    && v' == v.(chunks := v'.chunks)
    && v'.chunks == (if ino in v.chunks then v.chunks[ino := ChunksOf(v', ino)] else v.chunks)
    && FirstGone(ChunksOf(v, ino), ChunksOf(v', ino), Min(|ChunksOf(v, ino)|, n))
  }

  method ReapData(fs: Fs, ino: nat, writes: nat) returns (fs': Fs, done: bool)
    ensures ReapedBy(fs, ino, writes, fs', done)
  {
    var m;
    m, done := ReapChunks(ChunksOf(fs.v, ino), writes);
    if done {
      fs' := fs.(v := Reap(fs.v, ino));
    } else if ino in fs.v.chunks {
      fs' := fs.(v := fs.v.(chunks := fs.v.chunks[ino := m]));
    } else {
      fs' := fs;
    }
  }

  // ----- settling keeps the volume sound -----

  lemma DroppedKeeps(c: Codec, cs: nat, fs: Fs, ino: nat)
    requires Inv(c, cs, fs) && ino in fs.v.orphans
    ensures Inv(c, cs, Dropped(fs, ino))
  {
    if ino in fs.v.inodes {
      FinishShape(c, fs.v, ino);
      FinishHoldings(cs, fs.v, fs.nextIno, ino);
      DroppedCounted(fs, ino);
    }
  }

  lemma DroppedCounted(fs: Fs, ino: nat)
    requires Counted(fs)
    ensures Counted(Dropped(fs, ino))
  {
    if ino in fs.v.inodes { CountDrop(fs.v, DropInode(fs.v, ino), ino); }
  }

  /** A reaper stopped after any batch leaves the volume as sound as it was. */
  lemma ReapedKeeps(c: Codec, cs: nat, fs: Fs, ino: nat, writes: nat, fs': Fs, done: bool)
    requires Inv(c, cs, fs) && ino in fs.v.orphans && ino !in fs.v.inodes && ReapedBy(fs, ino, writes, fs', done)
    ensures Inv(c, cs, fs')
  {
    ReapedShape(c, fs.v, ino, fs'.v, done);
    ReapedHoldings(cs, fs.v, fs.nextIno, ino, fs'.v, done);
    ReapedCounted(fs, fs');
  }

  /** `v'` is `v` with the data of `ino` reaped, or some of it. */
  ghost predicate ReapedOr(v: Volume, ino: nat, v': Volume, done: bool) {
    if done then v' == Reap(v, ino)
    else
      && v' == v.(chunks := v'.chunks)
      && v'.chunks == if ino in v.chunks then v.chunks[ino := ChunksOf(v', ino)] else v.chunks
  }

  lemma ReapedShape(c: Codec, v: Volume, ino: nat, v': Volume, done: bool)
    requires Shape(c, v) && ino !in v.inodes && ReapedOr(v, ino, v', done)
    ensures Shape(c, v')
  {
    if done {
      ReapShape(c, v, ino);
    } else {
      ShapeOnly(c, v, v');
    }
  }

  lemma ReapedHoldings(cs: nat, v: Volume, next: nat, ino: nat, v': Volume, done: bool)
    requires Holdings(cs, v, next) && ino in v.orphans && ino !in v.inodes && ReapedOr(v, ino, v', done)
    ensures Holdings(cs, v', next)
  {
    if done {
      ReapHoldings(cs, v, next, ino);
    } else {
      PartlyReapedHoldings(cs, v, next, ino, v');
    }
  }

  lemma ReapedCounted(fs: Fs, fs': Fs)
    requires Counted(fs) && fs' == fs.(v := fs'.v) && fs'.v.inodes == fs.v.inodes
    ensures Counted(fs')
  {
    assert BilledBy(fs'.v) == BilledBy(fs.v);
  }

  lemma PartlyReapedHoldings(cs: nat, v: Volume, next: nat, ino: nat, v': Volume)
    requires Holdings(cs, v, next) && ino in v.orphans && ino !in v.inodes
    requires v' == v.(chunks := v'.chunks)
    requires v'.chunks == if ino in v.chunks then v.chunks[ino := ChunksOf(v', ino)] else v.chunks
    ensures Holdings(cs, v', next)
  {
    SameNaming(v, v', ROOT);
    forall x | x in v'.inodes ensures FileOk(v', cs, x) { assert FileOk(v, cs, x); }
  }

  lemma ShapeOnly(c: Codec, v: Volume, v': Volume)
    requires Shape(c, v) && v' == v.(chunks := v'.chunks)
    ensures Shape(c, v')
  {
    EntriesOnly(v, c, v');
    forall x | x in v'.inodes ensures LinkExact(v', x) {
      SameCounts(v, v', x);
      assert LinkExact(v, x);
    }
    TreeSame(v, v');
  }
}
