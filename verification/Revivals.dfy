/** Two short runs from an empty volume that leave the checker something to report: what a link brings back
    (crates/slatefs-core/src/vfs_impl.rs, `link` and `close`) and what growing a file brings back (`setattr`). */
module Revivals {
  import opened Common
  import opened Chunks
  import opened Metadata
  import opened Entries
  import opened Namespace
  import opened Moving
  import opened Filesystem
  import opened Quota
  import opened MountSteps
  import opened MountedVolumes
  import FileContent
  import Fsck

  const NO_LIMITS := QuotaLimits(QuotaLimit(None, None, None), QuotaLimit(None, None, None))
  const SMOOTH := Fate(true, 1, 0)

  /** A new volume after the creation of one file. */
  function WithEmpty(c: Codec, name: Name): Fs { Created(Formatted(), c, ROOT, name, NewNode(Kind.File, ROOT, 0)) }

  /** A volume that holds one empty file. */
  method WithFile(c: Codec, cs: nat, name: Name) returns (m: MountedVolume, ino: nat)
    requires cs > 0 && GoodCodec(c)
    ensures fresh(m) && fresh(m.quota) && m.Valid() && m.c == c && m.cs == cs && m.open == multiset{}
    ensures m.quota.limits == NO_LIMITS && ino == ROOT + 1 && Made(m.fs.v, KeyOf(c, ROOT, name), ino, Kind.File)
    ensures m.fs == WithEmpty(c, name)
  {
    m := new MountedVolume(c, cs, NO_LIMITS);
    var r := m.Make(ROOT, name, Kind.File, 0, SMOOTH);
    ino := ROOT + 1;
  }

  /** Create, open, unlink, link again, close. */
  method RevivedFile(c: Codec, cs: nat, name: Name) returns (report: Fsck.Report)
    requires cs > 0 && GoodCodec(c)
    ensures report.problems != []
  {
    var m, ino := WithFile(c, cs, name);
    var _ := m.Open(ino);
    var _ := m.Unlink(ROOT, name, SMOOTH);
    ghost var fs := m.fs;
    UnlinkedOpen(c, cs, fs, name);
    var _ := m.Link(ino, ROOT, name, SMOOTH);
    var _ := m.Close(ino, SMOOTH);
    LinkedThenClosedIff(c, cs, fs, ino, ROOT, name);
    report := Fsck.Check(m.fs.v, m.cs, m.c.open);
  }

  lemma UnlinkedOpen(c: Codec, cs: nat, fs: Fs, name: Name)
    requires UnlinkStep(c, WithEmpty(c, name), multiset{ROOT + 1}, ROOT, name, SMOOTH, fs, true)
    ensures CanLink(fs.v, c, ROOT + 1, ROOT, name) && fs.v.inodes[ROOT + 1].nlink == 0 && ROOT + 1 in fs.v.orphans
    ensures ChunksOf(fs.v, ROOT + 1) == map[]
  {
  }

  /** A volume with a file of 1026 chunks. */
  method WithLong(c: Codec, cs: nat, name: Name) returns (m: MountedVolume, ino: nat)
    requires cs > 0 && GoodCodec(c)
    ensures fresh(m) && fresh(m.quota) && m.Valid() && m.c == c && m.cs == cs && IsFile(m.fs.v, ino)
    ensures FileOf(m.fs.v, ino) == FileContent.Long(cs)
  {
    m, ino := WithFile(c, cs, name);
    NothingToRevive(cs, m.fs, ino);
    LongFits(cs);
    var _ := m.Write(ino, 0, FileContent.Sevens(Start(cs, 1026)), SMOOTH);
    WrittenLong(c, cs, name, m.fs);
  }

  lemma NothingToRevive(cs: nat, fs: Fs, ino: nat)
    requires ino in fs.v.inodes && ChunksOf(fs.v, ino) == map[]
    ensures forall offset: nat, data: seq<byte> :: !WriteRevives(cs, fs, ino, offset, data)
  {
  }

  /** That file truncated to one chunk, with the second batch of deletes lost. */
  method CutShort(c: Codec, cs: nat, name: Name) returns (m: MountedVolume, ino: nat)
    requires cs > 0 && GoodCodec(c)
    ensures fresh(m) && fresh(m.quota) && m.Valid() && m.c == c && m.cs == cs && IsFile(m.fs.v, ino)
    ensures FileOf(m.fs.v, ino) == FileContent.Resized(cs, FileContent.Long(cs), cs, 0)
  {
    m, ino := WithLong(c, cs, name);
    LongFits(cs);
    FileContent.LongSound(cs);
    var _ := m.SetSize(ino, cs, Fate(true, 0, 0));
  }

  /** The file of `CutShort`, grown back. */
  method RevivedChunk(c: Codec, cs: nat, name: Name) returns (report: Fsck.Report)
    requires cs > 0 && GoodCodec(c)
    ensures report.problems != []
  {
    var m, ino := CutShort(c, cs, name);
    ghost var cut := FileOf(m.fs.v, ino);
    LongFits(cs);
    FileContent.LeftoverReturns(cs);
    var _ := m.SetSize(ino, Start(cs, 1026), Fate(true, 0, 0));
    assert FileOf(m.fs.v, ino) == FileContent.Resized(cs, cut, Start(cs, 1026), 0);
    Misbilled(cs, m.fs.v, ino, FileOf(m.fs.v, ino));
    report := Fsck.Check(m.fs.v, m.cs, m.c.open);
  }

  lemma LongFits(cs: nat)
    requires cs > 0
    ensures cs < Start(cs, 1026) <= MaxFile(cs)
  {
    StartIsProduct(cs, 1026);
  }

  lemma WrittenLong(c: Codec, cs: nat, name: Name, fs: Fs)
    requires cs > 0 && Start(cs, 1026) <= MaxFile(cs)
    requires WriteStep(cs, NO_LIMITS, WithEmpty(c, name), ROOT + 1, 0, FileContent.Sevens(Start(cs, 1026)), SMOOTH, fs, true)
    ensures IsFile(fs.v, ROOT + 1) && FileOf(fs.v, ROOT + 1) == FileContent.Long(cs)
  {
  }
}
