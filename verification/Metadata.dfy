/** Metadata records of a filesystem volume (crates/slatefs-core/src/meta): inodes, the two records of each
    directory entry, chunk lengths, orphan markers and symlink targets, and what they say together. */
module Metadata {
  import opened Common
  import opened Chunks

  const ROOT: nat := 1

  type Name = seq<byte>

  datatype Kind = File | Dir | Symlink | Fifo | Socket | CharDev | BlockDev

  datatype Inode = Inode(kind: Kind, nlink: nat, size: nat, nextDirentId: nat, billedBytes: nat, parentDir: nat)

  /** `d/<parent>/<enc_name>`, for lookup by name. */
  datatype DirKey = DirKey(parent: nat, enc: Name)
  datatype Dirent = Dirent(name: Name, child: nat, kind: Kind, id: nat)

  /** `e/<parent>/<dirent_id>`, for listing in cookie order. */
  datatype IdxKey = IdxKey(parent: nat, id: nat)
  datatype DirentIdx = DirentIdx(enc: Name, child: nat, kind: Kind)

  datatype Volume = Volume(inodes: map<nat, Inode>, dirents: map<DirKey, Dirent>, idx: map<IdxKey, DirentIdx>,
                           chunks: map<nat, ChunkMap>, orphans: set<nat>, symlinks: set<nat>)

  /** Decryption of an entry name with its directory's key; it may fail. */
  type OpenName = (nat, Name) -> Option<Name>

  predicate IsDir(v: Volume, ino: nat) { ino in v.inodes && v.inodes[ino].kind.Dir? }

  /** The entries that name an inode. */
  function Naming(v: Volume, ino: nat): set<DirKey> { set k | k in v.dirents && v.dirents[k].child == ino }

  /** The entries of a directory that name directories. */
  function ChildDirs(v: Volume, ino: nat): set<DirKey> {
    set k | k in v.dirents && k.parent == ino && IsDir(v, v.dirents[k].child)
  }

  function ChunksOf(v: Volume, ino: nat): ChunkMap { if ino in v.chunks then v.chunks[ino] else map[] }

  // ----- the local checks -----

  ghost predicate RootOk(v: Volume) { IsDir(v, ROOT) && v.inodes[ROOT].parentDir == ROOT }

  predicate ParentOk(v: Volume, k: DirKey)
    requires k in v.dirents
  {
    IsDir(v, k.parent) && v.dirents[k].id < v.inodes[k.parent].nextDirentId
  }

  predicate ChildOk(v: Volume, k: DirKey)
    requires k in v.dirents
  {
    var d := v.dirents[k];
    && d.child in v.inodes
    && v.inodes[d.child].kind == d.kind
    && (IsDir(v, d.child) ==> v.inodes[d.child].parentDir == k.parent)
  }

  predicate PairOk(v: Volume, k: DirKey)
    requires k in v.dirents
  {
    var d := v.dirents[k];
    IdxKey(k.parent, d.id) in v.idx && v.idx[IdxKey(k.parent, d.id)] == DirentIdx(k.enc, d.child, d.kind)
  }

  predicate NameOk(v: Volume, names: OpenName, k: DirKey)
    requires k in v.dirents
  {
    names(k.parent, k.enc) == Some(v.dirents[k].name)
  }

  predicate DirentOk(v: Volume, names: OpenName, k: DirKey)
    requires k in v.dirents
  {
    ParentOk(v, k) && ChildOk(v, k) && PairOk(v, k) && NameOk(v, names, k)
  }

  predicate IdxOk(v: Volume, i: IdxKey) {
    exists k :: k in v.dirents && k.parent == i.parent && v.dirents[k].id == i.id
  }

  /** An unlinked file that is still open, or whose data awaits the reaper. */
  predicate LegitOrphan(v: Volume, ino: nat)
    requires ino in v.inodes
  {
    v.inodes[ino].nlink == 0 && ino in v.orphans
  }

  predicate LinksOk(v: Volume, ino: nat)
    requires ino in v.inodes
  {
    var i, links := v.inodes[ino], |Naming(v, ino)|;
    if i.kind.Dir? then links <= 1 && i.nlink == 2 + |ChildDirs(v, ino)| && (ino != ROOT ==> links != 0)
    else (i.nlink == links || LegitOrphan(v, ino)) && (i.kind.Symlink? ==> ino in v.symlinks)
  }

  ghost predicate BillOk(v: Volume, cs: nat, ino: nat)
    requires ino in v.inodes
  {
    Sized(cs, ChunksOf(v, ino)) && v.inodes[ino].billedBytes == Total(v.inodes[ino].size, cs, ChunksOf(v, ino))
  }

  // ----- reachability -----

  predicate Edge(v: Volume, a: nat, b: nat) {
    exists k :: k in v.dirents && k.parent == a && v.dirents[k].child == b
  }

  /** `path` starts at the root and follows entries, each of a directory it has reached. */
  ghost predicate IsPath(v: Volume, path: seq<nat>) {
    && path != [] && path[0] == ROOT
    && (forall i :: 1 <= i < |path| ==> Edge(v, path[i - 1], path[i]))
    && (forall i :: 1 <= i < |path| - 1 ==> IsDir(v, path[i]))
  }

  ghost predicate Reachable(v: Volume, ino: nat) {
    exists path :: IsPath(v, path) && path[|path| - 1] == ino
  }

  // ----- the whole check -----

  ghost predicate DirentsOk(v: Volume, names: OpenName) { forall k :: k in v.dirents ==> DirentOk(v, names, k) }

  ghost predicate IdxsOk(v: Volume) { forall i :: i in v.idx ==> IdxOk(v, i) }

  ghost predicate InodesOk(v: Volume, cs: nat) {
    forall ino :: ino in v.inodes ==> LinksOk(v, ino) && BillOk(v, cs, ino)
  }

  predicate OwnersOk(v: Volume) { forall ino :: ino in v.chunks ==> ino in v.inodes || ino in v.orphans }

  ghost predicate ReachOk(v: Volume) {
    forall ino :: ino in v.inodes ==> Reachable(v, ino) || LegitOrphan(v, ino)
  }

  ghost predicate Clean(v: Volume, cs: nat, names: OpenName) {
    RootOk(v) && DirentsOk(v, names) && IdxsOk(v) && InodesOk(v, cs) && OwnersOk(v) && ReachOk(v)
  }
}
