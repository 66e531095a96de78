/** The block-volume checker (crates/slatefs-core/src/fsck.rs, `check_block_readable` and `recount_block`). */
module BlockCheck {
  import opened Common
  import opened Chunks
  import opened BlockVolumes

  const BLOCK_INO: nat := 0

  datatype Key = Superblock | QuotaBytes | QuotaInodes | Chunk(ino: nat, idx: nat) | Foreign(id: nat)

  datatype Db = Db(values: map<Key, seq<byte>>, counterBytes: int, counterInodes: int)

  datatype Problem = UnexpectedKey(key: Key) | UnexpectedOwner(key: Key) | BeyondSize(idx: nat) | Oversize(idx: nat)
                   | SuperblockMissing

  datatype Report = Report(problems: seq<Problem>, bytesCounted: int, inodesCounted: int,
                           counterBytes: int, counterInodes: int)
  {
    predicate CountersMatch() { bytesCounted == counterBytes && inodesCounted == counterInodes }
    predicate IsClean() { problems == [] && CountersMatch() }
  }

  /** A key of the volume that the checker has nothing to say about. */
  predicate Healthy(size: nat, cs: nat, db: Db, k: Key)
    requires k in db.values
  {
    match k
    case Foreign(_) => false
    case Chunk(ino, idx) => ino == BLOCK_INO && Start(cs, idx) < size && |db.values[k]| <= cs
    case _ => true
  }

  /** What the problem says is so of the key it names. */
  predicate Wrong(size: nat, cs: nat, db: Db, q: Problem) {
    match q
    case UnexpectedKey(k) => k.Foreign? && k in db.values
    case UnexpectedOwner(k) => k.Chunk? && k.ino != BLOCK_INO && k in db.values
    case BeyondSize(idx) => Chunk(BLOCK_INO, idx) in db.values && Start(cs, idx) >= size
    case Oversize(idx) => Chunk(BLOCK_INO, idx) in db.values && |db.values[Chunk(BLOCK_INO, idx)]| > cs
    case SuperblockMissing => Superblock !in db.values
  }

  function KeyOf(q: Problem): Key {
    match q
    case UnexpectedKey(k) => k
    case UnexpectedOwner(k) => k
    case BeyondSize(idx) => Chunk(BLOCK_INO, idx)
    case Oversize(idx) => Chunk(BLOCK_INO, idx)
    case SuperblockMissing => Superblock
  }

  ghost predicate Structured(size: nat, cs: nat, db: Db) {
    Superblock in db.values && forall k :: k in db.values ==> Healthy(size, cs, db, k)
  }

  ghost predicate HoldsChunks(db: Db, m: ChunkMap) {
    && (forall idx: nat :: idx in m <==> Chunk(BLOCK_INO, idx) in db.values)
    && (forall idx :: idx in m ==> m[idx] == db.values[Chunk(BLOCK_INO, idx)])
  }

  method CheckKey(db: Db, size: nat, cs: nat, k: Key) returns (problems: seq<Problem>)
    requires k in db.values
    ensures problems == [] <==> Healthy(size, cs, db, k)
    ensures forall q: Problem :: q in problems <==> !q.SuperblockMissing? && Wrong(size, cs, db, q) && KeyOf(q) == k
  {
    problems := [];
    if k.Foreign? {
      problems := [UnexpectedKey(k)];
    } else if k.Chunk? && k.ino != BLOCK_INO {
      problems := [UnexpectedOwner(k)];
    } else if k.Chunk? {
      if Start(cs, k.idx) >= size {
        problems := problems + [BeyondSize(k.idx)];
      }
      if |db.values[k]| > cs {
        problems := problems + [Oversize(k.idx)];
      }
    }
  }

  /** The scan visits the keys in some order. It reports each problem exactly when its own key is wrong in that way,
      none exactly when the volume is structured, and its byte count is the total bill whatever it reports. */
  method CheckBlock(db: Db, size: nat, cs: nat, ghost m: ChunkMap) returns (report: Report)
    requires cs > 0 && HoldsChunks(db, m)
    ensures report.problems == [] <==> Structured(size, cs, db)
    ensures forall q :: q in report.problems <==> Wrong(size, cs, db, q)
    ensures report.bytesCounted == Total(size, cs, m) && report.inodesCounted == 1
    ensures report.counterBytes == db.counterBytes && report.counterInodes == db.counterInodes
  {
    var problems, sawSuperblock, bytes := [], false, 0;
    ghost var seen: ChunkMap := map[];
    EmptyTotal(size, cs, size);
    var rest := db.values.Keys;
    while rest != {}
      invariant rest <= db.values.Keys
      invariant sawSuperblock <==> Superblock in db.values && Superblock !in rest
      invariant problems == [] <==> forall k :: k in db.values && k !in rest ==> Healthy(size, cs, db, k)
      invariant forall q: Problem :: q in problems <==> !q.SuperblockMissing? && Wrong(size, cs, db, q) && KeyOf(q) !in rest
      invariant forall idx: nat :: idx in seen <==> idx in m && Chunk(BLOCK_INO, idx) !in rest
      invariant forall idx :: idx in seen ==> seen[idx] == m[idx]
      invariant bytes == Total(size, cs, seen)
      decreases rest
    {
      var k :| k in rest;
      rest := rest - {k};
      var found := CheckKey(db, size, cs, k);
      problems := problems + found;
      if k.Superblock? {
        sawSuperblock := true;
      } else if k.Chunk? && k.ino == BLOCK_INO {
        bytes := bytes + Billed(size, Start(cs, k.idx), |db.values[k]|);
        TotalChange(size, cs, seen, seen[k.idx := m[k.idx]], k.idx);
        seen := seen[k.idx := m[k.idx]];
      }
    }
    assert seen == m;
    if !sawSuperblock {
      problems := problems + [SuperblockMissing];
    }
    report := Report(problems, bytes, 1, db.counterBytes, db.counterInodes);
  }

  /** Rewriting the counters from the scan leaves nothing for a second check to rewrite, and touches
      neither the chunks nor the reported problems. */
  method RecountBlock(db: Db, size: nat, cs: nat, ghost m: ChunkMap) returns (db': Db, report: Report)
    requires cs > 0 && HoldsChunks(db, m)
    ensures db'.values == db.values
    ensures db'.counterBytes == Total(size, cs, m) && db'.counterInodes == 1
    ensures report.CountersMatch() <==> db' == db
  {
    report := CheckBlock(db, size, cs, m);
    db' := db;
    if !report.CountersMatch() {
      db' := db.(counterBytes := report.bytesCounted, counterInodes := report.inodesCounted);
    }
  }

  function ChunkKeys(m: ChunkMap): map<Key, seq<byte>> { map k | k in m :: Chunk(BLOCK_INO, k) := m[k] }

  /** What a block volume keeps in its database. */
  function DatabaseOf(m: ChunkMap, counter: int): Db {
    Db(ChunkKeys(m)[Superblock := []][QuotaBytes := []][QuotaInodes := []], counter, 1)
  }

  lemma DatabaseHolds(m: ChunkMap, counter: int)
    ensures HoldsChunks(DatabaseOf(m, counter), m)
  {
    var db := DatabaseOf(m, counter);
    forall idx: nat ensures idx in m <==> Chunk(BLOCK_INO, idx) in db.values {
      assert Chunk(BLOCK_INO, idx) in db.values <==> Chunk(BLOCK_INO, idx) in ChunkKeys(m);
    }
  }

  lemma DatabaseStructured(size: nat, cs: nat, m: ChunkMap, counter: int)
    requires InBounds(size, cs, m)
    ensures Structured(size, cs, DatabaseOf(m, counter))
  {
    var db := DatabaseOf(m, counter);
    forall k | k in db.values ensures Healthy(size, cs, db, k) {
      if k.Chunk? { assert k in ChunkKeys(m); }
    }
  }

  /** Whatever has been done to a volume, the checker finds no problem and no drift. */
  method CheckVolume(v: BlockVolume) returns (report: Report)
    requires v.Valid()
    ensures report.IsClean()
  {
    DatabaseHolds(v.chunks, v.counter);
    DatabaseStructured(v.size, v.cs, v.chunks, v.counter);
    report := CheckBlock(DatabaseOf(v.chunks, v.counter), v.size, v.cs, v.chunks);
  }
}
