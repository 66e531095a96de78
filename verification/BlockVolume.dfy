/** Block volumes (crates/slatefs-core/src/block.rs): one sparse byte range kept as chunks, with a persistent
    billed-bytes counter and an in-memory quota tracker that must both equal the bytes actually billed. */
module BlockVolumes {
  import opened Common
  import opened Chunks
  import opened Data
  import opened Zeroing
  import opened Tightness
  import opened Quota
  import opened Trimming

  const I63: int := 0x8000_0000_0000_0000

  /** How the store behaves while one batch is built and committed: whether its reads, its atomic write
      and its flush succeed, and whether a failure shows that a newer writer has fenced this one. */
  datatype Env = Env(readOk: bool, writeOk: bool, flushOk: bool, fenced: bool, now: nat)

  type Outcome = Result<(), FsError>

  predicate Faultless(env: Env) { env.readOk && env.writeOk && env.flushOk }

  ghost predicate AllFaultless(envs: nat -> Env) { forall i: nat :: Faultless(envs(i)) }

  /** Growing from `before` to `after` billed bytes is refused. */
  predicate OverQuota(limits: QuotaLimits, before: int, after: int, now: nat) {
    after > before && ExceedsLimit(after, limits.bytes, now)
  }

  datatype Extent = Outside | Empty | Inside

  /** The merge operator adds with i64 wrap-around. */
  function WrapI64(x: int): int { (x + I63) % (2 * I63) - I63 }

  class BlockVolume {
    const size: nat
    const cs: nat
    const quota: QuotaTracker
    var chunks: ChunkMap
    var counter: int
    var dead: bool

    /** Geometry as `validate_block_size` accepts it, below 2^63 bytes. */
    ghost predicate Geometry() {
      0 < size < I63 && 0 < cs && size <= cs * INDEX_LIMIT
    }

    /** The three accounts of used bytes agree. */
    ghost predicate Valid()
      reads this, quota
    {
      && Geometry()
      && InBounds(size, cs, chunks)
      && counter == Total(size, cs, chunks)
      && quota.bytes == Total(size, cs, chunks)
    }

    ghost function Bytes(): seq<byte>
      requires Geometry()
      reads this
    {
      Flat(size, cs, chunks)
    }

    /** A fresh volume, as mkfs leaves it. */
    constructor (size: nat, cs: nat, limits: QuotaLimits)
      requires 0 < size < I63 && 0 < cs && size <= cs * INDEX_LIMIT
      ensures Valid() && fresh(quota) && this.size == size && this.cs == cs && !dead
      ensures Bytes() == Zeroes(size)
    {
      this.size, this.cs := size, cs;
      chunks, counter, dead := map[], 0, false;
      quota := new QuotaTracker(0, 1, limits);
      new;
      TotalWithinSize(size, cs, map[]);
      EmptyTotal(size, cs, size);
    }

    /** Reserves quota, applies the batch and its counter merge in one write, then flushes if asked. A
        failed write applies nothing and gives the reservation back. */
    method Commit(ops: Ops, delta: int, fua: bool, env: Env) returns (r: Outcome)
      requires Valid() && !dead
      requires InBounds(size, cs, Apply(chunks, ops))
      requires delta == Total(size, cs, Apply(chunks, ops)) - Total(size, cs, chunks)
      modifies this, quota
      ensures Valid()
      ensures r.Ok? ==> !dead
      ensures chunks == if r == Err(QuotaExceeded) || !env.writeOk then old(chunks) else Apply(old(chunks), ops)
      ensures r == Err(QuotaExceeded) <==>
        delta > 0 && ExceedsLimit(old(quota.bytes) + delta, quota.limits.bytes, env.now)
      ensures r.Ok? <==> r != Err(QuotaExceeded) && env.writeOk && (fua ==> env.flushOk)
      ensures r.Err? ==> r.error.QuotaExceeded? || r.error.Io?
      ensures quota.limits == old(quota.limits)
      ensures dead <==> r == Err(Io) && env.fenced
    {
      TotalWithinSize(size, cs, Apply(chunks, ops));
      NoWrap(counter + delta);
      var ok := quota.Reserve(delta, 0, env.now);
      if !ok {
        return Err(QuotaExceeded);
      }
      if !env.writeOk {
        quota.Release(delta, 0);
        dead := env.fenced;
        return Err(Io);
      }
      chunks := Apply(chunks, ops);
      if delta != 0 {
        counter := WrapI64(counter + delta);
      }
      if fua && !env.flushOk {
        dead := env.fenced;
        return Err(Io);
      }
      return Ok(());
    }

    /** Whether an extent leaves the volume, is empty, or is one to work on. */
    function CheckExtent(offset: nat, len: nat): Extent {
      if offset + len > size then Outside else if len == 0 then Empty else Inside
    }

    method Read(offset: nat, len: nat, env: Env) returns (r: Result<seq<byte>, FsError>)
      requires Valid()
      modifies this`dead
      ensures Valid()
      ensures r.Ok? <==> !old(dead) && offset + len <= size && (len == 0 || env.readOk)
      ensures r.Ok? ==> r.value == Bytes()[offset..offset + len]
      ensures r == Err(Invalid) <==> !old(dead) && size < offset + len
      ensures r.Err? ==> r == Err(Invalid) || r == Err(Io)
      ensures dead <==> old(dead) || (r == Err(Io) && env.fenced)
    {
      if dead {
        return Err(Io);
      }
      if offset + len > size {
        return Err(Invalid);
      }
      if len == 0 {
        return Ok([]);
      }
      if !env.readOk {
        dead := env.fenced;
        return Err(Io);
      }
      var bytes := ReadRange(cs, chunks, size, offset, len);
      return Ok(bytes);
    }

    /** Write: exactly `data` is overlaid if the batch is admitted and written, and nothing changes otherwise. A flush
        that fails after the batch was written reports an error all the same. */
    method Write(offset: nat, data: seq<byte>, fua: bool, env: Env) returns (r: Outcome)
      requires Valid()
      modifies this, quota
      ensures Valid()
      ensures Bytes() ==
        if !old(dead) && offset + |data| <= size && env.readOk && env.writeOk && r != Err(QuotaExceeded) then
          Overlay(old(Bytes()), offset, data)
        else old(Bytes())
      ensures r.Ok? <==>
        && !old(dead) && offset + |data| <= size && (fua ==> env.flushOk) && r != Err(QuotaExceeded)
        && (data == [] || (env.readOk && env.writeOk))
      ensures r == Err(Invalid) <==> !old(dead) && size < offset + |data|
      ensures r.Err? ==> r.error.Invalid? || r.error.QuotaExceeded? || r.error.Io?
      ensures dead <==> old(dead) || (r == Err(Io) && env.fenced && (data == [] || env.readOk))
      ensures r == Err(QuotaExceeded) ==>
        chunks == old(chunks) && !old(dead) && env.readOk && offset + |data| <= size && data != []
      ensures !old(dead) && env.readOk && offset + |data| <= size && data != [] ==>
        exists puts ::
          && PlannedPuts(size, cs, old(chunks), offset, data, puts)
          && (r == Err(QuotaExceeded) <==>
                OverQuota(quota.limits, old(quota.bytes), Total(size, cs, old(chunks) + puts), env.now))
      ensures quota.limits == old(quota.limits)
      ensures !old(dead) && offset + |data| <= size && Faultless(env) ==> r.Ok? || r == Err(QuotaExceeded)
    {
      if dead {
        return Err(Io);
      }
      var range := CheckExtent(offset, |data|);
      if range.Outside? {
        return Err(Invalid);
      }
      if range.Empty? {
        assert Overlay(Bytes(), offset, data) == Bytes();
        if fua && !env.flushOk {
          dead := env.fenced;
          return Err(Io);
        }
        return Ok(());
      }
      if !env.readOk {
        return Err(Io);
      }
      ghost var puts;
      var ops, delta;
      ops, delta, puts := StageWrite(size, cs, chunks, offset, data);
      r := Commit(ops, delta, fua, env);
    }

    // ----- zeroing -----

    /** What zeroing `[lo, hi)` of `m` has left: the array with zeroes laid over the range, stored tightly where the
        range reaches and as before elsewhere, and billed the least that is possible so. */
    ghost predicate Leaves(m: ChunkMap, lo: nat, hi: nat)
      requires Geometry() && lo <= hi <= size
      reads this
    {
      true == (
        if lo == hi then chunks == m else Cleared(size, cs, m, lo, hi, chunks) && Least(size, cs, m, lo, hi, chunks))
    }

    /** Write zeroes, chunk by chunk in one batch. */
    method WriteZeroes(offset: nat, len: nat, fua: bool, env: Env) returns (r: Outcome)
      requires Valid()
      modifies this, quota
      ensures Valid()
      ensures if !old(dead) && offset + len <= size && env.readOk && env.writeOk then
        IsZeroed(size, cs, old(chunks), offset, offset + len, chunks)
        else chunks == old(chunks)
      ensures r.Ok? ==>
        && !old(dead) && offset + len <= size && (fua ==> env.flushOk)
        && IsZeroed(size, cs, old(chunks), offset, offset + len, chunks)
      ensures !old(dead) && offset + len <= size && env.readOk && env.writeOk && (fua ==> env.flushOk) ==> r.Ok?
      ensures r.Ok? ==> Leaves(old(chunks), offset, offset + len)
      ensures r == Err(Invalid) <==> !old(dead) && size < offset + len
      ensures r.Err? ==> r.error.Invalid? || r.error.Io?
      ensures dead <==> old(dead) || (r == Err(Io) && env.fenced)
      ensures quota.limits == old(quota.limits)
      ensures !old(dead) && offset + len <= size && Faultless(env) ==> r.Ok?
    {
      if dead {
        return Err(Io);
      }
      var range := CheckExtent(offset, len);
      if range.Outside? {
        return Err(Invalid);
      }
      if range.Empty? {
        ZeroedNothing(size, cs, chunks, offset);
        if fua && !env.flushOk {
          dead := env.fenced;
          return Err(Io);
        }
        return Ok(());
      }
      ghost var m := chunks;
      r := ZeroRange(offset, offset + len, fua, env);
      if r.Ok? { ZeroedLeast(size, cs, m, offset, offset + len, chunks); }
    }

    method ZeroRange(lo: nat, hi: nat, fua: bool, env: Env) returns (r: Outcome)
      requires Valid() && !dead && lo < hi <= size
      modifies this, quota
      ensures Valid() && quota.limits == old(quota.limits)
      ensures if env.readOk && env.writeOk then IsZeroed(size, cs, old(chunks), lo, hi, chunks) else chunks == old(chunks)
      ensures r.Ok? ==> (fua ==> env.flushOk) && IsZeroed(size, cs, old(chunks), lo, hi, chunks)
      ensures env.readOk && env.writeOk && (fua ==> env.flushOk) ==> r.Ok?
      ensures r.Err? ==> r == Err(Io)
      ensures dead <==> r == Err(Io) && env.fenced
    {
      if !env.readOk {
        dead := env.fenced;
        return Err(Io);
      }
      var ops, delta := StageRange(size, cs, chunks, lo, hi);
      if ops == map[] {
        ApplyNothing(chunks);
        if fua && !env.flushOk {
          dead := env.fenced;
          return Err(Io);
        }
        return Ok(());
      }
      r := Commit(ops, delta, fua, env);
    }

    /** One pass of the trim loop: a scan, then one commit unless nothing is staged. */
    method TrimBatch(ghost m: ChunkMap, lo: nat, hi: nat, staged: Ops, delta: int, mutations: nat,
                     full: Option<(nat, nat)>, env: Env) returns (r: Outcome, more: bool)
      requires Valid() && !dead && lo <= hi <= size && InBounds(size, cs, m)
      requires Pending(size, cs, m, lo, hi, chunks, staged)
      requires delta == Total(size, cs, Apply(chunks, staged)) - Total(size, cs, chunks)
      requires mutations == 0 <==> staged == map[]
      requires FullRange(size, cs, lo, hi, full)
      modifies this, quota
      ensures Valid() && Between(size, cs, m, lo, hi, chunks) && r != Err(QuotaExceeded)
      ensures quota.limits == old(quota.limits)
      ensures r.Ok? ==> !dead
      ensures r.Err? ==> r == Err(Io) && !Faultless(env) && dead == env.fenced
      ensures r.Ok? && !more ==> IsZeroed(size, cs, m, lo, hi, chunks)
      ensures r.Ok? && more ==> full.Some? && Pending(size, cs, m, lo, hi, chunks, map[])
      ensures r.Ok? && more ==> Stored(chunks, full) < Stored(old(chunks), full)
      ensures Faultless(env) ==> r.Ok?
    {
      PendingBetween(size, cs, m, lo, hi, chunks, staged);
      if !env.readOk {
        dead := env.fenced;
        return Err(Io), false;
      }
      var ops, change, n := staged, 0, 0;
      if full.Some? {
        ops, change, n := ScanBatch(size, cs, chunks, staged, full.value.0, full.value.1);
      }
      var done := full.None? || n < BATCH;
      ScannedBetween(size, cs, m, lo, hi, chunks, staged, ops, full, done);
      if mutations + n == 0 {
        ApplyNothing(chunks);
        return Ok(()), false;
      }
      ghost var before := chunks;
      AdvancedPending(size, cs, m, lo, hi, chunks, Apply(chunks, ops));
      AdvancedBills(size, cs, m, lo, hi, chunks, Apply(chunks, ops));
      r := Commit(ops, delta + change, false, env);
      more := !done;
      if r.Ok? && more {
        ScannedFewer(before, staged, ops, full);
      }
    }

    /** Trim, in as many batches as the covered range needs; `envs(i)` is how the store behaves during
        batch `i`. Success zeroes exactly the range. A failure between batches leaves each chunk either
        as it was or final, and no quota can refuse a trim. */
    method Trim(offset: nat, len: nat, envs: nat -> Env) returns (r: Outcome)
      requires Valid()
      modifies this, quota
      ensures Valid() && r != Err(QuotaExceeded)
      ensures r.Ok? ==> offset + len <= size && IsZeroed(size, cs, old(chunks), offset, offset + len, chunks)
      ensures r.Ok? ==> !old(dead) && Leaves(old(chunks), offset, offset + len)
      ensures r.Err? ==>
        || chunks == old(chunks)
        || (offset + len <= size && Between(size, cs, old(chunks), offset, offset + len, chunks))
      ensures r == Err(Invalid) <==> !old(dead) && size < offset + len
      ensures r.Err? ==> r.error.Invalid? || r.error.Io?
      ensures r != Err(Io) ==> dead == old(dead)
      ensures !old(dead) && r == Err(Io) ==> exists i: nat :: !Faultless(envs(i)) && dead == envs(i).fenced
      ensures old(dead) ==> r.Err? && dead && chunks == old(chunks)
      ensures quota.limits == old(quota.limits)
      ensures !old(dead) && offset + len <= size && AllFaultless(envs) ==> r.Ok?
    {
      if dead {
        return Err(Io);
      }
      var range := CheckExtent(offset, len);
      if range.Outside? {
        return Err(Invalid);
      }
      if range.Empty? {
        ZeroedNothing(size, cs, chunks, offset);
        return Ok(());
      }
      if !envs(0).readOk {
        dead := envs(0).fenced;
        assert !Faultless(envs(0));
        return Err(Io);
      }
      ghost var m := chunks;
      r := TrimBatches(offset, offset + len, envs);
      if r.Ok? { ZeroedLeast(size, cs, m, offset, offset + len, chunks); }
    }

    /** The trim loop over a non-empty range inside the volume. */
    method TrimBatches(lo: nat, hi: nat, envs: nat -> Env) returns (r: Outcome)
      requires Valid() && !dead && lo < hi <= size
      modifies this, quota
      ensures Valid() && r != Err(QuotaExceeded) && quota.limits == old(quota.limits)
      ensures Between(size, cs, old(chunks), lo, hi, chunks)
      ensures r.Ok? ==> IsZeroed(size, cs, old(chunks), lo, hi, chunks) && !dead
      ensures r.Err? ==> r == Err(Io) && exists i: nat :: !Faultless(envs(i)) && dead == envs(i).fenced
      ensures AllFaultless(envs) ==> r.Ok?
    {
      ghost var m := chunks;
      var ops, delta, mutations, full := StageEdges(size, cs, chunks, lo, hi);
      var more;
      r, more := TrimBatch(m, lo, hi, ops, delta, mutations, full, envs(0));
      var i := 1;
      while r.Ok? && more
        invariant Valid() && r != Err(QuotaExceeded) && quota.limits == old(quota.limits)
        invariant Between(size, cs, m, lo, hi, chunks)
        invariant r.Ok? ==> !dead
        invariant r.Err? ==> r == Err(Io) && exists i: nat :: !Faultless(envs(i)) && dead == envs(i).fenced
        invariant r.Ok? && !more ==> IsZeroed(size, cs, m, lo, hi, chunks)
        invariant r.Ok? && more ==> full.Some? && Pending(size, cs, m, lo, hi, chunks, map[])
        invariant AllFaultless(envs) ==> r.Ok?
        decreases if r.Ok? && more then 1 else 0, Stored(chunks, full)
      {
        ApplyNothing(chunks);
        r, more := TrimBatch(m, lo, hi, map[], 0, 0, full, envs(i));
        i := i + 1;
      }
    }
  }

  // ----- trim, on values -----

  ghost predicate FullRange(size: nat, cs: nat, lo: nat, hi: nat, full: Option<(nat, nat)>) {
    match full
    case None => forall k: nat :: !Interior(size, cs, lo, hi, k)
    case Some(f) => forall k: nat :: Interior(size, cs, lo, hi, k) <==> f.0 <= k <= f.1
  }

  /** Number of stored chunks in the fully covered range; each repeated pass lowers it. */
  ghost function Stored(m: ChunkMap, full: Option<(nat, nat)>): nat {
    if full.None? then 0 else |set k | k in m && full.value.0 <= k <= full.value.1|
  }

  lemma PendingBetween(size: nat, cs: nat, m: ChunkMap, lo: nat, hi: nat, now: ChunkMap, ops: Ops)
    requires Pending(size, cs, m, lo, hi, now, ops)
    ensures Between(size, cs, m, lo, hi, now)
  {
    forall k: nat ensures Lookup(now, k) == Lookup(m, k) || Lookup(now, k) == ZeroedAt(size, cs, m, lo, hi, k) {
      if Interior(size, cs, lo, hi, k) { InteriorGoes(size, cs, m, lo, hi, k); }
    }
  }

  /** What a scan adds to the staged operations. */
  ghost predicate Scanned(now: ChunkMap, staged: Ops, ops: Ops, full: Option<(nat, nat)>, done: bool) {
    && (full.None? ==> ops == staged)
    && (full.Some? ==> forall k: nat :: !(full.value.0 <= k <= full.value.1) ==> (k in ops <==> k in staged))
    && (forall k :: k in ops ==> if k in staged then ops[k] == staged[k] else k in now && ops[k] == None)
    && (full.Some? && done ==> forall k :: k in now && full.value.0 <= k <= full.value.1 ==> k in ops)
  }

  /** Applying them moves towards the goal, and reaches it when the scan saw the whole range. */
  lemma ScannedBetween(size: nat, cs: nat, m: ChunkMap, lo: nat, hi: nat, now: ChunkMap, staged: Ops, ops: Ops,
                       full: Option<(nat, nat)>, done: bool)
    requires Pending(size, cs, m, lo, hi, now, staged) && FullRange(size, cs, lo, hi, full)
    requires Scanned(now, staged, ops, full, done)
    ensures forall k: nat :: Advances(size, cs, m, lo, hi, now, Apply(now, ops), k)
    ensures done ==> IsZeroed(size, cs, m, lo, hi, Apply(now, ops))
  {
    forall k: nat
      ensures Advances(size, cs, m, lo, hi, now, Apply(now, ops), k)
      ensures done ==> Lookup(Apply(now, ops), k) == ZeroedAt(size, cs, m, lo, hi, k)
    {
      ApplyLookup(now, ops, k);
      if Interior(size, cs, lo, hi, k) { InteriorGoes(size, cs, m, lo, hi, k); }
    }
  }

  /** Chunk `k` is final outside the interior, and inside it as before or gone. */
  ghost predicate Advances(size: nat, cs: nat, m: ChunkMap, lo: nat, hi: nat, now: ChunkMap, after: ChunkMap, k: nat) {
    if Interior(size, cs, lo, hi, k) then Lookup(after, k) == Lookup(now, k) || Lookup(after, k) == None
    else Lookup(after, k) == ZeroedAt(size, cs, m, lo, hi, k)
  }

  lemma AdvancedPending(size: nat, cs: nat, m: ChunkMap, lo: nat, hi: nat, now: ChunkMap, after: ChunkMap)
    requires Between(size, cs, m, lo, hi, now)
    requires forall k: nat :: Advances(size, cs, m, lo, hi, now, after, k)
    ensures Pending(size, cs, m, lo, hi, after, map[]) && Between(size, cs, m, lo, hi, after)
  {
    forall k: nat
      ensures Interior(size, cs, lo, hi, k) ==> Lookup(after, k) == Lookup(m, k) || Lookup(after, k) == None
      ensures !Interior(size, cs, lo, hi, k) ==> Lookup(after, k) == ZeroedAt(size, cs, m, lo, hi, k)
    {
      assert Advances(size, cs, m, lo, hi, now, after, k);
      if Interior(size, cs, lo, hi, k) { InteriorGoes(size, cs, m, lo, hi, k); }
    }
    PendingBetween(size, cs, m, lo, hi, after, map[]);
  }

  lemma AdvancedBills(size: nat, cs: nat, m: ChunkMap, lo: nat, hi: nat, now: ChunkMap, after: ChunkMap)
    requires InBounds(size, cs, m) && Between(size, cs, m, lo, hi, now)
    requires forall k: nat :: Advances(size, cs, m, lo, hi, now, after, k)
    ensures InBounds(size, cs, after) && Total(size, cs, after) <= Total(size, cs, now)
  {
    AdvancedPending(size, cs, m, lo, hi, now, after);
    BetweenInBounds(size, cs, m, lo, hi, after);
    forall k: nat ensures |Content(after, k)| <= |Content(now, k)| {
      assert Advances(size, cs, m, lo, hi, now, after, k);
      assert Lookup(now, k) == Lookup(m, k) || Lookup(now, k) == ZeroedAt(size, cs, m, lo, hi, k);
      if k in m && Touches(cs, k, lo, hi) { ZeroedChunkShrinks(size, cs, k, m[k], lo, hi); }
    }
    SumShrinks(size, cs, now, after, size);
  }

  lemma ScannedFewer(now: ChunkMap, staged: Ops, ops: Ops, full: Option<(nat, nat)>)
    requires full.Some? && Scanned(now, staged, ops, full, false)
    requires forall k :: k in staged ==> !(full.value.0 <= k <= full.value.1)
    requires exists k :: k in ops && full.value.0 <= k <= full.value.1
    ensures Stored(Apply(now, ops), full) < Stored(now, full)
  {
    var gone :| gone in ops && full.value.0 <= gone <= full.value.1;
    var before := set k | k in now && full.value.0 <= k <= full.value.1;
    var after := set k | k in Apply(now, ops) && full.value.0 <= k <= full.value.1;
    assert after <= before - {gone};
    SubsetSmaller(after, before - {gone});
  }

  lemma {:induction false} SubsetSmaller(a: set<nat>, b: set<nat>)
    requires a <= b
    ensures |a| <= |b|
    decreases b
  {
    if a != {} {
      var x :| x in a;
      SubsetSmaller(a - {x}, b - {x});
    }
  }

  function Puts(puts: ChunkMap): Ops { map k | k in puts :: Some(puts[k]) }

  /** What `PlanWrite` promises of its chunks. */
  ghost predicate PlannedPuts(size: nat, cs: nat, m: ChunkMap, offset: nat, data: seq<byte>, puts: ChunkMap) {
    && (forall k: nat :: k in puts <==> Touches(cs, k, offset, offset + |data|))
    && (forall k :: k in puts ==>
          |puts[k]| <= cs && WrittenChunk(cs, k, Content(Live(size, cs, m), k), offset, data, puts[k]))
  }

  lemma ApplyPuts(size: nat, cs: nat, m: ChunkMap, puts: ChunkMap)
    requires InBounds(size, cs, m)
    ensures Live(size, cs, m) == m && Apply(m, Puts(puts)) == m + puts
  {
  }

  lemma WriteInBounds(size: nat, cs: nat, m: ChunkMap, offset: nat, data: seq<byte>, puts: ChunkMap)
    requires InBounds(size, cs, m) && offset + |data| <= size && PlannedPuts(size, cs, m, offset, data, puts)
    ensures InBounds(size, cs, m + puts)
  {
    forall k | k in m + puts
      ensures |(m + puts)[k]| <= cs && Start(cs, k) < size && Start(cs, k) + |(m + puts)[k]| <= size
    {
      if k in puts { assert WrittenChunk(cs, k, Content(Live(size, cs, m), k), offset, data, puts[k]); }
    }
  }

  lemma WriteFlat(size: nat, cs: nat, m: ChunkMap, offset: nat, data: seq<byte>, puts: ChunkMap)
    requires cs > 0 && InBounds(size, cs, m) && offset + |data| <= size && PlannedPuts(size, cs, m, offset, data, puts)
    ensures Flat(size, cs, m + puts) == Overlay(Flat(size, cs, m), offset, data)
  {
    ApplyPuts(size, cs, m, puts);
    forall k: nat, j: nat | j < cs
      ensures At(Content(m + puts, k), j)
           == if offset <= Start(cs, k) + j < offset + |data| then data[Start(cs, k) + j - offset]
              else At(Content(m, k), j)
    {
      if k in puts { assert (m + puts)[k] == puts[k]; }
    }
    FlatOverlay(size, cs, m, m + puts, offset, data);
  }

  /** The batch of a write. */
  method StageWrite(size: nat, cs: nat, m: ChunkMap, offset: nat, data: seq<byte>)
    returns (ops: Ops, delta: int, ghost puts: ChunkMap)
    requires cs > 0 && InBounds(size, cs, m) && data != [] && offset + |data| <= size <= cs * INDEX_LIMIT
    ensures PlannedPuts(size, cs, m, offset, data, puts) && Apply(m, ops) == m + puts
    ensures InBounds(size, cs, Apply(m, ops))
    ensures Flat(size, cs, Apply(m, ops)) == Overlay(Flat(size, cs, m), offset, data)
    ensures delta == Total(size, cs, Apply(m, ops)) - Total(size, cs, m)
  {
    var planned, newSize;
    planned, newSize, delta := PlanWrite(cs, m, size, offset, data);
    puts := planned;
    ops := Puts(planned);
    ApplyPuts(size, cs, m, puts);
    WriteInBounds(size, cs, m, offset, data, puts);
    WriteFlat(size, cs, m, offset, data, puts);
  }

  lemma NoWrap(x: int)
    requires -I63 <= x < I63
    ensures WrapI64(x) == x
  {
  }
}
