/** Whole runs of block-device operations against a plain byte vector, as the repository's model test
    (crates/slatefs-core/tests/block_model.rs) states them, with store failures and quota refusals. */
module BlockRuns {
  import opened Common
  import opened Chunks
  import opened Data
  import opened Zeroing
  import opened Quota
  import opened BlockVolumes

  datatype Op =
    | Read(offset: nat, len: nat, env: Env)
    | Write(offset: nat, data: seq<byte>, fua: bool, env: Env)
    | WriteZeroes(offset: nat, len: nat, fua: bool, env: Env)
    | Trim(offset: nat, len: nat, envs: nat -> Env)

  datatype Reply = Bytes(bytes: Result<seq<byte>, FsError>) | Done(outcome: Outcome)

  predicate InRange(size: nat, op: Op) {
    match op
    case Read(offset, len, _) => offset + len <= size
    case Write(offset, data, _, _) => offset + |data| <= size
    case WriteZeroes(offset, len, _, _) => offset + len <= size
    case Trim(offset, len, _) => offset + len <= size
  }

  /** The byte vector after an operation that took effect. */
  ghost function Model(flat: seq<byte>, op: Op): seq<byte>
    requires InRange(|flat|, op)
  {
    match op
    case Read(_, _, _) => flat
    case Write(offset, data, _, _) => Overlay(flat, offset, data)
    case WriteZeroes(offset, len, _, _) => Overlay(flat, offset, Zeroes(len))
    case Trim(offset, len, _) => Overlay(flat, offset, Zeroes(len))
  }

  predicate Succeeded(reply: Reply) {
    match reply
    case Bytes(bytes) => bytes.Ok?
    case Done(outcome) => outcome.Ok?
  }

  /** The volume as the run sees it: its bytes, and whether it was fenced off. */
  datatype State = State(bytes: seq<byte>, dead: bool)

  ghost function StateOf(v: BlockVolume): State
    requires v.Geometry()
    reads v
  {
    State(v.Bytes(), v.dead)
  }

  /** Whether a write got through: the volume lives, the range is inside, the store reads and writes, quota admits. */
  predicate Lands(before: State, op: Op, reply: Reply) {
    match op
    case Write(_, _, _, env) =>
      !before.dead && InRange(|before.bytes|, op) && env.readOk && env.writeOk && reply != Done(Err(QuotaExceeded))
    case WriteZeroes(_, _, _, env) => !before.dead && InRange(|before.bytes|, op) && env.readOk && env.writeOk
    case _ => false
  }

  predicate FlushFails(op: Op) {
    match op
    case Write(_, _, fua, env) => fua && !env.flushOk
    case WriteZeroes(_, _, fua, env) => fua && !env.flushOk
    case _ => false
  }

  /** The operation failed in a way that shows a newer writer: from then on the volume is dead. Reads that a write makes
      before its batch are not looked at. */
  predicate Fences(op: Op, reply: Reply) {
    match op
    case Read(_, _, env) => reply == Bytes(Err(Io)) && env.fenced
    case Write(_, data, _, env) => reply == Done(Err(Io)) && env.fenced && (data == [] || env.readOk)
    case WriteZeroes(_, _, _, env) => reply == Done(Err(Io)) && env.fenced
    case Trim(_, _, _) => false
  }

  /** One step as seen by the byte vector. A write has its full effect if it lands and none if not; one that lands
      reports success if and only if no flush fails. A trim that succeeds has its full effect, and one that fails may
      have zeroed part of its range. Reads return the bytes of the vector. A dead volume refuses everything. */
  ghost predicate Explained(before: State, op: Op, reply: Reply, after: State) {
    true == (
      && (op.Read? <==> reply.Bytes?)
      && (before.dead ==> !Succeeded(reply) && after == before)
      && (Succeeded(reply) ==> InRange(|before.bytes|, op) && after.bytes == Model(before.bytes, op))
      && match op
         case Read(offset, len, env) =>
           && after.bytes == before.bytes && (after.dead <==> before.dead || Fences(op, reply))
           && (Succeeded(reply) <==> !before.dead && InRange(|before.bytes|, op) && (len == 0 || env.readOk))
           && (Succeeded(reply) ==> reply.bytes.value == before.bytes[offset..offset + len])
         case Trim(offset, len, envs) =>
           && (|| after.bytes == before.bytes
               || (InRange(|before.bytes|, op) && OldOrZero(before.bytes, after.bytes, offset, offset + len)))
           && (before.dead || if reply == Done(Err(Io)) then exists i: nat :: !Faultless(envs(i)) && after.dead == envs(i).fenced
                              else !after.dead)
         case _ =>
           && (after.dead <==> before.dead || Fences(op, reply))
           && after.bytes == (if Lands(before, op, reply) then Model(before.bytes, op) else before.bytes)
           && (Lands(before, op, reply) ==> (Succeeded(reply) <==> !FlushFails(op))))
  }

  ghost predicate FaultlessOp(op: Op) {
    match op
    case Read(_, _, env) => Faultless(env)
    case Write(_, _, _, env) => Faultless(env)
    case WriteZeroes(_, _, _, env) => Faultless(env)
    case Trim(_, _, envs) => AllFaultless(envs)
  }

  predicate Unlimited(limits: QuotaLimits) { limits.bytes.hard.None? && limits.bytes.soft.None? }

  /** Performs one operation. With a working store on a live volume it succeeds unless it leaves the
      volume or the quota refuses it, and the latter only happens to writes under a limit. */
  method Perform(v: BlockVolume, op: Op) returns (reply: Reply)
    requires v.Valid()
    modifies v, v.quota
    ensures v.Valid() && v.quota.limits == old(v.quota.limits)
    ensures Explained(old(StateOf(v)), op, reply, StateOf(v))
    ensures FaultlessOp(op) ==> v.dead == old(v.dead)
    ensures FaultlessOp(op) && !old(v.dead) ==>
      Succeeded(reply) || !InRange(v.size, op) || (op.Write? && reply == Done(Err(QuotaExceeded)))
    ensures Unlimited(v.quota.limits) ==> reply != Done(Err(QuotaExceeded))
  {
    if op.Read? || op.Trim? {
      reply := PerformReadOrTrim(v, op);
    } else {
      reply := PerformWrite(v, op);
    }
  }

  method PerformReadOrTrim(v: BlockVolume, op: Op) returns (reply: Reply)
    requires v.Valid() && (op.Read? || op.Trim?)
    modifies v, v.quota
    ensures v.Valid() && v.quota.limits == old(v.quota.limits)
    ensures Explained(old(StateOf(v)), op, reply, StateOf(v))
    ensures FaultlessOp(op) ==> v.dead == old(v.dead)
    ensures FaultlessOp(op) && !old(v.dead) ==>
      Succeeded(reply) || !InRange(v.size, op) || (op.Write? && reply == Done(Err(QuotaExceeded)))
    ensures Unlimited(v.quota.limits) ==> reply != Done(Err(QuotaExceeded))
  {
    match op
    case Read(offset, len, env) =>
      var r := v.Read(offset, len, env);
      reply := Bytes(r);
    case Trim(offset, len, envs) =>
      var r := TrimBytes(v, offset, len, envs);
      reply := Done(r);
  }

  method PerformWrite(v: BlockVolume, op: Op) returns (reply: Reply)
    requires v.Valid() && (op.Write? || op.WriteZeroes?)
    modifies v, v.quota
    ensures v.Valid() && v.quota.limits == old(v.quota.limits)
    ensures Explained(old(StateOf(v)), op, reply, StateOf(v))
    ensures FaultlessOp(op) ==> v.dead == old(v.dead)
    ensures FaultlessOp(op) && !old(v.dead) ==>
      Succeeded(reply) || !InRange(v.size, op) || (op.Write? && reply == Done(Err(QuotaExceeded)))
    ensures Unlimited(v.quota.limits) ==> reply != Done(Err(QuotaExceeded))
  {
    match op
    case Write(offset, data, fua, env) =>
      var r := v.Write(offset, data, fua, env);
      reply := Done(r);
    case WriteZeroes(offset, len, fua, env) =>
      var r := ZeroBytes(v, offset, len, fua, env);
      reply := Done(r);
  }

  /** `WriteZeroes` seen through the flat array. */
  method ZeroBytes(v: BlockVolume, offset: nat, len: nat, fua: bool, env: Env) returns (r: Outcome)
    requires v.Valid()
    modifies v, v.quota
    ensures v.Valid() && v.quota.limits == old(v.quota.limits) && r != Err(QuotaExceeded)
    ensures v.Bytes() ==
      if !old(v.dead) && offset + len <= v.size && env.readOk && env.writeOk then
        Overlay(old(v.Bytes()), offset, Zeroes(len))
      else old(v.Bytes())
    ensures r.Ok? ==>
      && !old(v.dead) && offset + len <= v.size && (fua ==> env.flushOk)
      && v.Bytes() == Overlay(old(v.Bytes()), offset, Zeroes(len))
    ensures !old(v.dead) && offset + len <= v.size && env.readOk && env.writeOk && (fua ==> env.flushOk) ==> r.Ok?
    ensures !old(v.dead) && v.size < offset + len ==> r == Err(Invalid)
    ensures v.dead <==> old(v.dead) || (r == Err(Io) && env.fenced)
    ensures Faultless(env) && !old(v.dead) && offset + len <= v.size ==> r.Ok?
  {
    ghost var m := v.chunks;
    r := v.WriteZeroes(offset, len, fua, env);
    ZeroFlat(v.size, v.cs, m, offset, len, v.chunks);
  }

  lemma ZeroFlat(size: nat, cs: nat, m: ChunkMap, offset: nat, len: nat, now: ChunkMap)
    requires cs > 0 && InBounds(size, cs, m)
    ensures offset + len <= size && IsZeroed(size, cs, m, offset, offset + len, now) ==>
      Flat(size, cs, now) == Overlay(Flat(size, cs, m), offset, Zeroes(len))
  {
    if offset + len <= size && IsZeroed(size, cs, m, offset, offset + len, now) {
      ZeroedFlat(size, cs, m, offset, offset + len, now);
    }
  }

  lemma TrimFlat(size: nat, cs: nat, m: ChunkMap, offset: nat, len: nat, now: ChunkMap, r: Outcome)
    requires cs > 0 && InBounds(size, cs, m)
    requires r.Ok? ==> offset + len <= size && IsZeroed(size, cs, m, offset, offset + len, now)
    requires r.Err? ==> now == m || (offset + len <= size && Between(size, cs, m, offset, offset + len, now))
    ensures r.Ok? ==> Flat(size, cs, now) == Overlay(Flat(size, cs, m), offset, Zeroes(len))
    ensures r.Err? ==>
      now == m || (offset + len <= size && OldOrZero(Flat(size, cs, m), Flat(size, cs, now), offset, offset + len))
  {
    if r.Ok? {
      ZeroedFlat(size, cs, m, offset, offset + len, now);
    } else if now != m {
      BetweenFlat(size, cs, m, offset, offset + len, now);
    }
  }

  /** `Trim` seen through the flat array. */
  method TrimBytes(v: BlockVolume, offset: nat, len: nat, envs: nat -> Env) returns (r: Outcome)
    requires v.Valid()
    modifies v, v.quota
    ensures v.Valid() && v.quota.limits == old(v.quota.limits) && r != Err(QuotaExceeded)
    ensures r.Ok? ==> offset + len <= v.size && v.Bytes() == Overlay(old(v.Bytes()), offset, Zeroes(len))
    ensures r.Err? ==>
      || v.Bytes() == old(v.Bytes())
      || (offset + len <= v.size && OldOrZero(old(v.Bytes()), v.Bytes(), offset, offset + len))
    ensures old(v.dead) ==> r.Err? && v.dead && v.Bytes() == old(v.Bytes())
    ensures r != Err(Io) ==> v.dead == old(v.dead)
    ensures !old(v.dead) && r == Err(Io) ==> exists i: nat :: !Faultless(envs(i)) && v.dead == envs(i).fenced
    ensures AllFaultless(envs) && !old(v.dead) && offset + len <= v.size ==> r.Ok?
  {
    ghost var m := v.chunks;
    r := v.Trim(offset, len, envs);
    TrimFlat(v.size, v.cs, m, offset, len, v.chunks, r);
  }

  // ----- runs -----

  ghost predicate ExplainedRun(states: seq<State>, ops: seq<Op>, replies: seq<Reply>) {
    && |replies| == |ops| && |states| == |ops| + 1
    && forall i :: 0 <= i < |ops| ==> Explained(states[i], ops[i], replies[i], states[i + 1])
  }

  lemma ExplainedMore(states: seq<State>, ops: seq<Op>, replies: seq<Reply>, op: Op, reply: Reply, after: State)
    requires ExplainedRun(states, ops, replies) && Explained(states[|ops|], op, reply, after)
    ensures ExplainedRun(states + [after], ops + [op], replies + [reply])
  {
    var states', ops', replies' := states + [after], ops + [op], replies + [reply];
    forall i | 0 <= i < |ops'| ensures Explained(states'[i], ops'[i], replies'[i], states'[i + 1]) {
      if i < |ops| { assert Explained(states[i], ops[i], replies[i], states[i + 1]); }
    }
  }

  /** The byte vector after a whole run, operations that leave the volume being refused. */
  ghost function ModelRun(flat: seq<byte>, ops: seq<Op>): seq<byte> {
    if ops == [] then flat
    else
      var before := ModelRun(flat, ops[..|ops| - 1]);
      var op := ops[|ops| - 1];
      if InRange(|before|, op) then Model(before, op) else before
  }

  /** Any run is explained step by step by a byte vector, ends with all three byte accounts equal, and
      if nothing fails and no limit is set it ends in exactly the state of the model. */
  method Run(v: BlockVolume, ops: seq<Op>) returns (replies: seq<Reply>, ghost states: seq<State>)
    requires v.Valid()
    modifies v, v.quota
    ensures v.Valid()
    ensures ExplainedRun(states, ops, replies) && states[0] == old(StateOf(v)) && states[|ops|] == StateOf(v)
    ensures !old(v.dead) && old(Unlimited(v.quota.limits)) && (forall op :: op in ops ==> FaultlessOp(op)) ==>
      v.Bytes() == ModelRun(old(v.Bytes()), ops)
  {
    replies, states := [], [StateOf(v)];
    var i := 0;
    while i < |ops|
      invariant 0 <= i <= |ops|
      invariant v.Valid() && v.quota.limits == old(v.quota.limits)
      invariant ExplainedRun(states, ops[..i], replies) && states[0] == old(StateOf(v)) && states[i] == StateOf(v)
      invariant !old(v.dead) && old(Unlimited(v.quota.limits)) && (forall op :: op in ops ==> FaultlessOp(op)) ==>
        !v.dead && v.Bytes() == ModelRun(old(v.Bytes()), ops[..i])
    {
      assert ops[..i + 1][..i] == ops[..i] && ops[i] in ops;
      var reply := Perform(v, ops[i]);
      ExplainedMore(states, ops[..i], replies, ops[i], reply, StateOf(v));
      assert ops[..i + 1] == ops[..i] + [ops[i]];
      replies, states := replies + [reply], states + [StateOf(v)];
      i := i + 1;
    }
    assert ops[..i] == ops;
  }

  /** Trimming and writing zeroes are interchangeable: from equal chunk maps they end in equal chunk
      maps and equal counters. */
  method TrimOrWriteZeroes(a: BlockVolume, b: BlockVolume, offset: nat, len: nat, envs: nat -> Env, fua: bool, env: Env)
    returns (ra: Outcome, rb: Outcome)
    requires a.Valid() && b.Valid() && a != b && a.quota != b.quota
    requires a.size == b.size && a.cs == b.cs && a.chunks == b.chunks
    modifies a, a.quota, b, b.quota
    ensures ra.Ok? && rb.Ok? ==> a.chunks == b.chunks && a.counter == b.counter && a.quota.bytes == b.quota.bytes
  {
    ghost var m := a.chunks;
    ra := TrimChunks(a, offset, len, envs);
    rb := ZeroChunks(b, offset, len, fua, env);
    if ra.Ok? && rb.Ok? {
      ZeroedUnique(a.size, a.cs, m, offset, offset + len, a.chunks, b.chunks);
    }
  }

  method TrimChunks(v: BlockVolume, offset: nat, len: nat, envs: nat -> Env) returns (r: Outcome)
    requires v.Valid()
    modifies v, v.quota
    ensures v.Valid() && (r.Ok? ==> IsZeroed(v.size, v.cs, old(v.chunks), offset, offset + len, v.chunks))
  {
    r := v.Trim(offset, len, envs);
  }

  method ZeroChunks(v: BlockVolume, offset: nat, len: nat, fua: bool, env: Env) returns (r: Outcome)
    requires v.Valid()
    modifies v, v.quota
    ensures v.Valid() && (r.Ok? ==> IsZeroed(v.size, v.cs, old(v.chunks), offset, offset + len, v.chunks))
  {
    r := v.WriteZeroes(offset, len, fua, env);
  }

  /** A snapshot keeps the chunk map it was taken of; reading it returns that moment's bytes. */
  method SnapshotRead(size: nat, cs: nat, snapshot: ChunkMap, offset: nat, len: nat, env: Env)
    returns (r: Result<seq<byte>, FsError>)
    requires cs > 0 && size <= cs * INDEX_LIMIT && Sized(cs, snapshot)
    ensures r.Ok? <==> offset + len <= size && (len == 0 || env.readOk)
    ensures r.Ok? ==> r.value == Flat(size, cs, snapshot)[offset..offset + len]
  {
    if offset + len > size {
      return Err(Invalid);
    }
    if len == 0 {
      return Ok([]);
    }
    if !env.readOk {
      return Err(Io);
    }
    var out := new byte[len](_ => 0);
    CopyChunks(out, cs, snapshot, offset);
    return Ok(out[..]);
  }
}
