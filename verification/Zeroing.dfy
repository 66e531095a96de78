/** Zeroing a byte range chunk by chunk (crates/slatefs-core/src/block.rs, `stage_zeroes_for_existing_chunk`
    and `trim_trailing_zeroes`), and write batches over a chunk map. */
module Zeroing {
  import opened Common
  import opened Chunks
  import opened Data

  // ----- dropping trailing zeroes -----

  function TrimTrailing(s: seq<byte>): seq<byte> {
    if s != [] && s[|s| - 1] == 0 then TrimTrailing(s[..|s| - 1]) else s
  }

  /** Only zeroes go, and all of them do. */
  lemma {:induction false} TrimTrailingReads(s: seq<byte>)
    ensures var r := TrimTrailing(s);
      && |r| <= |s| && (r != [] ==> r[|r| - 1] != 0)
      && forall j: nat :: At(r, j) == At(s, j)
  {
    if s != [] && s[|s| - 1] == 0 {
      var t := s[..|s| - 1];
      TrimTrailingReads(t);
      forall j: nat ensures At(TrimTrailing(s), j) == At(s, j) { assert At(t, j) == At(s, j); }
    }
  }

  method TrimTrailingZeroes(s: seq<byte>) returns (r: seq<byte>)
    ensures r == TrimTrailing(s) && (r != [] ==> r[|r| - 1] != 0)
  {
    r := s;
    while r != [] && r[|r| - 1] == 0
      invariant TrimTrailing(r) == TrimTrailing(s)
    {
      r := r[..|r| - 1];
    }
  }

  // ----- zeroing one chunk -----

  predicate FullyCovered(size: nat, cs: nat, k: nat, lo: nat, hi: nat) {
    lo <= Start(cs, k) && Min(Start(cs, k) + cs, size) <= hi
  }

  /** Bounds of the zeroed part of chunk `k`, relative to its start. */
  function ZeroFrom(cs: nat, k: nat, lo: nat): nat { Max(lo, Start(cs, k)) - Start(cs, k) }

  function ZeroTo(size: nat, cs: nat, k: nat, v: seq<byte>, hi: nat): int {
    Min(Min(hi, Min(Start(cs, k) + cs, size)) - Start(cs, k), |v|)
  }

  function ZeroFill(v: seq<byte>, from: nat, to: nat): seq<byte>
    requires from <= to <= |v|
  {
    v[..from] + Zeroes(to - from) + v[to..]
  }

  /** Stored bytes of chunk `k` after zeroing `[lo, hi)`: none when nothing but zeroes would be left. */
  function ZeroedChunk(size: nat, cs: nat, k: nat, v: seq<byte>, lo: nat, hi: nat): Option<seq<byte>> {
    if FullyCovered(size, cs, k, lo, hi) then None
    else
      var from, to := ZeroFrom(cs, k, lo), ZeroTo(size, cs, k, v, hi);
      if from >= to then Some(v)
      else
        var buf := TrimTrailing(ZeroFill(v, from, to));
        if buf == [] then None else Some(buf)
  }

  function Unwrap(v: Option<seq<byte>>): seq<byte> { if v.Some? then v.value else [] }

  /** It reads as zeroes inside the range and as before outside, and is no longer than before. */
  lemma ZeroedChunkReads(size: nat, cs: nat, k: nat, v: seq<byte>, lo: nat, hi: nat, j: nat)
    requires Touches(cs, k, lo, hi) && Start(cs, k) + |v| <= size && |v| <= cs && j < cs
    ensures At(Unwrap(ZeroedChunk(size, cs, k, v, lo, hi)), j) == if lo <= Start(cs, k) + j < hi then 0 else At(v, j)
  {
    var from, to := ZeroFrom(cs, k, lo), ZeroTo(size, cs, k, v, hi);
    if !FullyCovered(size, cs, k, lo, hi) && from < to {
      TrimTrailingReads(ZeroFill(v, from, to));
      assert At(ZeroFill(v, from, to), j) == if from <= j < to then 0 else At(v, j);
    }
  }

  lemma ZeroedChunkShrinks(size: nat, cs: nat, k: nat, v: seq<byte>, lo: nat, hi: nat)
    requires Touches(cs, k, lo, hi) && Start(cs, k) + |v| <= size && |v| <= cs
    ensures |Unwrap(ZeroedChunk(size, cs, k, v, lo, hi))| <= |v|
  {
    var from, to := ZeroFrom(cs, k, lo), ZeroTo(size, cs, k, v, hi);
    if !FullyCovered(size, cs, k, lo, hi) && from < to {
      TrimTrailingReads(ZeroFill(v, from, to));
    }
  }

  // ----- zeroing a map -----

  function Lookup(m: ChunkMap, k: nat): Option<seq<byte>> { if k in m then Some(m[k]) else None }

  /** Chunk `k` of `m` after zeroing `[lo, hi)`. */
  function ZeroedAt(size: nat, cs: nat, m: ChunkMap, lo: nat, hi: nat, k: nat): Option<seq<byte>> {
    if k in m && Touches(cs, k, lo, hi) then ZeroedChunk(size, cs, k, m[k], lo, hi) else Lookup(m, k)
  }

  /** `z` is `m` with `[lo, hi)` zeroed; there is just one such map. */
  ghost predicate IsZeroed(size: nat, cs: nat, m: ChunkMap, lo: nat, hi: nat, z: ChunkMap) {
    forall k: nat :: Lookup(z, k) == ZeroedAt(size, cs, m, lo, hi, k)
  }

  /** Each chunk of `now` is either still as it was or already zeroed: where an interrupted trim stops. */
  ghost predicate Between(size: nat, cs: nat, m: ChunkMap, lo: nat, hi: nat, now: ChunkMap) {
    forall k: nat :: Lookup(now, k) == Lookup(m, k) || Lookup(now, k) == ZeroedAt(size, cs, m, lo, hi, k)
  }

  lemma ZeroedUnique(size: nat, cs: nat, m: ChunkMap, lo: nat, hi: nat, a: ChunkMap, b: ChunkMap)
    requires IsZeroed(size, cs, m, lo, hi, a) && IsZeroed(size, cs, m, lo, hi, b)
    ensures a == b
  {
    forall k: nat ensures Lookup(a, k) == Lookup(b, k) {
      assert Lookup(a, k) == ZeroedAt(size, cs, m, lo, hi, k);
    }
    SameMap(a, b);
  }

  lemma ZeroedContent(size: nat, cs: nat, m: ChunkMap, lo: nat, hi: nat, k: nat, j: nat)
    requires InBounds(size, cs, m) && j < cs
    ensures At(Unwrap(ZeroedAt(size, cs, m, lo, hi, k)), j)
         == if lo <= Start(cs, k) + j < hi then 0 else At(Content(m, k), j)
  {
    if k in m && Touches(cs, k, lo, hi) {
      ZeroedChunkReads(size, cs, k, m[k], lo, hi, j);
    }
  }

  /** Zeroing the chunks zeroes exactly the range of the flat array. */
  lemma ZeroedFlat(size: nat, cs: nat, m: ChunkMap, lo: nat, hi: nat, z: ChunkMap)
    requires cs > 0 && InBounds(size, cs, m) && lo <= hi <= size && IsZeroed(size, cs, m, lo, hi, z)
    ensures Flat(size, cs, z) == Overlay(Flat(size, cs, m), lo, Zeroes(hi - lo))
  {
    forall k: nat, j: nat | j < cs
      ensures At(Content(z, k), j)
           == if lo <= Start(cs, k) + j < lo + |Zeroes(hi - lo)| then Zeroes(hi - lo)[Start(cs, k) + j - lo]
              else At(Content(m, k), j)
    {
      assert Lookup(z, k) == ZeroedAt(size, cs, m, lo, hi, k);
      ZeroedContent(size, cs, m, lo, hi, k, j);
    }
    FlatOverlay(size, cs, m, z, lo, Zeroes(hi - lo));
  }

  /** Half-way, every byte is the old one or, inside the range, zero. */
  lemma BetweenFlat(size: nat, cs: nat, m: ChunkMap, lo: nat, hi: nat, now: ChunkMap)
    requires cs > 0 && InBounds(size, cs, m) && lo <= hi <= size && Between(size, cs, m, lo, hi, now)
    ensures OldOrZero(Flat(size, cs, m), Flat(size, cs, now), lo, hi)
  {
    forall i: nat | i < size ensures
      Flat(size, cs, now)[i] == Flat(size, cs, m)[i] || (lo <= i < hi && Flat(size, cs, now)[i] == 0)
    {
      ChunkHolds(cs, i);
      var k := i / cs;
      assert Lookup(now, k) == Lookup(m, k) || Lookup(now, k) == ZeroedAt(size, cs, m, lo, hi, k);
      ZeroedContent(size, cs, m, lo, hi, k, i % cs);
    }
  }

  ghost predicate OldOrZero(before: seq<byte>, after: seq<byte>, lo: nat, hi: nat) {
    && |after| == |before|
    && forall i: nat :: i < |before| ==> after[i] == before[i] || (lo <= i < hi && after[i] == 0)
  }

  lemma BetweenInBounds(size: nat, cs: nat, m: ChunkMap, lo: nat, hi: nat, now: ChunkMap)
    requires InBounds(size, cs, m) && Between(size, cs, m, lo, hi, now)
    ensures InBounds(size, cs, now)
  {
    forall k | k in now ensures |now[k]| <= cs && Start(cs, k) < size && Start(cs, k) + |now[k]| <= size {
      assert Lookup(now, k) == Lookup(m, k) || Lookup(now, k) == ZeroedAt(size, cs, m, lo, hi, k);
      if k in m && Touches(cs, k, lo, hi) { ZeroedChunkShrinks(size, cs, k, m[k], lo, hi); }
    }
  }

  // ----- batches -----

  /** Staged puts (`Some`) and deletes (`None`) of one atomic write. */
  type Ops = map<nat, Option<seq<byte>>>

  function Apply(m: ChunkMap, ops: Ops): ChunkMap {
    map k | k in m.Keys + ops.Keys && (k in ops ==> ops[k].Some?) :: if k in ops then ops[k].value else m[k]
  }

  lemma ApplyLookup(m: ChunkMap, ops: Ops, k: nat)
    ensures Lookup(Apply(m, ops), k) == if k in ops then ops[k] else Lookup(m, k)
  {
  }

  lemma ApplyNothing(m: ChunkMap)
    ensures Apply(m, map[]) == m
  {
  }

  lemma SameMap(a: ChunkMap, b: ChunkMap)
    requires forall k: nat :: Lookup(a, k) == Lookup(b, k)
    ensures a == b
  {
    forall k: nat ensures k in a <==> k in b { assert Lookup(a, k) == Lookup(b, k); }
    forall k | k in a ensures a[k] == b[k] { assert Lookup(a, k) == Lookup(b, k); }
  }

  /** Staging one more chunk changes the total by that chunk's own difference. */
  lemma StageTotal(size: nat, cs: nat, m: ChunkMap, ops: Ops, k: nat, v: Option<seq<byte>>)
    requires cs > 0 && k !in ops
    ensures Total(size, cs, Apply(m, ops[k := v]))
         == Total(size, cs, Apply(m, ops)) - Cost(size, cs, m, k) + Billed(size, Start(cs, k), |Unwrap(v)|)
  {
    TotalChange(size, cs, Apply(m, ops), Apply(m, ops[k := v]), k);
  }

  // ----- staging -----

  /** Stage the zeroing of one stored chunk; nothing is staged when it would not change. */
  method StageChunk(size: nat, cs: nat, m: ChunkMap, ops: Ops, idx: nat, lo: nat, hi: nat)
    returns (ops': Ops, delta: Option<int>)
    requires cs > 0 && InBounds(size, cs, m) && Touches(cs, idx, lo, hi) && idx !in ops
    ensures delta.None? ==> ops' == ops && ZeroedAt(size, cs, m, lo, hi, idx) == Lookup(m, idx)
    ensures delta.Some? ==> ops' == ops[idx := ZeroedAt(size, cs, m, lo, hi, idx)]
    ensures delta.Some? ==> delta.value == Total(size, cs, Apply(m, ops')) - Total(size, cs, Apply(m, ops))
  {
    if idx !in m {
      return ops, None;
    }
    var staged, change := ZeroChunk(size, cs, idx, m[idx], lo, hi);
    if staged.None? {
      return ops, None;
    }
    StageTotal(size, cs, m, ops, idx, staged.value);
    return ops[idx := staged.value], Some(change);
  }

  /** The new bytes of one stored chunk, none if it stays as it is, and its change in billed bytes. */
  method ZeroChunk(size: nat, cs: nat, idx: nat, existing: seq<byte>, lo: nat, hi: nat)
    returns (staged: Option<Option<seq<byte>>>, change: int)
    ensures staged.None? ==> ZeroedChunk(size, cs, idx, existing, lo, hi) == Some(existing)
    ensures staged.Some? ==> staged.value == ZeroedChunk(size, cs, idx, existing, lo, hi)
    ensures staged.Some? ==>
      change == Billed(size, Start(cs, idx), |Unwrap(staged.value)|) - Billed(size, Start(cs, idx), |existing|)
    ensures staged.Some? && staged.value.Some? ==>
      staged.value.value != [] && staged.value.value[|staged.value.value| - 1] != 0
  {
    var chunkStart := Start(cs, idx);
    var chunkEnd := Min(chunkStart + cs, size);
    var oldBilled: int := Billed(size, chunkStart, |existing|);
    change := 0;
    if lo <= chunkStart && chunkEnd <= hi {
      change := -oldBilled;
      return Some(None), change;
    }
    var from := Max(lo, chunkStart) - chunkStart;
    var to := Min(Min(hi, chunkEnd) - chunkStart, |existing|);
    if from >= to {
      return None, change;
    }
    var buf := TrimTrailingZeroes(ZeroFill(existing, from, to));
    var newBilled: int := Billed(size, chunkStart, |buf|);
    change := newBilled - oldBilled;
    return Some(if buf == [] then None else Some(buf)), change;
  }

  /** The chunks from `first` up to `idx` are staged or already zeroed. */
  ghost predicate Staged(size: nat, cs: nat, m: ChunkMap, lo: nat, hi: nat, ops: Ops, first: nat, idx: nat) {
    true == (
      && (forall k :: k in ops ==> first <= k < idx && ops[k] == ZeroedAt(size, cs, m, lo, hi, k))
      && (forall k: nat :: first <= k < idx && k !in ops ==> Lookup(m, k) == ZeroedAt(size, cs, m, lo, hi, k)))
  }

  /** Stage the zeroing of `[lo, hi)`, chunk by chunk. */
  method StageRange(size: nat, cs: nat, m: ChunkMap, lo: nat, hi: nat) returns (ops: Ops, delta: int)
    requires cs > 0 && InBounds(size, cs, m) && lo < hi <= size <= cs * INDEX_LIMIT
    ensures IsZeroed(size, cs, m, lo, hi, Apply(m, ops))
    ensures InBounds(size, cs, Apply(m, ops))
    ensures delta == Total(size, cs, Apply(m, ops)) - Total(size, cs, m) <= 0
  {
    var first, last := ChunkSpan(cs, lo, hi);
    ops, delta := map[], 0;
    var idx := first;
    ApplyNothing(m);
    while idx <= last
      invariant first <= idx <= last + 1
      invariant Staged(size, cs, m, lo, hi, ops, first, idx)
      invariant delta == Total(size, cs, Apply(m, ops)) - Total(size, cs, m)
    {
      assert Touches(cs, idx, lo, hi);
      var ops', staged := StageChunk(size, cs, m, ops, idx, lo, hi);
      StagedMore(size, cs, m, lo, hi, ops, first, idx, ops');
      if staged.Some? {
        delta := delta + staged.value;
      }
      ops, idx := ops', idx + 1;
    }
    StagedZeroes(size, cs, m, lo, hi, ops, first, last);
  }

  lemma StagedMore(size: nat, cs: nat, m: ChunkMap, lo: nat, hi: nat, ops: Ops, first: nat, idx: nat, ops': Ops)
    requires Staged(size, cs, m, lo, hi, ops, first, idx) && first <= idx
    requires if ops' == ops then idx in ops || ZeroedAt(size, cs, m, lo, hi, idx) == Lookup(m, idx)
             else ops' == ops[idx := ZeroedAt(size, cs, m, lo, hi, idx)]
    ensures Staged(size, cs, m, lo, hi, ops', first, idx + 1)
  {
  }

  lemma StagedZeroes(size: nat, cs: nat, m: ChunkMap, lo: nat, hi: nat, ops: Ops, first: nat, last: nat)
    requires InBounds(size, cs, m) && Staged(size, cs, m, lo, hi, ops, first, last + 1)
    requires forall k: nat :: Touches(cs, k, lo, hi) <==> first <= k <= last
    ensures IsZeroed(size, cs, m, lo, hi, Apply(m, ops)) && InBounds(size, cs, Apply(m, ops))
    ensures Total(size, cs, Apply(m, ops)) <= Total(size, cs, m)
  {
    forall k: nat ensures Lookup(Apply(m, ops), k) == ZeroedAt(size, cs, m, lo, hi, k) {
      ApplyLookup(m, ops, k);
    }
    ZeroedBills(size, cs, m, lo, hi, Apply(m, ops));
  }

  lemma ZeroedNothing(size: nat, cs: nat, m: ChunkMap, lo: nat)
    requires InBounds(size, cs, m)
    ensures IsZeroed(size, cs, m, lo, lo, m)
  {
  }

  lemma {:induction false} SumShrinks(size: nat, cs: nat, m: ChunkMap, m': ChunkMap, n: nat)
    requires forall k: nat :: |Content(m', k)| <= |Content(m, k)|
    ensures SumBelow(size, cs, m', n) <= SumBelow(size, cs, m, n)
  {
    if n > 0 { SumShrinks(size, cs, m, m', n - 1); }
  }

  /** Zeroing, done or half-way, stays in bounds and never bills more. */
  lemma ZeroedBills(size: nat, cs: nat, m: ChunkMap, lo: nat, hi: nat, now: ChunkMap)
    requires InBounds(size, cs, m) && Between(size, cs, m, lo, hi, now)
    ensures InBounds(size, cs, now) && Total(size, cs, now) <= Total(size, cs, m)
  {
    BetweenInBounds(size, cs, m, lo, hi, now);
    forall k: nat ensures |Content(now, k)| <= |Content(m, k)| {
      assert Lookup(now, k) == Lookup(m, k) || Lookup(now, k) == ZeroedAt(size, cs, m, lo, hi, k);
      if k in m && Touches(cs, k, lo, hi) { ZeroedChunkShrinks(size, cs, k, m[k], lo, hi); }
    }
    SumShrinks(size, cs, m, now, size);
  }
}
