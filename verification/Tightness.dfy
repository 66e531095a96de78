/** What zeroing a range leaves stored (crates/slatefs-core/src/block.rs, `stage_zeroes_for_existing_chunk`), in terms of
    the stored bytes alone: chunks the range reaches lose their trailing zeroes, the others stay as they are, and no map
    that reads the same and leaves those alone is billed less. */
module Tightness {
  import opened Common
  import opened Chunks
  import opened Data
  import opened Zeroing

  /** The range meets bytes that chunk `k` stores, or covers all of the chunk. */
  predicate Reached(size: nat, cs: nat, m: ChunkMap, lo: nat, hi: nat, k: nat) {
    && k in m && lo < hi && Start(cs, k) < hi
    && ((m[k] != [] && lo < Start(cs, k) + |m[k]|) || (lo <= Start(cs, k) && Min(Start(cs, k) + cs, size) <= hi))
  }

  /** Chunks that the range does not reach are stored as before. */
  ghost predicate Spares(size: nat, cs: nat, m: ChunkMap, lo: nat, hi: nat, z: ChunkMap) {
    forall k: nat :: !Reached(size, cs, m, lo, hi, k) ==> Lookup(z, k) == Lookup(m, k)
  }

  /** What is stored of the chunks that it reaches is not empty and does not end in a zero. */
  ghost predicate Tight(size: nat, cs: nat, m: ChunkMap, lo: nat, hi: nat, z: ChunkMap) {
    forall k: nat :: Reached(size, cs, m, lo, hi, k) && k in z ==> z[k] != [] && z[k][|z[k]| - 1] != 0
  }

  /** No map that reads as `z` does and spares what the range does not reach is billed less. */
  ghost predicate Least(size: nat, cs: nat, m: ChunkMap, lo: nat, hi: nat, z: ChunkMap)
    requires cs > 0
  {
    forall other: ChunkMap ::
      Spares(size, cs, m, lo, hi, other) && Flat(size, cs, other) == Flat(size, cs, z) ==>
      Total(size, cs, z) <= Total(size, cs, other)
  }

  /** `z` is what zeroing `[lo, hi)` of `m` leaves, said without reference to how a chunk is zeroed. */
  ghost predicate Cleared(size: nat, cs: nat, m: ChunkMap, lo: nat, hi: nat, z: ChunkMap)
    requires cs > 0 && lo <= hi <= size
  {
    true == (
      && InBounds(size, cs, z) && Spares(size, cs, m, lo, hi, z) && Tight(size, cs, m, lo, hi, z)
      && Flat(size, cs, z) == Overlay(Flat(size, cs, m), lo, Zeroes(hi - lo)))
  }

  lemma ZeroedChunkTight(size: nat, cs: nat, m: ChunkMap, lo: nat, hi: nat, k: nat)
    requires cs > 0 && InBounds(size, cs, m) && lo < hi && k in m
    ensures var z := ZeroedAt(size, cs, m, lo, hi, k);
      if Reached(size, cs, m, lo, hi, k) then z.Some? ==> z.value != [] && z.value[|z.value| - 1] != 0
      else z == Some(m[k])
  {
    var v := m[k];
    var from, to := ZeroFrom(cs, k, lo), ZeroTo(size, cs, k, v, hi);
    if Touches(cs, k, lo, hi) && !FullyCovered(size, cs, k, lo, hi) && from < to {
      TrimTrailingReads(ZeroFill(v, from, to));
    }
  }

  lemma ZeroedTight(size: nat, cs: nat, m: ChunkMap, lo: nat, hi: nat, z: ChunkMap)
    requires cs > 0 && InBounds(size, cs, m) && IsZeroed(size, cs, m, lo, hi, z)
    ensures lo < hi ==> Spares(size, cs, m, lo, hi, z) && Tight(size, cs, m, lo, hi, z)
  {
    if lo < hi {
      forall k: nat
        ensures !Reached(size, cs, m, lo, hi, k) ==> Lookup(z, k) == Lookup(m, k)
        ensures Reached(size, cs, m, lo, hi, k) && k in z ==> z[k] != [] && z[k][|z[k]| - 1] != 0
      {
        assert Lookup(z, k) == ZeroedAt(size, cs, m, lo, hi, k);
        if k in m { ZeroedChunkTight(size, cs, m, lo, hi, k); }
      }
    }
  }

  /** Two values without trailing zeroes that read the same are the same. */
  lemma TightUnique(a: Option<seq<byte>>, b: Option<seq<byte>>, cs: nat)
    requires a.Some? ==> 0 < |a.value| <= cs && a.value[|a.value| - 1] != 0
    requires b.Some? ==> 0 < |b.value| <= cs && b.value[|b.value| - 1] != 0
    requires forall j: nat :: j < cs ==> At(Unwrap(a), j) == At(Unwrap(b), j)
    ensures a == b
  {
    if a.Some? { assert At(Unwrap(a), |a.value| - 1) == At(Unwrap(b), |a.value| - 1); }
    if b.Some? { assert At(Unwrap(a), |b.value| - 1) == At(Unwrap(b), |b.value| - 1); }
    if a.Some? && b.Some? {
      assert |a.value| == |b.value|;
      forall j | 0 <= j < |a.value| ensures a.value[j] == b.value[j] {
        assert At(Unwrap(a), j) == At(Unwrap(b), j);
      }
      assert a.value == b.value;
    }
  }

  lemma ClearedChunk(size: nat, cs: nat, m: ChunkMap, lo: nat, hi: nat, z: ChunkMap, k: nat)
    requires cs > 0 && lo < hi <= size && InBounds(size, cs, m) && Cleared(size, cs, m, lo, hi, z)
    ensures Lookup(z, k) == ZeroedAt(size, cs, m, lo, hi, k)
  {
    if Reached(size, cs, m, lo, hi, k) {
      ZeroedChunkTight(size, cs, m, lo, hi, k);
      if Touches(cs, k, lo, hi) { ZeroedChunkShrinks(size, cs, k, m[k], lo, hi); }
      forall j: nat | j < cs ensures At(Unwrap(Lookup(z, k)), j) == At(Unwrap(ZeroedAt(size, cs, m, lo, hi, k)), j) {
        ClearedByte(size, cs, m, lo, hi, z, k, j);
      }
      TightUnique(Lookup(z, k), ZeroedAt(size, cs, m, lo, hi, k), cs);
    } else if k in m {
      ZeroedChunkTight(size, cs, m, lo, hi, k);
    }
  }

  lemma ClearedByte(size: nat, cs: nat, m: ChunkMap, lo: nat, hi: nat, z: ChunkMap, k: nat, j: nat)
    requires cs > 0 && lo < hi <= size && InBounds(size, cs, m) && Cleared(size, cs, m, lo, hi, z) && j < cs
    requires k in m
    ensures At(Content(z, k), j) == At(Unwrap(ZeroedAt(size, cs, m, lo, hi, k)), j)
  {
    ZeroedContent(size, cs, m, lo, hi, k, j);
    var i := Start(cs, k) + j;
    if i < size {
      HeldByte(cs, z, i, k);
      HeldByte(cs, m, i, k);
      OverlayAt(Flat(size, cs, m), lo, Zeroes(hi - lo), i);
      assert Flat(size, cs, z)[i] == ByteAt(cs, z, i) && Flat(size, cs, m)[i] == ByteAt(cs, m, i);
    }
  }

  /** Zeroing chunk by chunk leaves exactly the map so described. */
  lemma ZeroedIff(size: nat, cs: nat, m: ChunkMap, lo: nat, hi: nat, z: ChunkMap)
    requires cs > 0 && lo < hi <= size && InBounds(size, cs, m)
    ensures IsZeroed(size, cs, m, lo, hi, z) <==> Cleared(size, cs, m, lo, hi, z)
  {
    if IsZeroed(size, cs, m, lo, hi, z) {
      ZeroedTight(size, cs, m, lo, hi, z);
      ZeroedFlat(size, cs, m, lo, hi, z);
      ZeroedBills(size, cs, m, lo, hi, z);
    }
    if Cleared(size, cs, m, lo, hi, z) {
      forall k: nat ensures Lookup(z, k) == ZeroedAt(size, cs, m, lo, hi, k) { ClearedChunk(size, cs, m, lo, hi, z, k); }
    }
  }

  // ----- the least bill -----

  /** A stored last byte that is not zero has to be stored by every map that reads the same. */
  lemma TightCost(size: nat, cs: nat, z: ChunkMap, other: ChunkMap, k: nat)
    requires cs > 0 && InBounds(size, cs, z) && Flat(size, cs, other) == Flat(size, cs, z)
    requires k in z ==> z[k] != [] && z[k][|z[k]| - 1] != 0
    ensures Cost(size, cs, z, k) <= Cost(size, cs, other, k)
  {
    if k in z {
      var j := |z[k]| - 1;
      var i := Start(cs, k) + j;
      HeldByte(cs, z, i, k);
      HeldByte(cs, other, i, k);
      assert Flat(size, cs, z)[i] == ByteAt(cs, z, i) && Flat(size, cs, other)[i] == ByteAt(cs, other, i);
    }
  }

  lemma {:induction false} SumLeast(size: nat, cs: nat, z: ChunkMap, other: ChunkMap, n: nat)
    requires forall k: nat :: Cost(size, cs, z, k) <= Cost(size, cs, other, k)
    ensures SumBelow(size, cs, z, n) <= SumBelow(size, cs, other, n)
  {
    if n > 0 { SumLeast(size, cs, z, other, n - 1); }
  }

  lemma TightLeast(size: nat, cs: nat, m: ChunkMap, lo: nat, hi: nat, z: ChunkMap)
    requires cs > 0 && InBounds(size, cs, z) && Spares(size, cs, m, lo, hi, z) && Tight(size, cs, m, lo, hi, z)
    ensures Least(size, cs, m, lo, hi, z)
  {
    forall other: ChunkMap | Spares(size, cs, m, lo, hi, other) && Flat(size, cs, other) == Flat(size, cs, z)
      ensures Total(size, cs, z) <= Total(size, cs, other)
    {
      forall k: nat ensures Cost(size, cs, z, k) <= Cost(size, cs, other, k) {
        if Reached(size, cs, m, lo, hi, k) {
          TightCost(size, cs, z, other, k);
        } else {
          assert Lookup(z, k) == Lookup(m, k) == Lookup(other, k);
        }
      }
      SumLeast(size, cs, z, other, size);
    }
  }

  lemma ZeroedLeast(size: nat, cs: nat, m: ChunkMap, lo: nat, hi: nat, z: ChunkMap)
    requires cs > 0 && lo < hi <= size && InBounds(size, cs, m) && IsZeroed(size, cs, m, lo, hi, z)
    ensures Cleared(size, cs, m, lo, hi, z) && Least(size, cs, m, lo, hi, z)
  {
    ZeroedIff(size, cs, m, lo, hi, z);
    TightLeast(size, cs, m, lo, hi, z);
  }
}
