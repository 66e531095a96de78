/** The pieces of a batched trim (crates/slatefs-core/src/block.rs, `trim`): edge chunks are zeroed exactly,
    fully covered chunks are found by ordered scans and deleted at most `BATCH` to a write. */
module Trimming {
  import opened Common
  import opened Chunks
  import opened Data
  import opened Zeroing

  const BATCH: nat := 1024

  /** Chunks the fast path deletes. */
  predicate Interior(size: nat, cs: nat, lo: nat, hi: nat, k: nat) {
    Touches(cs, k, lo, hi) && FullyCovered(size, cs, k, lo, hi)
  }

  lemma MiddleCovered(size: nat, cs: nat, lo: nat, hi: nat, first: nat, last: nat, k: nat)
    requires Touches(cs, first, lo, hi) && Touches(cs, last, lo, hi) && first < k < last
    ensures FullyCovered(size, cs, k, lo, hi)
  {
    StartMonotone(cs, first, k);
    StartMonotone(cs, k, last);
  }

  lemma InteriorGoes(size: nat, cs: nat, m: ChunkMap, lo: nat, hi: nat, k: nat)
    requires Interior(size, cs, lo, hi, k)
    ensures ZeroedAt(size, cs, m, lo, hi, k) == None
  {
  }

  /** What remains to be done on top of `now`: once `ops` is applied every chunk outside the interior is
      final, and each interior chunk is either untouched or gone. */
  ghost predicate Pending(size: nat, cs: nat, m: ChunkMap, lo: nat, hi: nat, now: ChunkMap, ops: Ops) {
    forall k: nat ::
      if Interior(size, cs, lo, hi, k) then k !in ops && (Lookup(now, k) == Lookup(m, k) || Lookup(now, k) == None)
      else (Lookup(now, k) == Lookup(m, k) || Lookup(now, k) == ZeroedAt(size, cs, m, lo, hi, k))
           && (if k in ops then ops[k] else Lookup(now, k)) == ZeroedAt(size, cs, m, lo, hi, k)
  }

  /** Stages the edge chunks and finds the range of fully covered ones, if any. */
  method StageEdges(size: nat, cs: nat, m: ChunkMap, lo: nat, hi: nat)
    returns (ops: Ops, delta: int, mutations: nat, full: Option<(nat, nat)>)
    requires cs > 0 && InBounds(size, cs, m) && lo < hi <= size <= cs * INDEX_LIMIT
    ensures Pending(size, cs, m, lo, hi, m, ops)
    ensures delta == Total(size, cs, Apply(m, ops)) - Total(size, cs, m)
    ensures mutations == 0 <==> ops == map[]
    ensures full.None? ==> forall k: nat :: !Interior(size, cs, lo, hi, k)
    ensures full.Some? ==> forall k: nat :: Interior(size, cs, lo, hi, k) <==> full.value.0 <= k <= full.value.1
  {
    var first, last := ChunkSpan(cs, lo, hi);
    assert Touches(cs, first, lo, hi) && Touches(cs, last, lo, hi);
    ApplyNothing(m);
    ops, delta, mutations := StageEdge(size, cs, m, map[], first, lo, hi);
    if first != last {
      var delta', mutations';
      ops, delta', mutations' := StageEdge(size, cs, m, ops, last, lo, hi);
      delta, mutations := delta + delta', mutations + mutations';
    }
    var fullFirst := if FullyCovered(size, cs, first, lo, hi) then first else first + 1;
    var fullLast: int := last;
    if !FullyCovered(size, cs, last, lo, hi) {
      fullLast := fullLast - 1;
    }
    full := if fullFirst <= fullLast then Some((fullFirst, fullLast)) else None;
    forall k: nat ensures Interior(size, cs, lo, hi, k) <==> fullFirst <= k <= fullLast {
      assert Touches(cs, k, lo, hi) <==> first <= k <= last;
      if first < k < last { MiddleCovered(size, cs, lo, hi, first, last, k); }
    }
    forall k: nat | !Interior(size, cs, lo, hi, k)
      ensures (if k in ops then ops[k] else Lookup(m, k)) == ZeroedAt(size, cs, m, lo, hi, k)
    {
      assert Touches(cs, k, lo, hi) <==> first <= k <= last;
    }
  }

  /** Stages one end of the range, unless it is fully covered. */
  method StageEdge(size: nat, cs: nat, m: ChunkMap, ops: Ops, idx: nat, lo: nat, hi: nat)
    returns (ops': Ops, delta: int, mutations: nat)
    requires cs > 0 && InBounds(size, cs, m) && Touches(cs, idx, lo, hi) && idx !in ops
    ensures FullyCovered(size, cs, idx, lo, hi) ==> ops' == ops
    ensures !FullyCovered(size, cs, idx, lo, hi) ==>
      (if idx in ops' then ops'[idx] else Lookup(m, idx)) == ZeroedAt(size, cs, m, lo, hi, idx)
    ensures forall k: nat :: k != idx ==> (k in ops' <==> k in ops) && (k in ops ==> ops'[k] == ops[k])
    ensures mutations == 0 <==> ops' == ops
    ensures delta == Total(size, cs, Apply(m, ops')) - Total(size, cs, Apply(m, ops))
  {
    ops', delta, mutations := ops, 0, 0;
    if !FullyCovered(size, cs, idx, lo, hi) {
      var staged;
      ops', staged := StageChunk(size, cs, m, ops, idx, lo, hi);
      if staged.Some? {
        delta, mutations := staged.value, 1;
      }
    }
  }

  /** One scan over the fully covered range `[scanFirst, scanLast]`: stages the deletion of its first
      `BATCH` stored chunks. */
  method ScanBatch(size: nat, cs: nat, m: ChunkMap, ops: Ops, scanFirst: nat, scanLast: nat)
    returns (ops': Ops, delta: int, n: nat)
    requires cs > 0 && forall k :: k in ops ==> !(scanFirst <= k <= scanLast)
    ensures forall k: nat :: !(scanFirst <= k <= scanLast) ==> (k in ops' <==> k in ops)
    ensures forall k :: k in ops' ==> if k in ops then ops'[k] == ops[k] else k in m && ops'[k] == None
    ensures n < BATCH ==> forall k :: k in m && scanFirst <= k <= scanLast ==> k in ops'
    ensures n == 0 <==> ops' == ops
    ensures n > 0 ==> exists k :: k in ops' && scanFirst <= k <= scanLast
    ensures delta == Total(size, cs, Apply(m, ops')) - Total(size, cs, Apply(m, ops))
  {
    ops', delta, n := ops, 0, 0;
    var pos := scanFirst;
    var next: Option<nat> := ScanNext(m.Keys, pos);
    while n < BATCH && next.Some? && next.value <= scanLast
      invariant scanFirst <= pos && IsNext(m.Keys, pos, next)
      invariant forall k: nat :: !(scanFirst <= k < pos && k <= scanLast) ==> (k in ops' <==> k in ops)
      invariant forall k :: k in ops' ==> if k in ops then ops'[k] == ops[k] else k in m && ops'[k] == None
      invariant forall k :: k in m && scanFirst <= k < pos && k <= scanLast ==> k in ops'
      invariant n == 0 ==> ops' == ops
      invariant n > 0 ==> exists k :: k in ops' && scanFirst <= k <= scanLast
      invariant delta == Total(size, cs, Apply(m, ops')) - Total(size, cs, Apply(m, ops))
      decreases BATCH - n
    {
      var idx := next.value;
      StageTotal(size, cs, m, ops', idx, None);
      ops' := ops'[idx := None];
      delta := delta - Billed(size, Start(cs, idx), |m[idx]|);
      n := n + 1;
      pos := idx + 1;
      next := ScanNext(m.Keys, pos);
    }
  }
}
