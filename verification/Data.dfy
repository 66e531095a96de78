/** Chunked content paths (crates/slatefs-core/src/data.rs): reading a byte range, and planning the
    chunk puts, chunk deletes and billed-bytes delta of a write or a truncate. */
module Data {
  import opened Common
  import opened Chunks

  // ----- reading -----

  /** Copies the part of `chunk` that lies inside the read window into `out`. */
  method CopyFromChunk(out: array<byte>, readOffset: nat, idx: nat, chunk: seq<byte>, cs: nat)
    modifies out
    ensures forall p :: 0 <= p < out.Length ==>
      out[p] == if Start(cs, idx) <= readOffset + p < Start(cs, idx) + |chunk|
                then chunk[readOffset + p - Start(cs, idx)] else old(out[p])
  {
    var chunkStart := Start(cs, idx);
    var from := Max(readOffset, chunkStart);
    var to := Min(readOffset + out.Length, chunkStart + |chunk|);
    if from >= to {
      return;
    }
    var i := from;
    while i < to
      invariant from <= i <= to
      invariant forall p :: 0 <= p < out.Length ==>
        out[p] == if from <= readOffset + p < i then chunk[readOffset + p - chunkStart] else old(out[p])
    {
      out[i - readOffset] := chunk[i - chunkStart];
      i := i + 1;
    }
  }

  /** `chunk_of` with its cast to u32. */
  function ChunkOf(offset: nat, cs: nat): nat
    requires cs > 0
  {
    (offset / cs) % INDEX_LIMIT
  }

  /** Below `2^32` chunks the cast loses nothing: chunk `ChunkOf(i)` is the one that holds byte `i`. */
  lemma ChunkOfHolds(i: nat, cs: nat)
    requires cs > 0 && i < cs * INDEX_LIMIT
    ensures Start(cs, ChunkOf(i, cs)) <= i < Start(cs, ChunkOf(i, cs)) + cs
  {
    ChunkHolds(cs, i);
    QuotientBelow(i, cs, INDEX_LIMIT);
  }

  /** The cast never raises an index. */
  lemma ChunkOfBelow(i: nat, cs: nat)
    requires cs > 0
    ensures ChunkOf(i, cs) <= i / cs && Start(cs, ChunkOf(i, cs)) <= i
  {
    ChunkHolds(cs, i);
    if ChunkOf(i, cs) < i / cs { StartMonotone(cs, ChunkOf(i, cs), i / cs); }
  }

  lemma QuotientBelow(i: nat, cs: nat, n: nat)
    requires cs > 0 && i < cs * n
    ensures i / cs < n
  {
    var q := i / cs;
    assert i == cs * q + i % cs;
    assert q >= n ==> cs * q >= cs * n;
  }

  lemma HeldByte(cs: nat, m: ChunkMap, i: nat, k: nat)
    requires cs > 0 && Start(cs, k) <= i < Start(cs, k) + cs
    ensures ByteAt(cs, m, i) == At(Content(m, k), i - Start(cs, k))
  {
    ChunkUnique(cs, i, k);
    ChunkHolds(cs, i);
  }

  /** Copies every chunk that touches the window into `out`, which starts as zeroes. */
  method CopyChunks(out: array<byte>, cs: nat, m: ChunkMap, offset: nat)
    requires cs > 0 && Sized(cs, m) && 0 < out.Length && offset + out.Length <= cs * INDEX_LIMIT
    requires forall p :: 0 <= p < out.Length ==> out[p] == 0
    modifies out
    ensures forall p :: 0 <= p < out.Length ==> out[p] == ByteAt(cs, m, offset + p)
  {
    var first := ChunkOf(offset, cs);
    var last := ChunkOf(offset + out.Length - 1, cs);
    ChunkOfHolds(offset, cs);
    ChunkOfHolds(offset + out.Length - 1, cs);
    var idx := first;
    while idx <= last
      invariant first <= idx
      invariant forall p :: 0 <= p < out.Length ==>
        out[p] == if offset + p < Start(cs, idx) then ByteAt(cs, m, offset + p) else 0
    {
      ghost var before := out[..];
      if idx in m {
        CopyFromChunk(out, offset, idx, m[idx], cs);
      }
      forall p | 0 <= p < out.Length
        ensures out[p] == if offset + p < Start(cs, idx + 1) then ByteAt(cs, m, offset + p) else 0
      {
        assert before[p] == if offset + p < Start(cs, idx) then ByteAt(cs, m, offset + p) else 0;
        if Start(cs, idx) <= offset + p < Start(cs, idx + 1) {
          HeldByte(cs, m, offset + p, idx);
        }
      }
      idx := idx + 1;
    }
    StartMonotone(cs, last, idx);
  }

  /** Read `[offset, offset+len)` clamped to `size`. */
  method ReadRange(cs: nat, m: ChunkMap, size: nat, offset: nat, len: nat) returns (r: seq<byte>)
    requires cs > 0 && Sized(cs, m) && size <= cs * INDEX_LIMIT
    ensures r == if offset >= size then [] else Flat(size, cs, m)[offset..Min(size, offset + len)]
  {
    if offset >= size || len == 0 {
      return [];
    }
    var end := Min(size, offset + len);
    var out := new byte[end - offset](_ => 0);
    CopyChunks(out, cs, m, offset);
    return out[..];
  }

  // ----- writing -----

  /** Chunk `k` after writing `data` at `offset` over the old bytes: the written bytes, the old bytes
      elsewhere, and a length that covers both. */
  ghost predicate WrittenChunk(cs: nat, k: nat, old_: seq<byte>, offset: nat, data: seq<byte>, new_: seq<byte>) {
    && |new_| == Max(|old_|, Min(offset + |data|, Start(cs, k) + cs) - Start(cs, k))
    && forall j: nat :: j < cs ==>
         At(new_, j) == if offset <= Start(cs, k) + j < offset + |data| then data[Start(cs, k) + j - offset]
                        else At(old_, j)
  }

  /** Chunks a write or a zeroing of `[offset, end)` touches. */
  predicate Touches(cs: nat, k: nat, offset: nat, end: nat) {
    Start(cs, k) < end && offset < Start(cs, k) + cs
  }

  /** The chunks below end of file; what remains is leftovers of an interrupted truncate. */
  ghost function Live(size: nat, cs: nat, m: ChunkMap): ChunkMap {
    map k | k in m && Start(cs, k) < size :: m[k]
  }

  lemma TouchedRange(cs: nat, offset: nat, end: nat, first: nat, last: nat, k: nat)
    requires offset < end
    requires Start(cs, first) <= offset < Start(cs, first) + cs
    requires Start(cs, last) <= end - 1 < Start(cs, last) + cs
    ensures Touches(cs, k, offset, end) <==> first <= k <= last
  {
    if k < first { StartMonotone(cs, k, first); }
    if first < k { StartMonotone(cs, first, k); }
    if k < last { StartMonotone(cs, k, last); }
    if last < k { StartMonotone(cs, last, k); }
  }

  /** First and last chunk that `[offset, end)` touches; they touch everything between. */
  method ChunkSpan(cs: nat, offset: nat, end: nat) returns (first: nat, last: nat)
    requires cs > 0 && offset < end <= cs * INDEX_LIMIT
    ensures first <= last
    ensures forall k: nat :: Touches(cs, k, offset, end) <==> first <= k <= last
  {
    first := ChunkOf(offset, cs);
    last := ChunkOf(end - 1, cs);
    ChunkOfHolds(offset, cs);
    ChunkOfHolds(end - 1, cs);
    forall k: nat ensures Touches(cs, k, offset, end) <==> first <= k <= last {
      TouchedRange(cs, offset, end, first, last, k);
    }
    assert Touches(cs, first, offset, end);
  }

  /** Growing the file bills the live chunks no differently. */
  lemma LiveTotal(oldSize: nat, newSize: nat, cs: nat, m: ChunkMap)
    requires cs > 0 && oldSize <= newSize && Tidy(oldSize, cs, m)
    ensures Total(newSize, cs, Live(oldSize, cs, m)) == Total(oldSize, cs, m)
  {
    TotalAgree(newSize, Live(oldSize, cs, m), oldSize, m, cs);
  }

  lemma PutTotal(oldSize: nat, newSize: nat, cs: nat, m: ChunkMap, puts: ChunkMap, k: nat, buf: seq<byte>)
    requires cs > 0 && oldSize <= newSize && Tidy(oldSize, cs, m) && k !in puts
    ensures Total(newSize, cs, Live(oldSize, cs, m) + puts[k := buf])
         == Total(newSize, cs, Live(oldSize, cs, m) + puts) + Billed(newSize, Start(cs, k), |buf|)
            - (if Start(cs, k) < oldSize && k in m then Billed(oldSize, Start(cs, k), |m[k]|) else 0)
  {
    var live := Live(oldSize, cs, m);
    TotalChange(newSize, cs, live + puts, live + puts[k := buf], k);
  }

  /** The new bytes of one chunk. */
  method WriteChunk(cs: nat, k: nat, old_: seq<byte>, offset: nat, data: seq<byte>) returns (buf: seq<byte>)
    requires |old_| <= cs && Touches(cs, k, offset, offset + |data|)
    ensures WrittenChunk(cs, k, old_, offset, data, buf) && |buf| <= cs
  {
    var chunkStart := Start(cs, k);
    var writeFrom := Max(offset, chunkStart);
    var writeTo := Min(offset + |data|, chunkStart + cs);
    buf := Splice(old_, writeFrom - chunkStart, data, writeFrom - offset, writeTo - offset);
  }

  /** `data[lo..hi]` copied into `buf` at `from`, which is first filled with zeroes if it is too short. */
  function Splice(buf: seq<byte>, from: nat, data: seq<byte>, lo: nat, hi: nat): (r: seq<byte>)
    requires lo <= hi <= |data|
    ensures |r| == Max(|buf|, from + hi - lo)
    ensures forall j: nat :: At(r, j) == if from <= j < from + hi - lo then data[j - from + lo] else At(buf, j)
  {
    seq(Max(|buf|, from + hi - lo), j requires 0 <= j =>
      if from <= j < from + hi - lo then data[j - from + lo] else At(buf, j))
  }

  /** What `WrittenChunk` describes, as a value. */
  ghost function WrittenBytes(cs: nat, k: nat, old_: seq<byte>, offset: nat, data: seq<byte>): seq<byte> {
    seq(Max(|old_|, Min(offset + |data|, Start(cs, k) + cs) - Start(cs, k)), (j: int) requires j >= 0 =>
      if offset <= Start(cs, k) + j < offset + |data| then data[Start(cs, k) + j - offset] else At(old_, j))
  }

  lemma WrittenUnique(cs: nat, k: nat, old_: seq<byte>, offset: nat, data: seq<byte>, new_: seq<byte>)
    requires WrittenChunk(cs, k, old_, offset, data, new_) && |new_| <= cs
    ensures new_ == WrittenBytes(cs, k, old_, offset, data)
  {
    forall j | 0 <= j < |new_| ensures new_[j] == WrittenBytes(cs, k, old_, offset, data)[j] {
      assert new_[j] == At(new_, j);
    }
  }

  /** The chunks that a write puts, each its live content with the data laid over it. */
  ghost function PutsOf(cs: nat, m: ChunkMap, size: nat, offset: nat, data: seq<byte>): ChunkMap {
    map k | 0 <= k < offset + |data| && Touches(cs, k, offset, offset + |data|) ::
      WrittenBytes(cs, k, Content(Live(size, cs, m), k), offset, data)
  }

  lemma PutsUnique(cs: nat, m: ChunkMap, size: nat, offset: nat, data: seq<byte>, puts: ChunkMap)
    requires cs > 0 && forall k: nat :: k in puts <==> Touches(cs, k, offset, offset + |data|)
    requires forall k :: k in puts ==>
      |puts[k]| <= cs && WrittenChunk(cs, k, Content(Live(size, cs, m), k), offset, data, puts[k])
    ensures puts == PutsOf(cs, m, size, offset, data)
  {
    forall k: nat ensures k in puts <==> k in PutsOf(cs, m, size, offset, data) { StartAtLeast(cs, k); }
    forall k | k in puts ensures puts[k] == PutsOf(cs, m, size, offset, data)[k] {
      WrittenUnique(cs, k, Content(Live(size, cs, m), k), offset, data, puts[k]);
    }
  }

  /** Plan writing `data` at `offset`: the chunks to put and the change in billed bytes. */
  method PlanWrite(cs: nat, m: ChunkMap, oldSize: nat, offset: nat, data: seq<byte>)
    returns (puts: ChunkMap, newSize: nat, delta: int)
    requires cs > 0 && data != [] && offset + |data| <= cs * INDEX_LIMIT
    requires Tidy(oldSize, cs, m)
    ensures newSize == Max(oldSize, offset + |data|)
    ensures forall k: nat :: k in puts <==> Touches(cs, k, offset, offset + |data|)
    ensures forall k :: k in puts ==>
      |puts[k]| <= cs && WrittenChunk(cs, k, Content(Live(oldSize, cs, m), k), offset, data, puts[k])
    ensures delta == Total(newSize, cs, Live(oldSize, cs, m) + puts) - Total(oldSize, cs, m)
  {
    var end := offset + |data|;
    newSize := Max(oldSize, end);
    var first, last := ChunkSpan(cs, offset, end);
    ghost var live := Live(oldSize, cs, m);
    LiveTotal(oldSize, newSize, cs, m);

    puts := map[];
    delta := 0;
    var idx := first;
    assert live + puts == live;
    while idx <= last
      invariant first <= idx <= last + 1
      invariant forall k: nat :: k in puts <==> first <= k < idx
      invariant forall k :: k in puts ==>
        |puts[k]| <= cs && WrittenChunk(cs, k, Content(live, k), offset, data, puts[k])
      invariant delta == Total(newSize, cs, live + puts) - Total(oldSize, cs, m)
    {
      assert Touches(cs, idx, offset, end);
      var chunkStart := Start(cs, idx);
      // Chunks at or above the old size are not read.
      var oldChunk := if chunkStart < oldSize && idx in m then Some(m[idx]) else None;
      var old_ := if oldChunk.Some? then oldChunk.value else [];
      var buf := WriteChunk(cs, idx, old_, offset, data);

      var oldBilled := if oldChunk.Some? then Billed(oldSize, chunkStart, |old_|) else 0;
      var newBilled := Billed(newSize, chunkStart, |buf|);
      delta := delta + newBilled - oldBilled;
      PutTotal(oldSize, newSize, cs, m, puts, idx, buf);
      puts := puts[idx := buf];
      idx := idx + 1;
    }
  }

  // ----- scanning -----

  /** Smallest key of `keys` that is at least `from`: one step of an ordered database scan. */
  ghost predicate IsNext(keys: set<nat>, from: nat, k: Option<nat>) {
    match k
    case None => forall j :: j in keys ==> j < from
    case Some(n) => n in keys && from <= n && forall j :: j in keys && from <= j ==> n <= j
  }

  method ScanNext(keys: set<nat>, from: nat) returns (k: Option<nat>)
    ensures IsNext(keys, from, k)
  {
    k := None;
    var rest := keys;
    while rest != {}
      invariant rest <= keys
      invariant k.None? ==> forall j :: j in keys && j !in rest ==> j < from
      invariant k.Some? ==> k.value in keys && from <= k.value
      invariant k.Some? ==> forall j :: j in keys && j !in rest && from <= j ==> k.value <= j
      decreases rest
    {
      var j :| j in rest;
      rest := rest - {j};
      if from <= j && (k.None? || j < k.value) {
        k := Some(j);
      }
    }
  }

  // ----- truncating -----

  /** Every chunk cut at end of file; chunks past it are still there. */
  ghost function Truncated(size: nat, cs: nat, m: ChunkMap): ChunkMap {
    map k | k in m :: if Start(cs, k) < size < Start(cs, k) + |m[k]| then m[k][..size - Start(cs, k)] else m[k]
  }

  datatype TruncatePlan = TruncatePlan(tailPut: Option<(nat, seq<byte>)>, deletes: seq<nat>, billedDelta: int)

  ghost function ApplyTail(m: ChunkMap, plan: TruncatePlan): ChunkMap {
    if plan.tailPut.None? then m else m[plan.tailPut.value.0 := plan.tailPut.value.1]
  }

  lemma {:induction false} SumGap(size: nat, cs: nat, m: ChunkMap, a: nat, b: nat)
    requires a <= b && forall k :: a <= k < b ==> k !in m
    ensures SumBelow(size, cs, m, a) == SumBelow(size, cs, m, b)
    decreases b
  {
    if a < b { SumGap(size, cs, m, a, b - 1); }
  }

  /** Chunks wholly below the new end are billed alike before and after. */
  lemma {:induction false} SumHead(oldSize: nat, newSize: nat, cs: nat, m: ChunkMap, n: nat)
    requires Sized(cs, m) && Start(cs, n) <= newSize <= oldSize
    ensures SumBelow(oldSize, cs, m, n) == SumBelow(newSize, cs, Truncated(newSize, cs, m), n)
  {
    if n > 0 { SumHead(oldSize, newSize, cs, m, n - 1); }
  }

  /** Change in billed bytes of the first `n` chunks. */
  ghost function Gain(oldSize: nat, newSize: nat, cs: nat, m: ChunkMap, n: nat): int {
    SumBelow(newSize, cs, Truncated(newSize, cs, m), n) - SumBelow(oldSize, cs, m, n)
  }

  lemma GainVisit(oldSize: nat, newSize: nat, cs: nat, m: ChunkMap, pos: nat, k: nat)
    requires pos <= k && k in m && forall j :: pos <= j < k ==> j !in m
    ensures Gain(oldSize, newSize, cs, m, k + 1)
         == Gain(oldSize, newSize, cs, m, pos)
            + Billed(newSize, Start(cs, k), |m[k]|) - Billed(oldSize, Start(cs, k), |m[k]|)
  {
    SumGap(oldSize, cs, m, pos, k);
    SumGap(newSize, cs, Truncated(newSize, cs, m), pos, k);
  }

  lemma SumDone(size: nat, cs: nat, m: ChunkMap, pos: nat)
    requires cs > 0 && forall k :: k in m ==> k < pos
    ensures SumBelow(size, cs, m, pos) == Total(size, cs, m)
  {
    var n := size + pos;
    SumGap(size, cs, m, pos, n);
    SumFrom(size, cs, m, n);
  }

  lemma GainDone(oldSize: nat, newSize: nat, cs: nat, m: ChunkMap, pos: nat)
    requires cs > 0 && forall k :: k in m ==> k < pos
    ensures Gain(oldSize, newSize, cs, m, pos) == Total(newSize, cs, Truncated(newSize, cs, m)) - Total(oldSize, cs, m)
  {
    SumDone(oldSize, cs, m, pos);
    SumDone(newSize, cs, Truncated(newSize, cs, m), pos);
  }

  /** What happens to one scanned chunk: dropped, cut, or kept, and by how much its bill changes. */
  method CutChunk(oldSize: nat, newSize: nat, chunkStart: nat, value: seq<byte>)
    returns (tail: Option<seq<byte>>, drop: bool, change: int)
    requires newSize < oldSize
    ensures drop <==> newSize <= chunkStart
    ensures tail == if chunkStart < newSize < chunkStart + |value| then Some(value[..newSize - chunkStart]) else None
    ensures change == Billed(newSize, chunkStart, |value|) - Billed(oldSize, chunkStart, |value|)
  {
    tail, drop := None, false;
    var oldBilled := Billed(oldSize, chunkStart, |value|);
    var newBilled;
    if chunkStart >= newSize {
      drop := true;
      newBilled := 0;
    } else {
      var keep := newSize - chunkStart;
      if |value| > keep {
        tail := Some(value[..keep]);
        newBilled := keep;
      } else {
        newBilled := |value|;
      }
    }
    change := newBilled - oldBilled;
  }

  ghost predicate Ascending(s: seq<nat>, bound: nat) {
    && (forall i :: 0 <= i < |s| ==> s[i] < bound)
    && (forall i, j :: 0 <= i < j < |s| ==> s[i] < s[j])
  }

  /** Index from which chunks start at or past the new end. */
  function Doomed(cs: nat, newSize: nat, first: nat): nat {
    if newSize <= Start(cs, first) then first else first + 1
  }

  lemma DoomedFrom(cs: nat, newSize: nat, first: nat, k: nat)
    requires Start(cs, first) <= newSize < Start(cs, first) + cs
    ensures newSize <= Start(cs, k) <==> Doomed(cs, newSize, first) <= k
    ensures k < first ==> Start(cs, k) + cs <= newSize
  {
    if k < first { StartMonotone(cs, k, first); }
    if first < k { StartMonotone(cs, first, k); }
  }

  /** Only the chunk that straddles the new end is cut. */
  lemma OnlyTailCut(cs: nat, m: ChunkMap, newSize: nat, first: nat)
    requires Sized(cs, m) && Start(cs, first) <= newSize < Start(cs, first) + cs
    ensures Truncated(newSize, cs, m)
         == if first in m && Start(cs, first) < newSize < Start(cs, first) + |m[first]|
            then m[first := m[first][..newSize - Start(cs, first)]] else m
  {
    forall k | k in m ensures k != first ==> Truncated(newSize, cs, m)[k] == m[k] {
      DoomedFrom(cs, newSize, first, k);
    }
  }

  /** Plan a truncate: the cut tail chunk, the chunks to delete in ascending order, and the change in
      billed bytes. Growing plans nothing. */
  method PlanTruncate(cs: nat, m: ChunkMap, oldSize: nat, newSize: nat) returns (plan: TruncatePlan)
    requires cs > 0 && Sized(cs, m)
    ensures newSize >= oldSize ==> plan == TruncatePlan(None, [], 0)
    ensures newSize < oldSize ==> ApplyTail(m, plan) == Truncated(newSize, cs, m)
    ensures newSize < oldSize ==> forall k :: k in plan.deletes <==> k in m && newSize <= Start(cs, k)
    ensures exists bound :: Ascending(plan.deletes, bound)
    ensures newSize < oldSize ==>
      plan.billedDelta == Total(newSize, cs, Truncated(newSize, cs, m)) - Total(oldSize, cs, m)
  {
    if newSize >= oldSize {
      assert Ascending([], 0);
      return TruncatePlan(None, [], 0);
    }
    var first := ChunkOf(newSize, cs);
    ghost var at := newSize / cs;
    ChunkHolds(cs, newSize);
    ChunkOfBelow(newSize, cs);
    plan := ScanTruncate(cs, m, oldSize, newSize, first, at);
    OnlyTailCut(cs, m, newSize, at);
    forall k: nat ensures newSize <= Start(cs, k) <==> Doomed(cs, newSize, at) <= k {
      DoomedFrom(cs, newSize, at, k);
    }
  }

  /** What is kept of the chunk that the new end falls into. */
  function TailPut(cs: nat, m: ChunkMap, newSize: nat, first: nat): Option<(nat, seq<byte>)> {
    if first in m && Start(cs, first) < newSize < Start(cs, first) + |m[first]|
    then Some((first, m[first][..newSize - Start(cs, first)])) else None
  }

  /** The chunks from `doomed` up to `pos`, in order. */
  ghost predicate Deleting(m: ChunkMap, doomed: nat, pos: nat, deletes: seq<nat>) {
    true == (Ascending(deletes, pos) && forall k: nat :: k in deletes <==> k in m && doomed <= k < pos)
  }

  lemma DeletingStep(m: ChunkMap, doomed: nat, pos: nat, idx: nat, deletes: seq<nat>)
    requires Deleting(m, doomed, pos, deletes) && IsNext(m.Keys, pos, Some(idx))
    ensures Deleting(m, doomed, idx + 1, if doomed <= idx then deletes + [idx] else deletes)
  {
  }

  /** The tail is settled when the first chunk has been passed. */
  lemma TailStep(cs: nat, m: ChunkMap, newSize: nat, at: nat, pos: nat, idx: nat)
    requires Start(cs, at) <= newSize < Start(cs, at) + cs && IsNext(m.Keys, pos, Some(idx))
    ensures idx < at ==> Start(cs, idx) + cs <= newSize
    ensures at < idx ==> newSize <= Start(cs, idx) && (at < pos || TailPut(cs, m, newSize, at) == None)
  {
    DoomedFrom(cs, newSize, at, idx);
  }

  /** The plan so far, when every chunk below `pos` has been scanned; `at` is where the new end falls. */
  ghost predicate Scanned(cs: nat, m: ChunkMap, oldSize: nat, newSize: nat, at: nat, pos: nat,
                          tailPut: Option<(nat, seq<byte>)>, deletes: seq<nat>, delta: int) {
    && Deleting(m, Doomed(cs, newSize, at), pos, deletes)
    && tailPut == (if at < pos then TailPut(cs, m, newSize, at) else None)
    && delta == Gain(oldSize, newSize, cs, m, pos)
  }

  /** Scans the next chunk. */
  method ScanChunk(cs: nat, m: ChunkMap, oldSize: nat, newSize: nat, ghost at: nat, ghost pos: nat, idx: nat,
                   tailPut: Option<(nat, seq<byte>)>, deletes: seq<nat>, delta: int)
    returns (tailPut': Option<(nat, seq<byte>)>, deletes': seq<nat>, delta': int)
    requires Sized(cs, m) && newSize < oldSize && Start(cs, at) <= newSize < Start(cs, at) + cs
    requires IsNext(m.Keys, pos, Some(idx)) && Scanned(cs, m, oldSize, newSize, at, pos, tailPut, deletes, delta)
    ensures Scanned(cs, m, oldSize, newSize, at, idx + 1, tailPut', deletes', delta')
  {
    tailPut', deletes' := tailPut, deletes;
    var tail, drop, change := CutChunk(oldSize, newSize, Start(cs, idx), m[idx]);
    assert drop <==> Doomed(cs, newSize, at) <= idx by { DoomedFrom(cs, newSize, at, idx); }
    TailStep(cs, m, newSize, at, pos, idx);
    DeletingStep(m, Doomed(cs, newSize, at), pos, idx, deletes);
    if drop {
      deletes' := deletes + [idx];
    } else if tail.Some? {
      tailPut' := Some((idx, tail.value));
    }
    delta' := delta + change;
    GainVisit(oldSize, newSize, cs, m, pos, idx);
  }

  /** The scan from the first affected chunk on. That index is cut to 32 bits, so the scan may start lower and
      meet chunks that the truncate leaves alone. */
  method ScanTruncate(cs: nat, m: ChunkMap, oldSize: nat, newSize: nat, first: nat, ghost at: nat)
    returns (plan: TruncatePlan)
    requires cs > 0 && Sized(cs, m) && newSize < oldSize && Start(cs, at) <= newSize < Start(cs, at) + cs
    requires first <= at && Start(cs, first) <= newSize
    ensures plan.tailPut == TailPut(cs, m, newSize, at)
    ensures forall k: nat :: k in plan.deletes <==> k in m && Doomed(cs, newSize, at) <= k
    ensures exists bound :: Ascending(plan.deletes, bound)
    ensures plan.billedDelta == Total(newSize, cs, Truncated(newSize, cs, m)) - Total(oldSize, cs, m)
  {
    var deletes: seq<nat>, tailPut, delta := [], None, 0;
    SumHead(oldSize, newSize, cs, m, first);
    var pos := first;
    var next := ScanNext(m.Keys, pos);
    while next.Some?
      invariant first <= pos && IsNext(m.Keys, pos, next)
      invariant Scanned(cs, m, oldSize, newSize, at, pos, tailPut, deletes, delta)
      decreases if next.None? then {} else set k | k in m && pos <= k
    {
      tailPut, deletes, delta := ScanChunk(cs, m, oldSize, newSize, at, pos, next.value, tailPut, deletes, delta);
      pos := next.value + 1;
      next := ScanNext(m.Keys, pos);
    }
    GainDone(oldSize, newSize, cs, m, pos);
    plan := TruncatePlan(tailPut, deletes, delta);
  }
}
