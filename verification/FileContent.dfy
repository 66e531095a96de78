/** Truncating and writing one file (crates/slatefs-core/src/vfs_impl.rs, `setattr` and `write`): the size,
    the bill and the tail chunk change in one atomic batch, the long tail of chunk deletes follows in
    later batches, and a crash can stop the operation after any of them. */
module FileContent {
  import opened Common
  import opened Chunks
  import opened Data

  /** Leftover chunks that growing from `size` to `newSize` would bring back into the file. */
  predicate Exposed(size: nat, newSize: nat, cs: nat, m: ChunkMap, k: nat) {
    k in m && m[k] != [] && size <= Start(cs, k) < newSize
  }

  lemma {:induction false} SumGrow(size: nat, newSize: nat, cs: nat, m: ChunkMap, n: nat)
    requires size <= newSize && Tidy(size, cs, m)
    ensures SumBelow(size, cs, m, n) <= SumBelow(newSize, cs, m, n)
    ensures SumBelow(size, cs, m, n) == SumBelow(newSize, cs, m, n)
            <==> forall k: nat :: k < n ==> !Exposed(size, newSize, cs, m, k)
  {
    if n > 0 {
      SumGrow(size, newSize, cs, m, n - 1);
      assert Cost(size, cs, m, n - 1) < Cost(newSize, cs, m, n - 1) <==> Exposed(size, newSize, cs, m, n - 1);
    }
  }

  /** Growing bills nothing exactly when no leftover chunk lies between the old end and the new one. */
  lemma GrowExactIff(size: nat, newSize: nat, cs: nat, m: ChunkMap)
    requires cs > 0 && size <= newSize && Tidy(size, cs, m)
    ensures Total(newSize, cs, m) == Total(size, cs, m) <==> forall k: nat :: !Exposed(size, newSize, cs, m, k)
  {
    SumGrow(size, newSize, cs, m, newSize);
    SumFrom(size, cs, m, newSize);
    forall k: nat | Exposed(size, newSize, cs, m, k) ensures k < newSize { StartAtLeast(cs, k); }
  }

  /** After the first batch of a truncate and any subset `gone` of the later deletes: the bill is the
      planned one, chunks are tidy again and every byte below the new end is the old one. */
  lemma TruncateCrashPoint(oldSize: nat, newSize: nat, cs: nat, m: ChunkMap, gone: set<nat>)
    requires cs > 0 && newSize <= oldSize && Sized(cs, m)
    requires forall k :: k in gone ==> newSize <= Start(cs, k)
    ensures Total(newSize, cs, Truncated(newSize, cs, m) - gone) == Total(newSize, cs, Truncated(newSize, cs, m))
    ensures Tidy(newSize, cs, Truncated(newSize, cs, m) - gone)
    ensures Flat(newSize, cs, Truncated(newSize, cs, m) - gone) == Flat(oldSize, cs, m)[..newSize]
  {
    var cut := Truncated(newSize, cs, m);
    TotalAgree(newSize, cut - gone, newSize, cut, cs);
    forall i: nat | i < newSize ensures ByteAt(cs, cut - gone, i) == ByteAt(cs, m, i) {
      ChunkHolds(cs, i);
    }
  }

  /** Growth reads as the old bytes followed by zeroes if and only if every leftover it brings back is zero as
      far as the new end. */
  lemma GrowReadsZeroIff(size: nat, newSize: nat, cs: nat, m: ChunkMap)
    requires cs > 0 && size <= newSize && Tidy(size, cs, m)
    ensures Flat(newSize, cs, m) == Flat(size, cs, m) + Zeroes(newSize - size)
       <==> forall k: nat, j: nat :: Exposed(size, newSize, cs, m, k) && j < |m[k]| && Start(cs, k) + j < newSize ==>
              m[k][j] == 0
  {
    if forall k: nat, j: nat :: Exposed(size, newSize, cs, m, k) && j < |m[k]| && Start(cs, k) + j < newSize ==>
         m[k][j] == 0
    {
      forall i: nat | i < newSize
        ensures Flat(newSize, cs, m)[i] == (Flat(size, cs, m) + Zeroes(newSize - size))[i]
      {
        if size <= i { GrownByte(size, newSize, cs, m, i); }
      }
    } else {
      var k: nat, j: nat :| Exposed(size, newSize, cs, m, k) && j < |m[k]| && Start(cs, k) + j < newSize && m[k][j] != 0;
      HeldByte(cs, m, Start(cs, k) + j, k);
      assert Flat(newSize, cs, m)[Start(cs, k) + j] != (Flat(size, cs, m) + Zeroes(newSize - size))[Start(cs, k) + j];
    }
  }

  /** A byte past the old end is zero or in a leftover. */
  lemma GrownByte(size: nat, newSize: nat, cs: nat, m: ChunkMap, i: nat)
    requires cs > 0 && size <= i < newSize && Tidy(size, cs, m)
    ensures ByteAt(cs, m, i) != 0 ==> exists k: nat, j: nat ::
      Exposed(size, newSize, cs, m, k) && j < |m[k]| && Start(cs, k) + j == i && m[k][j] == ByteAt(cs, m, i)
  {
    ChunkHolds(cs, i);
    var k, j := i / cs, i % cs;
    if ByteAt(cs, m, i) != 0 { assert Exposed(size, newSize, cs, m, k) && j < |m[k]|; }
  }

  /** With no leftovers, growth reads as zeroes. */
  lemma GrowReadsZero(size: nat, newSize: nat, cs: nat, m: ChunkMap)
    requires cs > 0 && size <= newSize && Tidy(size, cs, m)
    requires forall k: nat :: !Exposed(size, newSize, cs, m, k)
    ensures Flat(newSize, cs, m) == Flat(size, cs, m) + Zeroes(newSize - size)
  {
    GrowReadsZeroIff(size, newSize, cs, m);
  }

  /** Leftover chunks that a write growing the file would bring back: those it does not overwrite. */
  ghost predicate Uncovered(oldSize: nat, newSize: nat, cs: nat, m: ChunkMap, puts: ChunkMap, k: nat) {
    k !in puts && Exposed(oldSize, newSize, cs, m, k)
  }

  lemma {:induction false} SumWrite(oldSize: nat, newSize: nat, cs: nat, m: ChunkMap, puts: ChunkMap, n: nat)
    requires oldSize <= newSize && Tidy(oldSize, cs, m)
    ensures SumBelow(newSize, cs, Live(oldSize, cs, m) + puts, n) <= SumBelow(newSize, cs, m + puts, n)
    ensures SumBelow(newSize, cs, Live(oldSize, cs, m) + puts, n) == SumBelow(newSize, cs, m + puts, n)
            <==> forall k: nat :: k < n ==> !Uncovered(oldSize, newSize, cs, m, puts, k)
  {
    if n > 0 {
      SumWrite(oldSize, newSize, cs, m, puts, n - 1);
      assert Cost(newSize, cs, Live(oldSize, cs, m) + puts, n - 1) < Cost(newSize, cs, m + puts, n - 1)
             <==> Uncovered(oldSize, newSize, cs, m, puts, n - 1);
    }
  }

  lemma WriteExactIff(oldSize: nat, newSize: nat, cs: nat, m: ChunkMap, puts: ChunkMap)
    requires cs > 0 && oldSize <= newSize && Tidy(oldSize, cs, m)
    ensures Total(newSize, cs, m + puts) == Total(newSize, cs, Live(oldSize, cs, m) + puts)
            <==> forall k: nat :: !Uncovered(oldSize, newSize, cs, m, puts, k)
  {
    SumWrite(oldSize, newSize, cs, m, puts, newSize);
    forall k: nat | Uncovered(oldSize, newSize, cs, m, puts, k) ensures k < newSize { StartAtLeast(cs, k); }
  }

  /** Without such leftovers the write overlays its data on the old bytes, zero-filled up to the new end. */
  lemma WriteReads(oldSize: nat, newSize: nat, cs: nat, m: ChunkMap, puts: ChunkMap, offset: nat, data: seq<byte>)
    requires cs > 0 && data != [] && newSize == Max(oldSize, offset + |data|) && Tidy(oldSize, cs, m)
    requires forall k: nat :: k in puts <==> Touches(cs, k, offset, offset + |data|)
    requires forall k :: k in puts ==>
      WrittenChunk(cs, k, Content(Live(oldSize, cs, m), k), offset, data, puts[k])
    requires forall k: nat :: !Uncovered(oldSize, newSize, cs, m, puts, k)
    ensures Flat(newSize, cs, m + puts)
         == Overlay(Flat(oldSize, cs, m) + Zeroes(newSize - oldSize), offset, data)
  {
    var live := Live(oldSize, cs, m);
    forall k: nat, j: nat | j < cs
      ensures At(Content(live + puts, k), j)
           == if offset <= Start(cs, k) + j < offset + |data| then data[Start(cs, k) + j - offset]
              else At(Content(live, k), j)
    {
      if k in puts { assert (live + puts)[k] == puts[k]; }
    }
    FlatOverlay(newSize, cs, live, live + puts, offset, data);
    GrowReadsZero(oldSize, newSize, cs, live);
    FlatLive(oldSize, newSize, cs, m, puts);
  }

  lemma FlatLive(oldSize: nat, newSize: nat, cs: nat, m: ChunkMap, puts: ChunkMap)
    requires cs > 0 && oldSize <= newSize && Tidy(oldSize, cs, m)
    requires forall k: nat :: !Uncovered(oldSize, newSize, cs, m, puts, k)
    ensures Flat(oldSize, cs, Live(oldSize, cs, m)) == Flat(oldSize, cs, m)
    ensures Flat(newSize, cs, Live(oldSize, cs, m) + puts) == Flat(newSize, cs, m + puts)
  {
    var live := Live(oldSize, cs, m);
    forall i: nat | i < newSize
      ensures ByteAt(cs, live + puts, i) == ByteAt(cs, m + puts, i)
      ensures i < oldSize ==> ByteAt(cs, live, i) == ByteAt(cs, m, i)
    {
      ChunkHolds(cs, i);
      assert !Uncovered(oldSize, newSize, cs, m, puts, i / cs);
    }
  }

  // ----- one file: its size, its bill and its chunks -----

  const INLINE_DELETES: nat := 1024

  /** `billed` is the inode's billed_bytes; the volume's counter moves by the same deltas. */
  datatype File = File(size: nat, billed: int, chunks: ChunkMap)

  ghost predicate Exact(cs: nat, f: File) { f.billed == Total(f.size, cs, f.chunks) }

  /** A chunk that a truncate must delete has this many others to be deleted before it. */
  ghost function DoomedBelow(cs: nat, m: ChunkMap, newSize: nat, k: nat): set<nat> {
    set j | j in m && newSize <= Start(cs, j) && j < k
  }

  /** The chunks after a truncate whose first batch and `groups` of the batches after it were written: cut at the
      new end, and without the first so many of those past it. */
  ghost function CutTo(cs: nat, m: ChunkMap, newSize: nat, groups: nat): ChunkMap {
    map k | k in m && (Start(cs, k) < newSize || |DoomedBelow(cs, m, newSize, k)| >= INLINE_DELETES * (groups + 1)) ::
      Truncated(newSize, cs, m)[k]
  }

  ghost function Resized(cs: nat, f: File, newSize: nat, groups: nat): File {
    if newSize < f.size then
      File(newSize, f.billed + Total(newSize, cs, Truncated(newSize, cs, f.chunks)) - Total(f.size, cs, f.chunks),
           CutTo(cs, f.chunks, newSize, groups))
    else f.(size := newSize)
  }

  function SetOf(s: seq<nat>): set<nat> { set k | k in s }

  /** Deletes the listed chunks, the first of them in the first batch; `groups` later batches are written. */
  method DeleteInBatches(m: ChunkMap, deletes: seq<nat>, groups: nat) returns (m': ChunkMap, n: nat)
    ensures n == Min(|deletes|, INLINE_DELETES * (groups + 1))
    ensures m' == m - SetOf(deletes[..n])
  {
    var g := 0;
    n := Min(INLINE_DELETES, |deletes|);
    m' := m - SetOf(deletes[..n]);
    while n < |deletes| && g < groups
      invariant n == Min(|deletes|, INLINE_DELETES * (g + 1)) && g <= groups
      invariant m' == m - SetOf(deletes[..n])
    {
      var upTo := Min(|deletes|, n + INLINE_DELETES);
      assert deletes[..upTo] == deletes[..n] + deletes[n..upTo];
      m' := m' - SetOf(deletes[n..upTo]);
      n, g := upTo, g + 1;
    }
  }

  lemma {:induction false} AscendingSize(s: seq<nat>, bound: nat)
    requires Ascending(s, bound)
    ensures |SetOf(s)| == |s|
  {
    if s == [] {
      assert SetOf(s) == {};
    } else {
      var init, last := s[..|s| - 1], s[|s| - 1];
      AscendingSize(init, last);
      SetOfMore(init, last);
      assert s == init + [last] && last !in init;
    }
  }

  lemma SetOfMore(s: seq<nat>, x: nat)
    ensures SetOf(s + [x]) == SetOf(s) + {x}
  {
  }

  /** The place of a chunk in the list of deletes is the number of doomed chunks below it. */
  lemma DeletedBelow(cs: nat, m: ChunkMap, newSize: nat, deletes: seq<nat>, bound: nat, i: nat)
    requires Ascending(deletes, bound) && i < |deletes|
    requires forall k :: k in deletes <==> k in m && newSize <= Start(cs, k)
    ensures |DoomedBelow(cs, m, newSize, deletes[i])| == i
  {
    AscendingSize(deletes[..i], bound);
    forall j | j in deletes ensures j in deletes[..i] <==> j < deletes[i] {
      var p :| 0 <= p < |deletes| && deletes[p] == j;
    }
    assert DoomedBelow(cs, m, newSize, deletes[i]) == SetOf(deletes[..i]);
  }

  lemma CutIs(cs: nat, m: ChunkMap, newSize: nat, groups: nat, deletes: seq<nat>, n: nat)
    requires exists bound :: Ascending(deletes, bound)
    requires forall k :: k in deletes <==> k in m && newSize <= Start(cs, k)
    requires n == Min(|deletes|, INLINE_DELETES * (groups + 1))
    ensures Truncated(newSize, cs, m) - SetOf(deletes[..n]) == CutTo(cs, m, newSize, groups)
  {
    var bound :| Ascending(deletes, bound);
    forall k | k in m
      ensures k in deletes[..n] <==> newSize <= Start(cs, k) && |DoomedBelow(cs, m, newSize, k)| < INLINE_DELETES * (groups + 1)
    {
      if k in deletes {
        var i :| 0 <= i < |deletes| && deletes[i] == k;
        DeletedBelow(cs, m, newSize, deletes, bound, i);
        assert k in deletes[..n] <==> i < n by {
          if k in deletes[..n] { var p :| 0 <= p < n && deletes[p] == k; }
        }
      }
    }
  }

  /** setattr with a size: plans and applies a truncate, or just moves the end of file. `complete` says that no
      follow-up batch was missing. */
  method Resize(cs: nat, f: File, newSize: nat, groups: nat) returns (f': File, delta: int, complete: bool)
    requires cs > 0 && Sized(cs, f.chunks)
    ensures f' == Resized(cs, f, newSize, groups) && delta == f'.billed - f.billed
    ensures complete <==> newSize >= f.size || forall k :: k in f'.chunks ==> Start(cs, k) < newSize
  {
    var plan := PlanTruncate(cs, f.chunks, f.size, newSize);
    delta := plan.billedDelta;
    if newSize >= f.size {
      return f.(size := newSize), delta, true;
    }
    var chunks := f.chunks;
    if plan.tailPut.Some? {
      chunks := chunks[plan.tailPut.value.0 := plan.tailPut.value.1];
    }
    var n;
    chunks, n := DeleteInBatches(chunks, plan.deletes, groups);
    CutIs(cs, f.chunks, newSize, groups, plan.deletes, n);
    complete := n == |plan.deletes|;
    AllDeleted(cs, f.chunks, newSize, plan.deletes, n, chunks);
    f' := File(newSize, f.billed + delta, chunks);
  }

  lemma AllDeleted(cs: nat, m: ChunkMap, newSize: nat, deletes: seq<nat>, n: nat, m': ChunkMap)
    requires n <= |deletes| && (exists bound :: Ascending(deletes, bound))
    requires forall k :: k in deletes <==> k in m && newSize <= Start(cs, k)
    requires m' == Truncated(newSize, cs, m) - SetOf(deletes[..n])
    ensures n == |deletes| <==> forall k :: k in m' ==> Start(cs, k) < newSize
  {
    if n < |deletes| {
      var k := deletes[n];
      assert k in deletes && k !in deletes[..n];
      assert k in m' && Start(cs, k) >= newSize;
    } else {
      assert deletes[..n] == deletes;
    }
  }

  /** Wherever a truncate stops after its first batch, the bill is exact if it was, chunks are tidy and the file
      is the old one cut at its new end. */
  lemma ShrunkReads(cs: nat, f: File, newSize: nat, groups: nat)
    requires cs > 0 && Tidy(f.size, cs, f.chunks) && newSize < f.size
    ensures var f' := Resized(cs, f, newSize, groups);
      && Tidy(newSize, cs, f'.chunks) && (Exact(cs, f) ==> Exact(cs, f'))
      && Flat(newSize, cs, f'.chunks) == Flat(f.size, cs, f.chunks)[..newSize]
      && f'.billed <= f.billed
  {
    var gone := set k | k in f.chunks && k !in CutTo(cs, f.chunks, newSize, groups);
    TruncateCrashPoint(f.size, newSize, cs, f.chunks, gone);
    assert Truncated(newSize, cs, f.chunks) - gone == CutTo(cs, f.chunks, newSize, groups);
    ShrunkBill(f.size, newSize, cs, f.chunks);
  }

  lemma ShrunkBill(size: nat, newSize: nat, cs: nat, m: ChunkMap)
    requires cs > 0 && newSize < size
    ensures Total(newSize, cs, Truncated(newSize, cs, m)) <= Total(size, cs, m)
  {
    SumLess(newSize, Truncated(newSize, cs, m), size, m, cs, size);
    SumFrom(newSize, cs, Truncated(newSize, cs, m), size);
  }

  lemma {:induction false} SumLess(size: nat, m: ChunkMap, size': nat, m': ChunkMap, cs: nat, n: nat)
    requires forall k: nat :: Cost(size, cs, m, k) <= Cost(size', cs, m', k)
    ensures SumBelow(size, cs, m, n) <= SumBelow(size', cs, m', n)
  {
    if n > 0 { SumLess(size, m, size', m', cs, n - 1); }
  }

  // ----- what a change of size or a write brings back -----

  /** Some leftover comes back into the file and is not overwritten by `[lo, hi)`. */
  predicate Revives(cs: nat, f: File, newSize: nat, lo: nat, hi: nat) {
    exists k: nat :: k in f.chunks && Exposed(f.size, newSize, cs, f.chunks, k) && !Touches(cs, k, lo, hi)
  }

  /** Growth keeps the bill exact if and only if it revives nothing. */
  lemma GrownExactIff(cs: nat, f: File, newSize: nat)
    requires cs > 0 && Tidy(f.size, cs, f.chunks) && Exact(cs, f) && f.size <= newSize
    ensures Exact(cs, f.(size := newSize)) <==> !Revives(cs, f, newSize, 0, 0)
    ensures Exact(cs, f.(size := newSize)) ==> Tidy(newSize, cs, f.chunks)
  {
    GrowExactIff(f.size, newSize, cs, f.chunks);
    forall k: nat ensures !Touches(cs, k, 0, 0) {}
    if Exact(cs, f.(size := newSize)) {
      assert forall k :: k in f.chunks ==> !Exposed(f.size, newSize, cs, f.chunks, k);
    }
  }

  ghost function Written(cs: nat, f: File, offset: nat, data: seq<byte>): File {
    var newSize, puts := Max(f.size, offset + |data|), PutsOf(cs, f.chunks, f.size, offset, data);
    File(newSize,
         f.billed + Total(newSize, cs, Live(f.size, cs, f.chunks) + puts) - Total(f.size, cs, f.chunks),
         f.chunks + puts)
  }

  /** write: plans the chunks to put and the change of the bill. */
  method WriteFile(cs: nat, f: File, offset: nat, data: seq<byte>) returns (f': File, delta: int)
    requires cs > 0 && Tidy(f.size, cs, f.chunks) && data != [] && offset + |data| <= cs * INDEX_LIMIT
    ensures f' == Written(cs, f, offset, data) && delta == f'.billed - f.billed
  {
    var puts, newSize;
    puts, newSize, delta := PlanWrite(cs, f.chunks, f.size, offset, data);
    PutsUnique(cs, f.chunks, f.size, offset, data, puts);
    f' := File(newSize, f.billed + delta, f.chunks + puts);
  }

  lemma PutsFacts(cs: nat, m: ChunkMap, size: nat, offset: nat, data: seq<byte>)
    requires cs > 0 && Tidy(size, cs, m)
    ensures var puts := PutsOf(cs, m, size, offset, data);
      && (forall k: nat :: k in puts <==> Touches(cs, k, offset, offset + |data|))
      && (forall k :: k in puts ==>
            |puts[k]| <= cs && WrittenChunk(cs, k, Content(Live(size, cs, m), k), offset, data, puts[k]))
  {
    var puts := PutsOf(cs, m, size, offset, data);
    forall k: nat ensures k in puts <==> Touches(cs, k, offset, offset + |data|) { StartAtLeast(cs, k); }
    forall k | k in puts
      ensures |puts[k]| <= cs && WrittenChunk(cs, k, Content(Live(size, cs, m), k), offset, data, puts[k])
    {
      assert |Content(Live(size, cs, m), k)| <= cs;
    }
  }

  /** A write keeps the bill exact if and only if it covers every leftover it brings back, and then it overlays
      its data on the old bytes, zero-filled up to the new end. */
  lemma WrittenExactIff(cs: nat, f: File, offset: nat, data: seq<byte>)
    requires cs > 0 && Tidy(f.size, cs, f.chunks) && Exact(cs, f) && data != []
    ensures var f' := Written(cs, f, offset, data);
      && (Exact(cs, f') <==> !Revives(cs, f, f'.size, offset, offset + |data|))
      && (Exact(cs, f') ==>
            && Tidy(f'.size, cs, f'.chunks)
            && Flat(f'.size, cs, f'.chunks)
            == Overlay(Flat(f.size, cs, f.chunks) + Zeroes(f'.size - f.size), offset, data))
  {
    var f', puts := Written(cs, f, offset, data), PutsOf(cs, f.chunks, f.size, offset, data);
    PutsFacts(cs, f.chunks, f.size, offset, data);
    WriteExactIff(f.size, f'.size, cs, f.chunks, puts);
    UncoveredIff(cs, f, f'.size, offset, data);
    if Exact(cs, f') {
      WriteReads(f.size, f'.size, cs, f.chunks, puts, offset, data);
      WriteTidy(f.size, f'.size, cs, f.chunks, puts, offset, data);
    }
  }

  lemma UncoveredIff(cs: nat, f: File, newSize: nat, offset: nat, data: seq<byte>)
    requires cs > 0
    ensures Revives(cs, f, newSize, offset, offset + |data|) <==>
      exists k: nat :: Uncovered(f.size, newSize, cs, f.chunks, PutsOf(cs, f.chunks, f.size, offset, data), k)
  {
    var puts := PutsOf(cs, f.chunks, f.size, offset, data);
    forall k: nat
      ensures Uncovered(f.size, newSize, cs, f.chunks, puts, k)
         <==> Exposed(f.size, newSize, cs, f.chunks, k) && !Touches(cs, k, offset, offset + |data|)
    {
      StartAtLeast(cs, k);
    }
  }

  lemma WriteTidy(oldSize: nat, newSize: nat, cs: nat, m: ChunkMap, puts: ChunkMap, offset: nat, data: seq<byte>)
    requires newSize == Max(oldSize, offset + |data|) && Tidy(oldSize, cs, m)
    requires forall k: nat :: k in puts <==> Touches(cs, k, offset, offset + |data|)
    requires forall k :: k in puts ==>
      |puts[k]| <= cs && WrittenChunk(cs, k, Content(Live(oldSize, cs, m), k), offset, data, puts[k])
    requires forall k: nat :: !Uncovered(oldSize, newSize, cs, m, puts, k)
    ensures Tidy(newSize, cs, m + puts)
  {
    forall k | k in m + puts && Start(cs, k) < newSize ensures Start(cs, k) + |(m + puts)[k]| <= newSize {
      assert !Uncovered(oldSize, newSize, cs, m, puts, k);
    }
  }

  // ----- a leftover that comes back -----

  /** A file of 1026 full chunks, written in one go. */
  ghost function Long(cs: nat): File { Written(cs, File(0, 0, map[]), 0, Sevens(Start(cs, 1026))) }

  function Sevens(n: nat): seq<byte> { seq(n, _ => 7) }

  lemma LongSound(cs: nat)
    requires cs > 0
    ensures Long(cs).size == Start(cs, 1026) && Tidy(Start(cs, 1026), cs, Long(cs).chunks) && Exact(cs, Long(cs))
  {
    StartMonotone(cs, 0, 1026);
    WrittenExactIff(cs, File(0, 0, map[]), 0, Sevens(Start(cs, 1026)));
  }

  lemma LongChunks(cs: nat, k: nat)
    requires cs > 0
    ensures k in Long(cs).chunks <==> k < 1026
    ensures k < 1026 ==> Long(cs).chunks[k] != [] && Long(cs).chunks[k][0] == 7
  {
    var data := Sevens(Start(cs, 1026));
    PutsFacts(cs, map[], 0, 0, data);
    assert Long(cs).chunks == map[] + PutsOf(cs, map[], 0, 0, data);
    if k < 1026 { StartMonotone(cs, k, 1026); }
    if k > 1026 { StartMonotone(cs, 1026, k); }
    if k < 1026 { assert At(PutsOf(cs, map[], 0, 0, data)[k], 0) == 7; }
  }

  /** Truncating it to one chunk has 1025 chunks to delete, one more than the first batch takes. */
  lemma OneLeftover(cs: nat)
    requires cs > 0
    ensures var f := Resized(cs, Long(cs), cs, 0); 1025 in f.chunks && f.chunks[1025] == Long(cs).chunks[1025]
  {
    var m := Long(cs).chunks;
    LongChunks(cs, 1025);
    LongSound(cs);
    StartMonotone(cs, 1, 1026);
    DoomedOnes(cs, m, seq(1024, i => i + 1));
  }

  lemma DoomedOnes(cs: nat, m: ChunkMap, ones: seq<nat>)
    requires cs > 0 && m == Long(cs).chunks && ones == seq(1024, i => i + 1)
    ensures |DoomedBelow(cs, m, cs, 1025)| == 1024 && Start(cs, 1025) >= cs
  {
    forall j: nat ensures j in DoomedBelow(cs, m, cs, 1025) <==> j in SetOf(ones) {
      LongChunks(cs, j);
      if j > 0 { StartMonotone(cs, 0, j); }
      if 1 <= j < 1025 { assert ones[j - 1] == j; }
    }
    assert DoomedBelow(cs, m, cs, 1025) == SetOf(ones);
    AscendingSize(ones, 1025);
    StartMonotone(cs, 0, 1025);
  }

  /** If the batch after the first is not written and the file then grows back, the old byte 7 returns where a
      zero should be, and the bill is no longer exact. */
  lemma LeftoverReturns(cs: nat)
    requires cs > 0
    ensures var f := Resized(cs, Long(cs), cs, 0);
      && Exact(cs, f) && !Exact(cs, Resized(cs, f, Start(cs, 1026), 0))
      && ByteAt(cs, f.chunks, Start(cs, 1025)) == 7
  {
    LongSound(cs);
    LongChunks(cs, 1025);
    OneLeftover(cs);
    var f := Resized(cs, Long(cs), cs, 0);
    StartMonotone(cs, 1, 1026);
    ShrunkReads(cs, Long(cs), cs, 0);
    StartMonotone(cs, 0, 1025);
    StartMonotone(cs, 1025, 1026);
    assert Exposed(f.size, Start(cs, 1026), cs, f.chunks, 1025);
    GrownExactIff(cs, f, Start(cs, 1026));
    HeldByte(cs, f.chunks, Start(cs, 1025), 1025);
  }
}
