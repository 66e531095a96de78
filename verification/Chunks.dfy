/** Chunked content of one volume or file (crates/slatefs-core/src/data.rs, quota.rs): a map from chunk
    index to stored bytes, where an absent chunk and the missing tail of a short one read as zeroes.
    This module gives the two things a chunk map means, the flat bytes it stands for and the bytes it
    is billed for, and what each single-chunk change does to both. */
module Chunks {
  import opened Common

  type ChunkMap = map<nat, seq<byte>>

  // Chunk indexes are stored as u32.
  const INDEX_LIMIT: nat := 0x1_0000_0000

  // ----- flat view -----

  /** Bytes stored for chunk `k`; nothing when the chunk is absent. */
  function Content(m: ChunkMap, k: nat): seq<byte> { if k in m then m[k] else [] }

  /** A short chunk continues with zeroes. */
  function At(s: seq<byte>, j: nat): byte { if j < |s| then s[j] else 0 }

  /** The byte a reader sees at offset `i`. */
  ghost function ByteAt(cs: nat, m: ChunkMap, i: nat): byte
    requires cs > 0
  {
    At(Content(m, i / cs), i % cs)
  }

  /** The volume as one array of `size` bytes. */
  ghost function Flat(size: nat, cs: nat, m: ChunkMap): (r: seq<byte>)
    requires cs > 0
    ensures |r| == size
  {
    seq(size, (i: int) requires 0 <= i < size => ByteAt(cs, m, i))
  }

  // ----- chunk bounds -----

  /** First byte of chunk `k`: the product `k * cs`, written as repeated addition so that proofs stay
      linear; `StartIsProduct` ties the two. */
  function Start(cs: nat, k: nat): nat { if k == 0 then 0 else Start(cs, k - 1) + cs }

  lemma {:induction false} StartIsProduct(cs: nat, k: nat)
    ensures Start(cs, k) == k * cs
  {
    if k > 0 {
      StartIsProduct(cs, k - 1);
      assert k * cs == (k - 1) * cs + cs;
    }
  }

  lemma {:induction false} StartMonotone(cs: nat, k: nat, n: nat)
    requires k < n
    ensures Start(cs, k) + cs <= Start(cs, n)
  {
    if k + 1 < n { StartMonotone(cs, k, n - 1); }
  }

  /** data.rs `chunk_of`, before the cast to u32: the chunk that holds byte `i`. */
  lemma ChunkHolds(cs: nat, i: nat)
    requires cs > 0
    ensures Start(cs, i / cs) + i % cs == i && i % cs < cs
  {
    StartIsProduct(cs, i / cs);
    assert i == cs * (i / cs) + i % cs;
  }

  lemma ChunkUnique(cs: nat, i: nat, k: nat)
    requires cs > 0 && Start(cs, k) <= i < Start(cs, k) + cs
    ensures i / cs == k
  {
    ChunkHolds(cs, i);
    if i / cs < k { StartMonotone(cs, i / cs, k); }
    if k < i / cs { StartMonotone(cs, k, i / cs); }
  }

  // ----- billing -----

  /** quota.rs, accounting rule: stored length clamped at end of file. */
  function Billed(size: nat, start: nat, len: nat): nat {
    Min(len, if size > start then size - start else 0)
  }

  /** What chunk `k` is billed; nothing when it is absent. */
  function Cost(size: nat, cs: nat, m: ChunkMap, k: nat): nat {
    Billed(size, Start(cs, k), |Content(m, k)|)
  }

  ghost function SumBelow(size: nat, cs: nat, m: ChunkMap, n: nat): nat {
    if n == 0 then 0 else SumBelow(size, cs, m, n - 1) + Cost(size, cs, m, n - 1)
  }

  /** Sum of billed bytes over all stored chunks. Chunks numbered `size` or more start past the end of
      file and are billed nothing; `SumFrom` says so. */
  ghost function Total(size: nat, cs: nat, m: ChunkMap): nat {
    SumBelow(size, cs, m, size)
  }

  lemma {:induction false} StartAtLeast(cs: nat, k: nat)
    requires cs > 0
    ensures k <= Start(cs, k)
  {
    if k > 0 { StartAtLeast(cs, k - 1); }
  }

  lemma {:induction false} SumFrom(size: nat, cs: nat, m: ChunkMap, n: nat)
    requires cs > 0 && size <= n
    ensures SumBelow(size, cs, m, n) == Total(size, cs, m)
    decreases n
  {
    if size < n {
      StartAtLeast(cs, n - 1);
      SumFrom(size, cs, m, n - 1);
    }
  }

  /** The stored bytes of the first `n` chunks that lie below the end of file, by chunk and place in it. */
  ghost function StoredBelow(size: nat, cs: nat, m: ChunkMap, n: nat): set<(nat, nat)> {
    set k: nat, j: nat | k in m && k < n && j < |m[k]| && Start(cs, k) + j < size :: (k, j)
  }

  ghost function StoredBytes(size: nat, cs: nat, m: ChunkMap): set<(nat, nat)> {
    set k: nat, j: nat | k in m && j < |m[k]| && Start(cs, k) + j < size :: (k, j)
  }

  /** The total bill is the number of stored bytes below the end of file. */
  lemma BillCounts(size: nat, cs: nat, m: ChunkMap)
    requires cs > 0
    ensures Total(size, cs, m) == |StoredBytes(size, cs, m)|
  {
    BillBelow(size, cs, m, size);
    forall b | b in StoredBytes(size, cs, m) ensures b in StoredBelow(size, cs, m, size) { StartAtLeast(cs, b.0); }
    assert StoredBytes(size, cs, m) == StoredBelow(size, cs, m, size);
  }

  lemma {:induction false} BillBelow(size: nat, cs: nat, m: ChunkMap, n: nat)
    ensures SumBelow(size, cs, m, n) == |StoredBelow(size, cs, m, n)|
  {
    if n > 0 {
      BillBelow(size, cs, m, n - 1);
      var before, last := StoredBelow(size, cs, m, n - 1), FirstOf(n - 1, Cost(size, cs, m, n - 1));
      FirstCount(n - 1, Cost(size, cs, m, n - 1));
      BelowMore(size, cs, m, n - 1);
    }
  }

  lemma BelowMore(size: nat, cs: nat, m: ChunkMap, n: nat)
    ensures var before, last := StoredBelow(size, cs, m, n), FirstOf(n, Cost(size, cs, m, n));
      StoredBelow(size, cs, m, n + 1) == before + last && before !! last
  {
    var before, last := StoredBelow(size, cs, m, n), FirstOf(n, Cost(size, cs, m, n));
    forall b ensures b in StoredBelow(size, cs, m, n + 1) <==> b in before + last {
      if b.0 == n { assert b in last <==> b.1 < Cost(size, cs, m, n); }
    }
  }

  ghost function FirstOf(k: nat, n: nat): set<(nat, nat)> { set j: nat | j < n :: (k, j) }

  lemma {:induction false} FirstCount(k: nat, n: nat)
    ensures |FirstOf(k, n)| == n
  {
    if n > 0 {
      FirstCount(k, n - 1);
      assert FirstOf(k, n) == FirstOf(k, n - 1) + {(k, n - 1)};
    }
  }

  lemma {:induction false} SumAgree(size: nat, m: ChunkMap, size': nat, m': ChunkMap, cs: nat, n: nat)
    requires forall k: nat :: k < n ==> Cost(size, cs, m, k) == Cost(size', cs, m', k)
    ensures SumBelow(size, cs, m, n) == SumBelow(size', cs, m', n)
  {
    if n > 0 { SumAgree(size, m, size', m', cs, n - 1); }
  }

  lemma {:induction false} SumChange(size: nat, cs: nat, m: ChunkMap, m': ChunkMap, k: nat, n: nat)
    requires k < n && forall j: nat :: j != k ==> Content(m, j) == Content(m', j)
    ensures SumBelow(size, cs, m', n) == SumBelow(size, cs, m, n) - Cost(size, cs, m, k) + Cost(size, cs, m', k)
  {
    if k == n - 1 {
      SumAgree(size, m, size, m', cs, n - 1);
    } else {
      SumChange(size, cs, m, m', k, n - 1);
    }
  }

  /** Changing one chunk changes the total by that chunk's own difference. */
  lemma TotalChange(size: nat, cs: nat, m: ChunkMap, m': ChunkMap, k: nat)
    requires cs > 0 && forall j: nat :: j != k ==> Content(m, j) == Content(m', j)
    ensures Total(size, cs, m') == Total(size, cs, m) - Cost(size, cs, m, k) + Cost(size, cs, m', k)
  {
    var n := size + k + 1;
    SumChange(size, cs, m, m', k, n);
    SumFrom(size, cs, m, n);
    SumFrom(size, cs, m', n);
  }

  /** Maps billed alike chunk by chunk, possibly under different sizes, are billed alike in total. */
  lemma TotalAgree(size: nat, m: ChunkMap, size': nat, m': ChunkMap, cs: nat)
    requires cs > 0 && forall k: nat :: Cost(size, cs, m, k) == Cost(size', cs, m', k)
    ensures Total(size, cs, m) == Total(size', cs, m')
  {
    var n := size + size';
    SumAgree(size, m, size', m', cs, n);
    SumFrom(size, cs, m, n);
    SumFrom(size', cs, m', n);
  }

  // ----- well-formed chunk maps -----

  /** No chunk is longer than a chunk. */
  ghost predicate Sized(cs: nat, m: ChunkMap) {
    forall k :: k in m ==> |m[k]| <= cs
  }

  /** Chunks that start below the end of file also stop there. Chunks that start at or past it
      (leftovers of an interrupted truncate) are allowed. */
  ghost predicate Tidy(size: nat, cs: nat, m: ChunkMap) {
    Sized(cs, m) && forall k :: k in m && Start(cs, k) < size ==> Start(cs, k) + |m[k]| <= size
  }

  /** Every chunk lies inside the first `size` bytes. */
  ghost predicate InBounds(size: nat, cs: nat, m: ChunkMap) {
    Tidy(size, cs, m) && forall k :: k in m ==> Start(cs, k) < size
  }

  /** Stored bytes never outnumber the volume's, so no counter of them can wrap before the size does. */
  lemma TotalWithinSize(size: nat, cs: nat, m: ChunkMap)
    requires InBounds(size, cs, m)
    ensures Total(size, cs, m) <= size
  {
    SumWithin(size, cs, m, size);
  }

  lemma {:induction false} SumWithin(size: nat, cs: nat, m: ChunkMap, n: nat)
    requires InBounds(size, cs, m)
    ensures SumBelow(size, cs, m, n) <= Min(Start(cs, n), size)
  {
    if n > 0 { SumWithin(size, cs, m, n - 1); }
  }

  // ----- content of whole maps -----

  /** Replacing the bytes of `[lo, lo + |data|)` chunk by chunk overlays `data` on the flat array. */
  lemma FlatOverlay(size: nat, cs: nat, m: ChunkMap, m': ChunkMap, lo: nat, data: seq<byte>)
    requires cs > 0 && lo + |data| <= size
    requires forall k: nat, j: nat :: j < cs ==>
      At(Content(m', k), j) == if lo <= Start(cs, k) + j < lo + |data| then data[Start(cs, k) + j - lo]
                               else At(Content(m, k), j)
    ensures Flat(size, cs, m') == Overlay(Flat(size, cs, m), lo, data)
  {
    forall i: nat | i < size ensures Flat(size, cs, m')[i] == Overlay(Flat(size, cs, m), lo, data)[i] {
      ChunkHolds(cs, i);
      OverlayAt(Flat(size, cs, m), lo, data, i);
      var k, j := i / cs, i % cs;
      assert At(Content(m', k), j) == if lo <= Start(cs, k) + j < lo + |data| then data[Start(cs, k) + j - lo]
                                      else At(Content(m, k), j);
    }
  }

  function Overlay(flat: seq<byte>, lo: nat, data: seq<byte>): (r: seq<byte>)
    requires lo + |data| <= |flat|
    ensures |r| == |flat|
    ensures r[lo..lo + |data|] == data && r[..lo] == flat[..lo] && r[lo + |data|..] == flat[lo + |data|..]
  {
    flat[..lo] + data + flat[lo + |data|..]
  }

  lemma OverlayAt(flat: seq<byte>, lo: nat, data: seq<byte>, i: nat)
    requires lo + |data| <= |flat| && i < |flat|
    ensures Overlay(flat, lo, data)[i] == if lo <= i < lo + |data| then data[i - lo] else flat[i]
  {
  }

  function Zeroes(n: nat): (r: seq<byte>)
    ensures |r| == n
  {
    seq(n, i => 0 as byte)
  }

  lemma {:induction false} EmptyTotal(size: nat, cs: nat, n: nat)
    ensures SumBelow(size, cs, map[], n) == 0
  {
    if n > 0 { EmptyTotal(size, cs, n - 1); }
  }
}
