/** Directory listing over 9P (crates/slatefs-9p/src/filesystem.rs, `rreaddir`) on top of the volume's paged
    listing (crates/slatefs-core/src/vfs_impl.rs, `readdir`). */
module ReadDirs {
  import opened NineP
  import opened NinePCodec

  const DOT_OFFSET: nat := 1
  const DOTDOT_OFFSET: nat := 2
  const PAGE: nat := 128

  type Entries = seq<DirEntry>

  /** Entries in the order of their cookies. */
  ghost predicate Ordered(es: Entries) { forall i, j :: 0 <= i < j < |es| ==> es[i].offset < es[j].offset }

  /** A whole listing: ".", ".." and the real entries, whose cookies start at 3. */
  ghost predicate Listing(es: Entries) {
    |es| >= 2 && es[0].offset == DOT_OFFSET && es[1].offset == DOTDOT_OFFSET && Ordered(es)
  }

  /** From index `k` on, the first entry after a cookie. */
  function After(es: Entries, k: nat, offset: nat): (j: nat)
    requires k <= |es|
    ensures k <= j <= |es|
    decreases |es| - k
  {
    if k < |es| && es[k].offset <= offset then After(es, k + 1, offset) else k
  }

  lemma {:induction false} AfterIs(es: Entries, k: nat, offset: nat, j: nat)
    requires k <= j <= |es| && (forall i :: k <= i < j ==> es[i].offset <= offset) && (j < |es| ==> es[j].offset > offset)
    ensures After(es, k, offset) == j
    decreases |es| - k
  {
    if k < j { AfterIs(es, k + 1, offset, j); }
  }

  /** Resuming after an entry's cookie resumes at the next entry. */
  lemma AfterCookie(es: Entries, from: nat, k: nat)
    requires Ordered(es) && from <= k < |es|
    ensures After(es, from, es[k].offset) == k + 1
  {
    AfterIs(es, from, es[k].offset, k + 1);
  }

  // ----- the volume's pages -----

  /** At most `max` entries after the cookie, and whether that was all. */
  method ReadPage(stored: Entries, cookie: nat, max: nat) returns (page: Entries, eof: bool)
    ensures var k := After(stored, 0, cookie);
      && k + |page| <= |stored| && page == stored[k..k + |page|] && |page| <= max
      && (eof <==> k + |page| == |stored|) && (!eof ==> |page| == max)
  {
    var k := After(stored, 0, cookie);
    page, eof := [], true;
    for i := k to |stored|
      invariant eof && page == stored[k..i] && |page| <= max
    {
      if |page| == max {
        eof := false;
        break;
      }
      page := page + [stored[i]];
    }
  }

  // ----- one reply -----

  /** Sixteen bytes of the count are kept for the header. */
  function Budget(count: nat): nat { if count > 16 then count - 16 else 0 }

  /** From index `k` on, the first entry that no longer fits in so many bytes. */
  function Fitting(es: Entries, k: nat, budget: nat): (j: nat)
    requires k <= |es|
    ensures k <= j <= |es|
    decreases |es| - k
  {
    if k < |es| && EntrySize(es[k]) <= budget then Fitting(es, k + 1, budget - EntrySize(es[k])) else k
  }

  /** The run takes at most the budget, and one entry more would not fit. */
  lemma {:induction false} FittingFits(es: Entries, k: nat, budget: nat)
    requires k <= |es|
    ensures var j := Fitting(es, k, budget);
      EntriesSize(es[k..j]) <= budget && (j < |es| ==> EntriesSize(es[k..j]) + EntrySize(es[j]) > budget)
    decreases |es| - k
  {
    if k < |es| && EntrySize(es[k]) <= budget {
      FittingFits(es, k + 1, budget - EntrySize(es[k]));
      assert es[k..Fitting(es, k, budget)][1..] == es[k + 1..Fitting(es, k, budget)];
    }
  }

  /** The reply has entries `k` to `j` and `used` bytes so far; it will end where the whole reply ends. */
  ghost predicate Filling(es: Entries, k: nat, budget: nat, entries: Entries, used: nat, j: nat) {
    true == (
      k <= j <= |es| && used <= budget && entries == es[k..j] && Fitting(es, k, budget) == Fitting(es, j, budget - used))
  }

  /** The reply is complete. */
  ghost predicate Filled(es: Entries, k: nat, budget: nat, entries: Entries) {
    true == (k <= |es| && entries == es[k..Fitting(es, k, budget)])
  }

  /** Adds the next entry to the reply if it still fits. */
  method Push(ghost es: Entries, ghost k: nat, entries: Entries, used: nat, entry: DirEntry, ghost j: nat, count: nat)
    returns (ok: bool, entries': Entries, used': nat)
    requires j < |es| && entry == es[j] && Filling(es, k, Budget(count), entries, used, j)
    ensures if ok then Filling(es, k, Budget(count), entries', used', j + 1) else Filled(es, k, Budget(count), entries')
  {
    if used + EntrySize(entry) > Budget(count) {
      return false, entries, used;
    }
    return true, entries + [entry], used + EntrySize(entry);
  }

  /** The reply holds the entries from index `k` on, the first after the offset; with the sixteen bytes they are within
      the count, and the next entry would not be. */
  ghost predicate Answers(es: Entries, k: nat, offset: nat, count: nat, reply: Entries) {
    true == (
      && k + |reply| <= |es| && reply == es[k..k + |reply|]
      && (forall i :: 0 <= i < |es| ==> (es[i].offset <= offset <==> i < k))
      && (reply != [] ==> EntriesSize(reply) + 16 <= count)
      && (k + |reply| < |es| ==> EntriesSize(reply) + EntrySize(es[k + |reply|]) + 16 > count))
  }

  lemma FilledAnswers(es: Entries, offset: nat, count: nat, reply: Entries)
    requires Listing(es) && Filled(es, After(es, 0, offset), Budget(count), reply)
    ensures Answers(es, After(es, 0, offset), offset, count, reply)
    ensures reply != [] ==> |EncodeBody(RReadDir(reply))| + 12 <= count
  {
    var k := After(es, 0, offset);
    AfterSplits(es, 0, offset);
    FittingFits(es, k, Budget(count));
    EntriesLength(reply);
    if reply != [] { assert EntriesSize(reply) >= EntrySize(reply[0]); }
  }

  lemma {:induction false} AfterSplits(es: Entries, k: nat, offset: nat)
    requires Ordered(es) && k <= |es| && forall i :: 0 <= i < k ==> es[i].offset <= offset
    ensures forall i :: 0 <= i < |es| ==> (es[i].offset <= offset <==> i < After(es, k, offset))
    decreases |es| - k
  {
    if k < |es| && es[k].offset <= offset {
      AfterSplits(es, k + 1, offset);
    } else if k < |es| {
      assert forall i :: k < i < |es| ==> es[k].offset < es[i].offset;
    }
  }

  /** The reply to a listing request is the longest run of entries after the offset that fits in the count, and the
      message that carries it, after its type and tag, is at least twelve bytes shorter than the count. */
  method ReadDir(es: Entries, offset: nat, count: nat) returns (entries: Entries)
    requires Listing(es)
    ensures Filled(es, After(es, 0, offset), Budget(count), entries)
    ensures Answers(es, After(es, 0, offset), offset, count, entries)
    ensures entries != [] ==> |EncodeBody(RReadDir(entries))| + 12 <= count
  {
    entries := Fill(es, offset, count);
    FilledAnswers(es, offset, count, entries);
  }

  method Fill(es: Entries, offset: nat, count: nat) returns (entries: Entries)
    requires Listing(es)
    ensures Filled(es, After(es, 0, offset), Budget(count), entries)
  {
    ghost var k := After(es, 0, offset);
    Starts(es, offset);
    var used, ok := 0, true;
    entries := [];
    if offset < DOT_OFFSET {
      ok, entries, used := Push(es, k, entries, used, es[0], 0, count);
      if !ok {
        return;
      }
    }
    if offset < DOTDOT_OFFSET {
      ok, entries, used := Push(es, k, entries, used, es[1], 1, count);
      if !ok {
        return;
      }
    }
    var next := if offset <= DOTDOT_OFFSET then 0 else offset;
    entries := PushPages(es, k, entries, used, next, count);
  }

  /** Where a request starts: at ".", at "..", or among the real entries. */
  lemma Starts(es: Entries, offset: nat)
    requires Listing(es)
    ensures offset < DOT_OFFSET ==> After(es, 0, offset) == 0
    ensures DOT_OFFSET <= offset < DOTDOT_OFFSET ==> After(es, 0, offset) == 1
    ensures After(es, 2, 0) == 2
    ensures DOTDOT_OFFSET <= offset ==> After(es, 0, offset) == After(es, 2, if offset == DOTDOT_OFFSET then 0 else offset)
  {
    if |es| > 2 { assert es[1].offset < es[2].offset; }
    if offset == DOTDOT_OFFSET { AfterIs(es, 0, offset, 2); }
  }

  /** The volume is read page by page until the reply is full or the directory ends. */
  method PushPages(es: Entries, ghost k: nat, entries0: Entries, used0: nat, start: nat, count: nat)
    returns (entries: Entries)
    requires Listing(es) && Filling(es, k, Budget(count), entries0, used0, After(es, 2, start))
    ensures Filled(es, k, Budget(count), entries)
  {
    var next, used, eof, ok := start, used0, false, true;
    entries := entries0;
    while !eof
      invariant Filling(es, k, Budget(count), entries, used, After(es, 2, next))
      invariant eof ==> After(es, 2, next) == |es|
      decreases !eof, |es| - After(es, 2, next)
    {
      var page;
      page, eof := ReadPage(es[2..], next, PAGE);
      Shifted(es, next);
      ok, entries, used, next := PushPage(es, k, page, entries, used, next, count);
      if !ok {
        return;
      }
    }
  }

  lemma {:induction false} ShiftedFrom(es: Entries, k: nat, offset: nat)
    requires 2 <= k <= |es|
    ensures After(es[2..], k - 2, offset) == After(es, k, offset) - 2
    decreases |es| - k
  {
    if k < |es| && es[k].offset <= offset { ShiftedFrom(es, k + 1, offset); }
  }

  lemma Shifted(es: Entries, offset: nat)
    requires 2 <= |es|
    ensures After(es[2..], 0, offset) == After(es, 2, offset) - 2
  {
    ShiftedFrom(es, 2, offset);
  }

  method PushPage(ghost es: Entries, ghost k: nat, page: Entries, entries0: Entries, used0: nat, start: nat, count: nat)
    returns (ok: bool, entries: Entries, used: nat, next: nat)
    requires Listing(es) && Filling(es, k, Budget(count), entries0, used0, After(es, 2, start))
    requires After(es, 2, start) + |page| <= |es|
    requires forall i :: 0 <= i < |page| ==> page[i] == es[After(es, 2, start) + i]
    ensures ok ==> After(es, 2, next) == After(es, 2, start) + |page|
    ensures ok ==> Filling(es, k, Budget(count), entries, used, After(es, 2, next))
    ensures !ok ==> Filled(es, k, Budget(count), entries)
  {
    ok, entries, used, next := true, entries0, used0, start;
    ghost var j := After(es, 2, start);
    for i := 0 to |page|
      invariant Filling(es, k, Budget(count), entries, used, j + i) && After(es, 2, next) == j + i
    {
      ok, entries, used := Push(es, k, entries, used, page[i], j + i, count);
      if !ok {
        return;
      }
      next := page[i].offset;
      AfterCookie(es, 2, j + i);
    }
  }

  // ----- a client resuming from the last offset until nothing comes back -----

  /** Whatever count the client asks for each time, it sees the entries in order and none twice, and it stops
      only at the end or at an entry that does not fit in the count it last asked for. So with counts that are
      large enough for each entry it sees them all. */
  method ListAll(es: Entries, counts: nat -> nat) returns (all: Entries, calls: nat)
    requires Listing(es)
    ensures all <= es && calls > 0
    ensures all == es || EntrySize(es[|all|]) + 16 > counts(calls - 1)
  {
    all, calls := [], 0;
    var offset, more := 0, true;
    ghost var k: nat := 0;
    while more
      invariant k <= |es| && all == es[..k] && After(es, 0, offset) == k && (!more ==> calls > 0)
      invariant !more ==> k == |es| || EntrySize(es[k]) + 16 > counts(calls - 1)
      decreases more, |es| - k
    {
      var reply := ReadDir(es, offset, counts(calls));
      if reply == [] {
        more := false;
      } else {
        k := Fitting(es, k, Budget(counts(calls)));
        AfterCookie(es, 0, k - 1);
        all, offset := all + reply, reply[|reply| - 1].offset;
      }
      calls := calls + 1;
    }
  }
}
