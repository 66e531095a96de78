/** Advisory byte-range locks (crates/slatefs-core/src/locks.rs, `RangeLockTable`). The stored intervals are
    split and replaced; what they mean is a lock mode for each owner and byte. */
module RangeLocks {
  import opened Common

  const MAX_OFFSET: nat := 0xFFFF_FFFF_FFFF_FFFF

  /** Offsets are 64 bits wide. */
  type Offset = x: nat | x <= MAX_OFFSET

  /** `end` is exclusive. */
  datatype LockRange = LockRange(start: Offset, end: Offset)

  datatype RangeLock = RangeLock(owner: nat, range: LockRange, exclusive: bool)

  type Locks = seq<RangeLock>

  predicate Overlaps(a: LockRange, b: LockRange) { a.start < b.end && b.start < a.end }

  predicate Covers(r: LockRange, x: nat) { r.start <= x < r.end }

  predicate NonEmpty(r: LockRange) { r.start < r.end }

  // ----- the meaning: a mode for each owner and byte -----

  datatype Mode = Free | Shared | Exclusive

  function ModeFor(exclusive: bool): Mode { if exclusive then Exclusive else Shared }

  function Hits(l: RangeLock, owner: nat, x: nat, exclusive: bool): nat {
    if l.owner == owner && l.exclusive == exclusive && Covers(l.range, x) then 1 else 0
  }

  /** How many stored locks of one owner and mode cover a byte. */
  function Tally(locks: Locks, owner: nat, x: nat, exclusive: bool): nat {
    if locks == [] then 0
    else Tally(locks[..|locks| - 1], owner, x, exclusive) + Hits(locks[|locks| - 1], owner, x, exclusive)
  }

  function ModeOf(locks: Locks, owner: nat, x: nat): Mode {
    if Tally(locks, owner, x, true) > 0 then Exclusive
    else if Tally(locks, owner, x, false) > 0 then Shared
    else Free
  }

  /** No stored range is empty. */
  ghost predicate NonEmpties(locks: Locks) { forall l :: l in locks ==> NonEmpty(l.range) }

  /** An owner's ranges do not overlap. */
  ghost predicate Single(locks: Locks) {
    forall owner: nat, x: nat :: Tally(locks, owner, x, true) + Tally(locks, owner, x, false) <= 1
  }

  /** A byte that one owner holds exclusively is free for every other. */
  ghost predicate NoClash(locks: Locks) {
    forall a: nat, b: nat, x: nat :: a != b && ModeOf(locks, a, x) == Exclusive ==> ModeOf(locks, b, x) == Free
  }

  ghost predicate WellFormed(locks: Locks) { NonEmpties(locks) && Single(locks) && NoClash(locks) }

  // ----- tallies -----

  lemma {:induction false} TallyConcat(a: Locks, b: Locks, owner: nat, x: nat, exclusive: bool)
    ensures Tally(a + b, owner, x, exclusive) == Tally(a, owner, x, exclusive) + Tally(b, owner, x, exclusive)
    decreases |b|
  {
    if b == [] {
      assert a + b == a;
    } else {
      assert (a + b)[..|a + b| - 1] == a + b[..|b| - 1];
      TallyConcat(a, b[..|b| - 1], owner, x, exclusive);
    }
  }

  lemma {:induction false} TallyWitness(locks: Locks, owner: nat, x: nat, exclusive: bool)
    ensures Tally(locks, owner, x, exclusive) > 0 <==> exists l :: l in locks && Hits(l, owner, x, exclusive) == 1
    decreases |locks|
  {
    if locks != [] {
      var init, last := locks[..|locks| - 1], locks[|locks| - 1];
      assert locks == init + [last];
      TallyWitness(init, owner, x, exclusive);
    }
  }

  /** Two different stored locks of one owner share no byte. */
  lemma SingleDisjoint(locks: Locks, i: nat, j: nat)
    requires NonEmpties(locks) && Single(locks) && i < j < |locks| && locks[i].owner == locks[j].owner
    ensures !Overlaps(locks[i].range, locks[j].range)
  {
    var a, b := locks[i], locks[j];
    if Overlaps(a.range, b.range) {
      var x := Max(a.range.start, b.range.start);
      assert locks == locks[..j] + locks[j..] && a in locks[..j] && b in locks[j..];
      forall e ensures Tally(locks, a.owner, x, e) == Tally(locks[..j], a.owner, x, e) + Tally(locks[j..], a.owner, x, e) {
        TallyConcat(locks[..j], locks[j..], a.owner, x, e);
      }
      assert NonEmpty(a.range) && NonEmpty(b.range);
      assert Hits(a, a.owner, x, a.exclusive) == 1 && Hits(b, b.owner, x, b.exclusive) == 1;
      TallyWitness(locks[..j], a.owner, x, a.exclusive);
      TallyWitness(locks[j..], a.owner, x, b.exclusive);
    }
  }

  // ----- conflicts -----

  /** `l` stands in the way of `lock`. */
  predicate Blocks(l: RangeLock, lock: RangeLock) {
    l.owner != lock.owner && Overlaps(l.range, lock.range) && (l.exclusive || lock.exclusive)
  }

  /** The first stored lock in the way. */
  function FirstBlock(locks: Locks, lock: RangeLock): (r: Option<RangeLock>)
    ensures r.None? <==> forall l :: l in locks ==> !Blocks(l, lock)
    ensures r.Some? ==> r.value in locks && Blocks(r.value, lock)
  {
    if locks == [] then None
    else if Blocks(locks[0], lock) then Some(locks[0])
    else FirstBlock(locks[1..], lock)
  }

  /** Some byte of the request is held incompatibly by another owner. */
  ghost predicate ByteConflict(locks: Locks, lock: RangeLock) {
    exists owner: nat, x: nat ::
      owner != lock.owner && Covers(lock.range, x) && Incompatible(ModeOf(locks, owner, x), lock.exclusive)
  }

  predicate Incompatible(held: Mode, exclusive: bool) { held == Exclusive || (held == Shared && exclusive) }

  method FindBlock(locks: Locks, lock: RangeLock) returns (r: Option<RangeLock>)
    ensures r == FirstBlock(locks, lock)
  {
    var i := 0;
    while i < |locks|
      invariant 0 <= i <= |locks|
      invariant FirstBlock(locks, lock) == FirstBlock(locks[i..], lock)
    {
      if Blocks(locks[i], lock) {
        return Some(locks[i]);
      }
      i := i + 1;
    }
    return None;
  }

  /** A byte held incompatibly always stands in the way. */
  lemma ByteBlocks(locks: Locks, lock: RangeLock)
    requires ByteConflict(locks, lock)
    ensures FirstBlock(locks, lock).Some?
  {
    var owner: nat, x: nat :|
      owner != lock.owner && Covers(lock.range, x) && Incompatible(ModeOf(locks, owner, x), lock.exclusive);
    TallyWitness(locks, owner, x, ModeOf(locks, owner, x) == Exclusive);
    var l :| l in locks && Hits(l, owner, x, ModeOf(locks, owner, x) == Exclusive) == 1;
    assert Blocks(l, lock);
  }

  /** For a request of at least one byte, refusal is exactly a byte held incompatibly. */
  lemma RefusedByByte(locks: Locks, lock: RangeLock)
    requires NonEmpties(locks) && NonEmpty(lock.range)
    ensures FirstBlock(locks, lock).Some? <==> ByteConflict(locks, lock)
  {
    if ByteConflict(locks, lock) { ByteBlocks(locks, lock); }
    if FirstBlock(locks, lock).Some? {
      var l := FirstBlock(locks, lock).value;
      var x := Max(l.range.start, lock.range.start);
      assert NonEmpty(l.range) && Hits(l, l.owner, x, l.exclusive) == 1;
      TallyWitness(locks, l.owner, x, l.exclusive);
      assert Covers(lock.range, x) && Incompatible(ModeOf(locks, l.owner, x), lock.exclusive);
    }
  }

  /** An empty or inverted request can be refused although it asks for no byte: refusal means a byte
      conflict on every table if and only if the range has a byte, ends at zero or starts at the last offset. */
  lemma RefusalExactIff(lock: RangeLock)
    ensures (forall locks :: WellFormed(locks) ==> (FirstBlock(locks, lock).Some? <==> ByteConflict(locks, lock)))
       <==> NonEmpty(lock.range) || lock.range.end == 0 || lock.range.start == MAX_OFFSET
  {
    if NonEmpty(lock.range) || lock.range.end == 0 || lock.range.start == MAX_OFFSET {
      forall locks | WellFormed(locks) ensures FirstBlock(locks, lock).Some? <==> ByteConflict(locks, lock) {
        if NonEmpty(lock.range) { RefusedByByte(locks, lock); }
      }
    } else {
      var l := RangeLock(if lock.owner == 0 then 1 else 0, LockRange(0, lock.range.start + 1), true);
      OneWellFormed(l);
      assert Blocks(l, lock) && l in [l];
      assert !ByteConflict([l], lock);
    }
  }

  lemma OneTally(l: RangeLock, owner: nat, x: nat, exclusive: bool)
    ensures Tally([l], owner, x, exclusive) == Hits(l, owner, x, exclusive)
  {
    assert [l][..0] == [];
  }

  lemma OneWellFormed(l: RangeLock)
    requires NonEmpty(l.range)
    ensures WellFormed([l])
  {
    forall owner: nat, x: nat, e: bool ensures Tally([l], owner, x, e) == Hits(l, owner, x, e) { OneTally(l, owner, x, e); }
  }

  // ----- carving a range out of one owner's locks -----

  function If(there: bool, l: RangeLock): Locks { if there then [l] else [] }

  function Before(l: RangeLock, range: LockRange): RangeLock { l.(range := LockRange(l.range.start, range.start)) }

  function Behind(l: RangeLock, range: LockRange): RangeLock { l.(range := LockRange(range.end, l.range.end)) }

  /** What is left of a lock when `range` is taken out of it. */
  function Pieces(l: RangeLock, range: LockRange): Locks {
    If(NonEmpty(Before(l, range).range), Before(l, range)) + If(NonEmpty(Behind(l, range).range), Behind(l, range))
  }

  predicate Cut(l: RangeLock, owner: nat, range: LockRange) { l.owner == owner && Overlaps(l.range, range) }

  function Kept(locks: Locks, owner: nat, range: LockRange): Locks {
    if locks == [] then []
    else
      var init, last := locks[..|locks| - 1], locks[|locks| - 1];
      if Cut(last, owner, range) then Kept(init, owner, range) else Kept(init, owner, range) + [last]
  }

  function Survivors(locks: Locks, owner: nat, range: LockRange): Locks {
    if locks == [] then []
    else
      var init, last := locks[..|locks| - 1], locks[|locks| - 1];
      if Cut(last, owner, range) then Survivors(init, owner, range) + Pieces(last, range) else Survivors(init, owner, range)
  }

  function Carved(locks: Locks, owner: nat, range: LockRange): Locks {
    Kept(locks, owner, range) + Survivors(locks, owner, range)
  }

  method Carve(locks: Locks, owner: nat, range: LockRange) returns (r: Locks)
    ensures r == Carved(locks, owner, range)
  {
    var kept: Locks, survivors: Locks := [], [];
    for i := 0 to |locks|
      invariant kept == Kept(locks[..i], owner, range) && survivors == Survivors(locks[..i], owner, range)
    {
      var l := locks[i];
      assert locks[..i + 1][..i] == locks[..i];
      if !Cut(l, owner, range) {
        kept := kept + [l];
      } else {
        if l.range.start < range.start {
          survivors := survivors + [l.(range := LockRange(l.range.start, range.start))];
        }
        if range.end < l.range.end {
          survivors := survivors + [l.(range := LockRange(range.end, l.range.end))];
        }
        assert survivors == Survivors(locks[..i], owner, range) + Pieces(l, range);
      }
    }
    assert locks[..|locks|] == locks;
    r := kept + survivors;
  }

  /** The pieces of a cut lock cover its bytes outside the range: once each, unless the range is inverted,
      when the bytes between its ends are covered twice. */
  lemma PiecesTally(l: RangeLock, range: LockRange, owner: nat, x: nat, e: bool)
    requires Overlaps(l.range, range)
    ensures Tally(Pieces(l, range), owner, x, e)
         == if range.start <= x < range.end then 0
            else if range.end <= x < range.start then 2 * Hits(l, owner, x, e)
            else Hits(l, owner, x, e)
  {
    var left, right := Before(l, range), Behind(l, range);
    TallyConcat(If(NonEmpty(left.range), left), If(NonEmpty(right.range), right), owner, x, e);
    IfTally(NonEmpty(left.range), left, owner, x, e);
    IfTally(NonEmpty(right.range), right, owner, x, e);
    PiecesHit(l, range, owner, x, e);
  }

  lemma PiecesHit(l: RangeLock, range: LockRange, owner: nat, x: nat, e: bool)
    requires Overlaps(l.range, range)
    ensures Hits(Before(l, range), owner, x, e) + Hits(Behind(l, range), owner, x, e)
         == if range.start <= x < range.end then 0
            else if range.end <= x < range.start then 2 * Hits(l, owner, x, e)
            else Hits(l, owner, x, e)
  {
  }

  lemma IfTally(there: bool, l: RangeLock, owner: nat, x: nat, e: bool)
    ensures Tally(If(there, l), owner, x, e) == if there then Hits(l, owner, x, e) else 0
  {
    OneTally(l, owner, x, e);
  }

  lemma {:induction false} CarvedTally(locks: Locks, owner: nat, range: LockRange, o: nat, x: nat, e: bool)
    ensures var before, after := Tally(locks, o, x, e), Tally(Carved(locks, owner, range), o, x, e);
      if o == owner && Covers(range, x) then after == 0
      else before <= after <= 2 * before && (range.start <= range.end ==> after == before)
    decreases |locks|
  {
    if locks != [] {
      var init, last := locks[..|locks| - 1], locks[|locks| - 1];
      CarvedTally(init, owner, range, o, x, e);
      CarvedSplit(locks, owner, range, o, x, e);
      if Cut(last, owner, range) {
        PiecesTally(last, range, o, x, e);
      } else {
        OneTally(last, o, x, e);
      }
    }
  }

  lemma CarvedSplit(locks: Locks, owner: nat, range: LockRange, o: nat, x: nat, e: bool)
    requires locks != []
    ensures var init, last := locks[..|locks| - 1], locks[|locks| - 1];
      Tally(Carved(locks, owner, range), o, x, e) == Tally(Carved(init, owner, range), o, x, e)
        + Tally(if Cut(last, owner, range) then Pieces(last, range) else [last], o, x, e)
  {
    var init, last := locks[..|locks| - 1], locks[|locks| - 1];
    TallyConcat(Kept(locks, owner, range), Survivors(locks, owner, range), o, x, e);
    TallyConcat(Kept(init, owner, range), Survivors(init, owner, range), o, x, e);
    if Cut(last, owner, range) {
      TallyConcat(Survivors(init, owner, range), Pieces(last, range), o, x, e);
    } else {
      TallyConcat(Kept(init, owner, range), [last], o, x, e);
    }
  }

  /** Carving frees exactly the range, for its owner only. */
  lemma CarvedMode(locks: Locks, owner: nat, range: LockRange, o: nat, x: nat)
    ensures ModeOf(Carved(locks, owner, range), o, x)
         == if o == owner && Covers(range, x) then Free else ModeOf(locks, o, x)
  {
    CarvedTally(locks, owner, range, o, x, true);
    CarvedTally(locks, owner, range, o, x, false);
  }

  lemma {:induction false} CarvedNonEmpty(locks: Locks, owner: nat, range: LockRange)
    requires NonEmpties(locks)
    ensures NonEmpties(Carved(locks, owner, range))
    decreases |locks|
  {
    if locks != [] {
      var init, last := locks[..|locks| - 1], locks[|locks| - 1];
      assert locks == init + [last];
      CarvedNonEmpty(init, owner, range);
      forall l | l in Carved(locks, owner, range) ensures NonEmpty(l.range) {
        assert l in Carved(init, owner, range) || l in Pieces(last, range) || l == last;
      }
    }
  }

  lemma {:induction false} CarvedUncut(locks: Locks, owner: nat, range: LockRange)
    requires forall l :: l in locks ==> !Cut(l, owner, range)
    ensures Kept(locks, owner, range) == locks && Survivors(locks, owner, range) == []
    decreases |locks|
  {
    if locks != [] {
      var init, last := locks[..|locks| - 1], locks[|locks| - 1];
      assert locks == init + [last];
      CarvedUncut(init, owner, range);
    }
  }

  /** An inverted range leaves two overlapping pieces of each lock it cuts. */
  lemma {:induction false} CarvedTwice(locks: Locks, owner: nat, range: LockRange, l: RangeLock)
    requires range.end < range.start && l in locks && Cut(l, owner, range)
    ensures Tally(Carved(locks, owner, range), owner, range.end, l.exclusive) >= 2
    decreases |locks|
  {
    var init, last := locks[..|locks| - 1], locks[|locks| - 1];
    assert locks == init + [last];
    CarvedSplit(locks, owner, range, owner, range.end, l.exclusive);
    if l == last {
      PiecesTally(l, range, owner, range.end, l.exclusive);
    } else {
      CarvedTwice(init, owner, range, l);
    }
  }

  lemma CarvedSingle(locks: Locks, owner: nat, range: LockRange)
    requires Single(locks) && range.start <= range.end
    ensures Single(Carved(locks, owner, range))
  {
    forall o: nat, x: nat
      ensures Tally(Carved(locks, owner, range), o, x, true) + Tally(Carved(locks, owner, range), o, x, false) <= 1
    {
      CarvedTally(locks, owner, range, o, x, true);
      CarvedTally(locks, owner, range, o, x, false);
      assert Tally(locks, o, x, true) + Tally(locks, o, x, false) <= 1;
    }
  }

  lemma CarvedNoClash(locks: Locks, owner: nat, range: LockRange)
    requires NoClash(locks)
    ensures NoClash(Carved(locks, owner, range))
  {
    forall a: nat, b: nat, x: nat | a != b && ModeOf(Carved(locks, owner, range), a, x) == Exclusive
      ensures ModeOf(Carved(locks, owner, range), b, x) == Free
    {
      CarvedMode(locks, owner, range, a, x);
      CarvedMode(locks, owner, range, b, x);
    }
  }

  /** The table stays well formed unless an inverted range cuts a lock of its owner. */
  lemma CarvedKeepsIff(locks: Locks, owner: nat, range: LockRange)
    requires WellFormed(locks)
    ensures WellFormed(Carved(locks, owner, range))
       <==> range.start <= range.end || forall l :: l in locks ==> !Cut(l, owner, range)
  {
    if range.start <= range.end {
      CarvedNonEmpty(locks, owner, range);
      CarvedSingle(locks, owner, range);
      CarvedNoClash(locks, owner, range);
    } else if l :| l in locks && Cut(l, owner, range) {
      CarvedTwice(locks, owner, range, l);
      assert Tally(Carved(locks, owner, range), owner, range.end, true) >= 2
          || Tally(Carved(locks, owner, range), owner, range.end, false) >= 2;
    } else {
      CarvedUncut(locks, owner, range);
      assert Carved(locks, owner, range) == locks;
    }
  }

  // ----- granting -----

  /** A granted lock replaces what its owner held in the range. */
  function Granted(locks: Locks, lock: RangeLock): Locks { Carved(locks, lock.owner, lock.range) + [lock] }

  /** A granted lock sets exactly its bytes, for its owner only. */
  lemma GrantedMode(locks: Locks, lock: RangeLock, o: nat, x: nat)
    ensures ModeOf(Granted(locks, lock), o, x)
         == if o == lock.owner && Covers(lock.range, x) then ModeFor(lock.exclusive) else ModeOf(locks, o, x)
  {
    forall e ensures Tally(Granted(locks, lock), o, x, e)
                  == Tally(Carved(locks, lock.owner, lock.range), o, x, e) + Hits(lock, o, x, e)
    {
      TallyConcat(Carved(locks, lock.owner, lock.range), [lock], o, x, e);
      OneTally(lock, o, x, e);
    }
    CarvedTally(locks, lock.owner, lock.range, o, x, true);
    CarvedTally(locks, lock.owner, lock.range, o, x, false);
  }

  lemma GrantedModes(locks: Locks, lock: RangeLock)
    ensures Sets(locks, lock, Granted(locks, lock))
  {
    forall o: nat, x: nat ensures ModeOf(Granted(locks, lock), o, x) == WithLock(locks, lock, o, x) {
      GrantedMode(locks, lock, o, x);
    }
  }

  /** The mode of a byte once the lock is granted. */
  function WithLock(locks: Locks, lock: RangeLock, o: nat, x: nat): Mode {
    if o == lock.owner && Covers(lock.range, x) then ModeFor(lock.exclusive) else ModeOf(locks, o, x)
  }

  ghost predicate Sets(locks: Locks, lock: RangeLock, after: Locks) {
    forall o: nat, x: nat :: ModeOf(after, o, x) == WithLock(locks, lock, o, x)
  }

  lemma GrantedSingle(locks: Locks, lock: RangeLock)
    requires Single(locks) && lock.range.start <= lock.range.end
    ensures Single(Granted(locks, lock))
  {
    var carved := Carved(locks, lock.owner, lock.range);
    CarvedSingle(locks, lock.owner, lock.range);
    forall o: nat, x: nat ensures Tally(Granted(locks, lock), o, x, true) + Tally(Granted(locks, lock), o, x, false) <= 1 {
      forall e ensures Tally(Granted(locks, lock), o, x, e) == Tally(carved, o, x, e) + Hits(lock, o, x, e) {
        TallyConcat(carved, [lock], o, x, e);
        OneTally(lock, o, x, e);
      }
      CarvedTally(locks, lock.owner, lock.range, o, x, true);
      CarvedTally(locks, lock.owner, lock.range, o, x, false);
      assert Tally(carved, o, x, true) + Tally(carved, o, x, false) <= 1;
    }
  }

  lemma GrantedNoClash(locks: Locks, lock: RangeLock)
    requires NoClash(locks) && FirstBlock(locks, lock).None?
    ensures NoClash(Granted(locks, lock))
  {
    forall a: nat, b: nat, x: nat | a != b && ModeOf(Granted(locks, lock), a, x) == Exclusive
      ensures ModeOf(Granted(locks, lock), b, x) == Free
    {
      GrantedMode(locks, lock, a, x);
      GrantedMode(locks, lock, b, x);
      if ByteConflict(locks, lock) {
        ByteBlocks(locks, lock);
      } else if Covers(lock.range, x) {
        assert a != lock.owner ==> !Incompatible(ModeOf(locks, a, x), lock.exclusive);
        assert b != lock.owner ==> !Incompatible(ModeOf(locks, b, x), lock.exclusive);
      }
    }
  }

  /** A granted lock leaves the table well formed if and only if it asks for at least one byte. */
  lemma GrantedKeepsIff(locks: Locks, lock: RangeLock)
    requires WellFormed(locks) && FirstBlock(locks, lock).None?
    ensures WellFormed(Granted(locks, lock)) <==> NonEmpty(lock.range)
  {
    assert lock in Granted(locks, lock);
    if NonEmpty(lock.range) {
      CarvedNonEmpty(locks, lock.owner, lock.range);
      GrantedSingle(locks, lock);
      GrantedNoClash(locks, lock);
    }
  }

  // ----- dropping an owner -----

  function Others(locks: Locks, owner: nat): Locks {
    if locks == [] then []
    else
      var init, last := locks[..|locks| - 1], locks[|locks| - 1];
      if last.owner == owner then Others(init, owner) else Others(init, owner) + [last]
  }

  lemma {:induction false} OthersTally(locks: Locks, owner: nat, o: nat, x: nat, e: bool)
    ensures Tally(Others(locks, owner), o, x, e) == if o == owner then 0 else Tally(locks, o, x, e)
    decreases |locks|
  {
    if locks != [] {
      var init, last := locks[..|locks| - 1], locks[|locks| - 1];
      OthersTally(init, owner, o, x, e);
      TallyConcat(Others(init, owner), [last], o, x, e);
      OneTally(last, o, x, e);
    }
  }

  lemma {:induction false} OthersWithin(locks: Locks, owner: nat)
    ensures forall l :: l in Others(locks, owner) ==> l in locks
    decreases |locks|
  {
    if locks != [] {
      assert locks == locks[..|locks| - 1] + [locks[|locks| - 1]];
      OthersWithin(locks[..|locks| - 1], owner);
    }
  }

  /** Dropping an owner frees all its bytes and changes nothing for the others. */
  lemma OthersMode(locks: Locks, owner: nat, o: nat, x: nat)
    ensures ModeOf(Others(locks, owner), o, x) == if o == owner then Free else ModeOf(locks, o, x)
  {
    OthersTally(locks, owner, o, x, true);
    OthersTally(locks, owner, o, x, false);
  }

  lemma OthersKeeps(locks: Locks, owner: nat)
    requires WellFormed(locks)
    ensures WellFormed(Others(locks, owner))
  {
    OthersWithin(locks, owner);
    forall o: nat, x: nat ensures Tally(Others(locks, owner), o, x, true) + Tally(Others(locks, owner), o, x, false) <= 1 {
      OthersTally(locks, owner, o, x, true);
      OthersTally(locks, owner, o, x, false);
      assert Tally(locks, o, x, true) + Tally(locks, o, x, false) <= 1;
    }
    forall a: nat, b: nat, x: nat | a != b && ModeOf(Others(locks, owner), a, x) == Exclusive
      ensures ModeOf(Others(locks, owner), b, x) == Free
    {
      OthersMode(locks, owner, a, x);
      OthersMode(locks, owner, b, x);
    }
  }

  // ----- the table -----

  type Table = map<nat, Locks>

  function LocksOf(t: Table, ino: nat): Locks { if ino in t then t[ino] else [] }

  /** No file keeps an empty list, and every list is well formed. */
  ghost predicate Sound(t: Table) { forall ino :: ino in t ==> t[ino] != [] && WellFormed(t[ino]) }

  lemma EmptyWellFormed()
    ensures WellFormed([])
  {
  }

  /** One file's locks with the lock added, or the first lock in its way. */
  method TryOn(locks: Locks, lock: RangeLock) returns (r: Result<Locks, RangeLock>)
    ensures r.Err? <==> FirstBlock(locks, lock).Some?
    ensures r.Err? ==> Some(r.error) == FirstBlock(locks, lock)
    ensures r.Ok? ==> r.value != [] && Sets(locks, lock, r.value)
    ensures r.Ok? && WellFormed(locks) ==> (WellFormed(r.value) <==> NonEmpty(lock.range))
    ensures r.Ok? ==> !ByteConflict(locks, lock)
    ensures WellFormed(locks) && NonEmpty(lock.range) ==> (r.Err? <==> ByteConflict(locks, lock))
  {
    if ByteConflict(locks, lock) { ByteBlocks(locks, lock); }
    if WellFormed(locks) && NonEmpty(lock.range) { RefusedByByte(locks, lock); }
    var conflict := FindBlock(locks, lock);
    if conflict.Some? {
      return Err(conflict.value);
    }
    var carved := Carve(locks, lock.owner, lock.range);
    GrantedModes(locks, lock);
    if WellFormed(locks) { GrantedKeepsIff(locks, lock); }
    assert carved + [lock] == Granted(locks, lock);
    return Ok(carved + [lock]);
  }

  class RangeLockTable {
    var byIno: Table

    constructor ()
      ensures byIno == map[] && Sound(byIno)
    {
      byIno := map[];
    }

    ghost function Mode(ino: nat, owner: nat, x: nat): Mode
      reads this
    {
      ModeOf(LocksOf(byIno, ino), owner, x)
    }

    /** Refuses with the first lock in the way, or sets exactly the bytes of the range for its owner. */
    method TryLock(ino: nat, lock: RangeLock) returns (r: Result<(), RangeLock>)
      modifies this
      ensures r.Err? <==> old(FirstBlock(LocksOf(byIno, ino), lock)).Some?
      ensures r.Err? ==> Some(r.error) == old(FirstBlock(LocksOf(byIno, ino), lock)) && byIno == old(byIno)
      ensures r.Ok? ==> forall i: nat, o: nat, x: nat ::
        Mode(i, o, x) == if i == ino && o == lock.owner && Covers(lock.range, x) then ModeFor(lock.exclusive)
                         else old(Mode(i, o, x))
      ensures r.Ok? && old(Sound(byIno)) ==> (Sound(byIno) <==> NonEmpty(lock.range))
      ensures r.Ok? ==> !old(ByteConflict(LocksOf(byIno, ino), lock))
      ensures old(Sound(byIno)) && NonEmpty(lock.range) ==> (r.Err? <==> old(ByteConflict(LocksOf(byIno, ino), lock)))
    {
      var r' := TryOn(LocksOf(byIno, ino), lock);
      if r'.Err? {
        return Err(r'.error);
      }
      if Sound(byIno) { EmptyWellFormed(); }
      byIno := byIno[ino := r'.value];
      assert byIno[ino] == r'.value;
      return Ok(());
    }

    /** Exactly the lock `TryLock` would be refused with. */
    method Test(ino: nat, probe: RangeLock) returns (r: Option<RangeLock>)
      ensures r == FirstBlock(LocksOf(byIno, ino), probe)
    {
      if ino !in byIno {
        return None;
      }
      r := FindBlock(byIno[ino], probe);
    }

    /** Clears exactly the bytes of the range for the owner. */
    method Unlock(ino: nat, owner: nat, range: LockRange)
      modifies this
      ensures forall i: nat, o: nat, x: nat ::
        Mode(i, o, x) == if i == ino && o == owner && Covers(range, x) then Free else old(Mode(i, o, x))
      ensures old(Sound(byIno)) ==>
        (Sound(byIno) <==> range.start <= range.end || forall l :: l in old(LocksOf(byIno, ino)) ==> !Cut(l, owner, range))
    {
      var locks := LocksOf(byIno, ino);
      forall o: nat, x: nat ensures ModeOf(Carved(locks, owner, range), o, x) ==
        if o == owner && Covers(range, x) then Free else ModeOf(locks, o, x)
      {
        CarvedMode(locks, owner, range, o, x);
      }
      if ino in byIno {
        var carved := Carve(byIno[ino], owner, range);
        byIno := byIno[ino := carved];
        if carved == [] {
          byIno := byIno - {ino};
        }
        if old(Sound(byIno)) {
          EmptyWellFormed();
          CarvedKeepsIff(locks, owner, range);
          assert ino in byIno ==> byIno[ino] == carved;
        }
      }
    }

    /** Frees everything an owner holds, on every file, and nothing else. */
    method UnlockOwner(owner: nat)
      modifies this
      ensures forall i: nat, o: nat, x: nat :: Mode(i, o, x) == if o == owner then Free else old(Mode(i, o, x))
      ensures old(Sound(byIno)) ==> Sound(byIno)
    {
      byIno := map ino | ino in byIno && Others(byIno[ino], owner) != [] :: Others(byIno[ino], owner);
      forall i: nat, o: nat, x: nat ensures Mode(i, o, x) == if o == owner then Free else old(Mode(i, o, x)) {
        OthersMode(old(LocksOf(byIno, i)), owner, o, x);
      }
      if old(Sound(byIno)) {
        forall ino | ino in byIno ensures WellFormed(byIno[ino]) { OthersKeeps(old(byIno)[ino], owner); }
      }
    }
  }
}
