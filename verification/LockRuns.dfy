/** Runs of the byte-range lock table (crates/slatefs-core/src/locks.rs) against a table of bytes: each byte of each
    file is free, shared or exclusive for each owner, and the last operation on it that took effect decides which. */
module LockRuns {
  import opened RangeLocks

  datatype Op =
    | Lock(ino: nat, lock: RangeLock)
    | Unlock(ino: nat, owner: nat, range: LockRange)
    | Drop(owner: nat)

  /** What the owner holds of byte `x` after the first `n` operations, given which locks were granted. */
  function Held(ops: seq<Op>, oks: seq<bool>, n: nat, ino: nat, owner: nat, x: nat): Mode
    requires n <= |oks| <= |ops|
  {
    if n == 0 then Free
    else
      var before := Held(ops, oks, n - 1, ino, owner, x);
      match ops[n - 1]
      case Lock(i, lock) =>
        if oks[n - 1] && i == ino && lock.owner == owner && Covers(lock.range, x) then ModeFor(lock.exclusive) else before
      case Unlock(i, o, range) => if i == ino && o == owner && Covers(range, x) then Free else before
      case Drop(o) => if o == owner then Free else before
  }

  /** A byte of the request is held incompatibly by another owner. */
  ghost predicate HeldAgainst(ops: seq<Op>, oks: seq<bool>, n: nat, ino: nat, lock: RangeLock)
    requires n <= |oks| <= |ops|
  {
    exists owner: nat, x: nat ::
      owner != lock.owner && Covers(lock.range, x) && Incompatible(Held(ops, oks, n, ino, owner, x), lock.exclusive)
  }

  /** After `n` operations no byte is exclusive for one owner and held by another. */
  ghost predicate Exclusion(ops: seq<Op>, oks: seq<bool>, n: nat)
    requires n <= |oks| <= |ops|
  {
    forall ino: nat, a: nat, b: nat, x: nat ::
      a != b && Held(ops, oks, n, ino, a, x) == Exclusive ==> Held(ops, oks, n, ino, b, x) == Free
  }

  /** Later operations do not change what was held before them. */
  lemma {:induction false} HeldPrefix(ops: seq<Op>, oks: seq<bool>, ok: bool, n: nat, ino: nat, owner: nat, x: nat)
    requires n <= |oks| < |ops|
    ensures Held(ops, oks + [ok], n, ino, owner, x) == Held(ops, oks, n, ino, owner, x)
  {
    if n > 0 { HeldPrefix(ops, oks, ok, n - 1, ino, owner, x); }
  }

  lemma ExclusionStep(ops: seq<Op>, oks: seq<bool>, n: nat)
    requires n < |oks| <= |ops| && Exclusion(ops, oks, n)
    requires ops[n].Lock? && oks[n] ==> !HeldAgainst(ops, oks, n, ops[n].ino, ops[n].lock)
    ensures Exclusion(ops, oks, n + 1)
  {
    var m := n + 1;
    forall ino: nat, a: nat, b: nat, x: nat | a != b && Held(ops, oks, m, ino, a, x) == Exclusive
      ensures Held(ops, oks, m, ino, b, x) == Free
    {
      var ha, hb := Held(ops, oks, n, ino, a, x), Held(ops, oks, n, ino, b, x);
      assert ha == Exclusive ==> hb == Free;
      assert hb == Exclusive ==> ha == Free;
    }
  }

  /** A lock asks for at least one byte, and an unlock names a range the right way round. */
  predicate Proper(op: Op) {
    (op.Lock? ==> NonEmpty(op.lock.range)) && (op.Unlock? ==> op.range.start <= op.range.end)
  }

  /** The table holds, byte for byte, what the run says. */
  ghost predicate Shows(t: Table, ops: seq<Op>, oks: seq<bool>, n: nat)
    requires n <= |oks| <= |ops|
  {
    forall ino: nat, owner: nat, x: nat :: ModeOf(LocksOf(t, ino), owner, x) == Held(ops, oks, n, ino, owner, x)
  }

  /** A lock granted next is over bytes that nothing is held against. */
  ghost predicate GrantedFree(ops: seq<Op>, oks: seq<bool>, ok: bool)
    requires |oks| < |ops|
  {
    ops[|oks|].Lock? && ok ==> !HeldAgainst(ops, oks, |oks|, ops[|oks|].ino, ops[|oks|].lock)
  }

  /** One operation on a table that shows the run so far. */
  method Perform(t: RangeLockTable, ops: seq<Op>, oks: seq<bool>) returns (ok: bool)
    requires |oks| < |ops| && Shows(t.byIno, ops, oks, |oks|)
    modifies t
    ensures Shows(t.byIno, ops, oks + [ok], |oks| + 1)
    ensures GrantedFree(ops, oks, ok)
    ensures old(Sound(t.byIno)) && Proper(ops[|oks|]) ==>
      Sound(t.byIno) && (ops[|oks|].Lock? ==> (ok <==> !HeldAgainst(ops, oks, |oks|, ops[|oks|].ino, ops[|oks|].lock)))
  {
    var op := ops[|oks|];
    ghost var before, n := t.byIno, |oks|;
    ok := true;
    match op {
      case Lock(ino, lock) =>
        SameConflict(before, ops, oks, ino, lock);
        var r := t.TryLock(ino, lock);
        ok := r.Ok?;
      case Unlock(ino, owner, range) => t.Unlock(ino, owner, range);
      case Drop(owner) => t.UnlockOwner(owner);
    }
    forall ino: nat, owner: nat, x: nat
      ensures ModeOf(LocksOf(t.byIno, ino), owner, x) == Held(ops, oks + [ok], n + 1, ino, owner, x)
    {
      HeldPrefix(ops, oks, ok, n, ino, owner, x);
      assert t.Mode(ino, owner, x) == ModeOf(LocksOf(t.byIno, ino), owner, x);
      assert ModeOf(LocksOf(before, ino), owner, x) == Held(ops, oks, n, ino, owner, x);
    }
  }

  lemma SameConflict(t: Table, ops: seq<Op>, oks: seq<bool>, ino: nat, lock: RangeLock)
    requires |oks| <= |ops| && Shows(t, ops, oks, |oks|)
    ensures ByteConflict(LocksOf(t, ino), lock) <==> HeldAgainst(ops, oks, |oks|, ino, lock)
  {
  }

  lemma ExclusionMore(ops: seq<Op>, oks: seq<bool>, ok: bool, n: nat)
    requires n <= |oks| < |ops|
    ensures Exclusion(ops, oks + [ok], n) <==> Exclusion(ops, oks, n)
    ensures forall ino: nat, lock: RangeLock ::
      HeldAgainst(ops, oks + [ok], n, ino, lock) <==> HeldAgainst(ops, oks, n, ino, lock)
  {
    forall ino: nat, owner: nat, x: nat
      ensures Held(ops, oks + [ok], n, ino, owner, x) == Held(ops, oks, n, ino, owner, x)
    {
      HeldPrefix(ops, oks, ok, n, ino, owner, x);
    }
  }

  /** After every run from an empty table, whatever its ranges: the table shows exactly the bytes the run has set, and
      at no moment was a byte exclusive for one owner and held by another. If every range is proper, a lock was refused
      exactly when one of its bytes was held incompatibly at that moment. */
  method Run(t: RangeLockTable, ops: seq<Op>) returns (oks: seq<bool>)
    requires t.byIno == map[]
    modifies t
    ensures |oks| == |ops| && Shows(t.byIno, ops, oks, |ops|)
    ensures forall n: nat :: n <= |ops| ==> Exclusion(ops, oks, n)
    ensures (forall op :: op in ops ==> Proper(op)) ==>
      forall n: nat :: n < |ops| && ops[n].Lock? ==> (oks[n] <==> !HeldAgainst(ops, oks, n, ops[n].ino, ops[n].lock))
  {
    oks := [];
    while |oks| < |ops|
      invariant |oks| <= |ops| && Shows(t.byIno, ops, oks, |oks|)
      invariant forall n: nat :: n <= |oks| ==> Exclusion(ops, oks, n)
      invariant (forall op :: op in ops ==> Proper(op)) ==>
        && Sound(t.byIno)
        && forall n: nat :: n < |oks| && ops[n].Lock? ==> (oks[n] <==> !HeldAgainst(ops, oks, n, ops[n].ino, ops[n].lock))
    {
      assert ops[|oks|] in ops;
      var ok := Perform(t, ops, oks);
      forall n: nat | n <= |oks| ensures Exclusion(ops, oks + [ok], n) { ExclusionMore(ops, oks, ok, n); }
      Ahead(ops, oks, ok);
      oks := oks + [ok];
    }
  }

  lemma Ahead(ops: seq<Op>, oks: seq<bool>, ok: bool)
    requires |oks| < |ops|
    ensures forall n: nat, ino: nat, lock: RangeLock :: n <= |oks| ==>
      (HeldAgainst(ops, oks + [ok], n, ino, lock) <==> HeldAgainst(ops, oks, n, ino, lock))
    ensures Exclusion(ops, oks, |oks|) && GrantedFree(ops, oks, ok) ==> Exclusion(ops, oks + [ok], |oks| + 1)
  {
    forall n: nat, ino: nat, lock: RangeLock | n <= |oks|
      ensures HeldAgainst(ops, oks + [ok], n, ino, lock) <==> HeldAgainst(ops, oks, n, ino, lock)
    {
      ExclusionMore(ops, oks, ok, n);
    }
    ExclusionMore(ops, oks, ok, |oks|);
    if Exclusion(ops, oks, |oks|) && GrantedFree(ops, oks, ok) {
      ExclusionStep(ops, oks + [ok], |oks|);
    }
  }
}
