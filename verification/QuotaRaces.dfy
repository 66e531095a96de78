/** Reservations racing on the quota tracker (crates/slatefs-core/src/quota.rs, `reserve` and `release`). Each
    atomic addition or subtraction is one step; any number of threads take their steps in any order. */
module QuotaRaces {
  import opened Common
  import opened Quota

  /** Where a thread is in `reserve`, or in the `release` after a failed commit. */
  datatype Phase =
    | Waiting          // nothing added yet
    | TookBytes        // bytes added and admitted
    | RefusedBytes     // bytes added and refused, to be subtracted
    | Granted          // both added and admitted
    | RefusedInodes    // both added, inodes refused, to be subtracted first
    | UndoneInodes     // bytes still to be subtracted
    | Releasing        // released bytes, inodes still to be subtracted
    | Rejected
    | Released

  datatype Thread = Thread(bytes: int, inodes: int, now: nat, phase: Phase)

  datatype Shared = Shared(threads: seq<Thread>, bytes: int, inodes: int)

  datatype Counter = Bytes | Inodes

  function Usage(s: Shared, w: Counter): int { if w.Bytes? then s.bytes else s.inodes }

  function Limit(limits: QuotaLimits, w: Counter): QuotaLimit { if w.Bytes? then limits.bytes else limits.inodes }

  function Delta(t: Thread, w: Counter): int { if w.Bytes? then t.bytes else t.inodes }

  /** The thread's delta is in the counter now. */
  predicate Charged(p: Phase, w: Counter) {
    match w
    case Bytes => p in {TookBytes, RefusedBytes, Granted, RefusedInodes, UndoneInodes}
    case Inodes => p in {Granted, RefusedInodes, Releasing}
  }

  /** The counter was checked for the thread and admitted it. */
  predicate Admitted(p: Phase, w: Counter) {
    match w
    case Bytes => p in {TookBytes, Granted, RefusedInodes, UndoneInodes}
    case Inodes => p in {Granted, Releasing}
  }

  predicate Done(p: Phase) { p in {Granted, Rejected, Released} }

  // ----- steps -----

  predicate Refuses(delta: int, usage: int, limit: QuotaLimit, now: nat) { delta > 0 && ExceedsLimit(usage, limit, now) }

  /** The next atomic step of thread `k`; a granted thread steps only to release. */
  function Step(limits: QuotaLimits, s: Shared, k: nat): Shared
    requires k < |s.threads|
  {
    var t := s.threads[k];
    match t.phase
    case Waiting =>
      var usage := s.bytes + t.bytes;
      Put(s, k, if Refuses(t.bytes, usage, limits.bytes, t.now) then RefusedBytes else TookBytes).(bytes := usage)
    case TookBytes =>
      var usage := s.inodes + t.inodes;
      Put(s, k, if Refuses(t.inodes, usage, limits.inodes, t.now) then RefusedInodes else Granted).(inodes := usage)
    case RefusedBytes => Put(s, k, Rejected).(bytes := s.bytes - t.bytes)
    case RefusedInodes => Put(s, k, UndoneInodes).(inodes := s.inodes - t.inodes)
    case UndoneInodes => Put(s, k, Rejected).(bytes := s.bytes - t.bytes)
    case Granted => Put(s, k, Releasing).(bytes := s.bytes - t.bytes)
    case Releasing => Put(s, k, Released).(inodes := s.inodes - t.inodes)
    case Rejected => s
    case Released => s
  }

  function Put(s: Shared, k: nat, p: Phase): Shared
    requires k < |s.threads|
  {
    s.(threads := s.threads[k := s.threads[k].(phase := p)])
  }

  /** The step takes back a delta that the counter had admitted. */
  predicate TakesBack(s: Shared, k: nat, w: Counter)
    requires k < |s.threads|
  {
    match w
    case Bytes => s.threads[k].phase in {UndoneInodes, Granted}
    case Inodes => s.threads[k].phase == Releasing
  }

  // ----- totals -----

  function Part(t: Thread, w: Counter, admitted: bool): int {
    if (if admitted then Admitted(t.phase, w) else Charged(t.phase, w)) then Delta(t, w) else 0
  }

  function Total(threads: seq<Thread>, w: Counter, admitted: bool): int {
    if threads == [] then 0
    else Total(threads[..|threads| - 1], w, admitted) + Part(threads[|threads| - 1], w, admitted)
  }

  lemma {:induction false} TotalUpdate(threads: seq<Thread>, k: nat, t: Thread, w: Counter, admitted: bool)
    requires k < |threads|
    ensures Total(threads[k := t], w, admitted)
         == Total(threads, w, admitted) - Part(threads[k], w, admitted) + Part(t, w, admitted)
    decreases |threads|
  {
    var init := threads[..|threads| - 1];
    if k == |init| {
      assert threads[k := t][..|init|] == init;
    } else {
      assert threads[k := t][..|init|] == init[k := t];
      TotalUpdate(init, k, t, w, admitted);
    }
  }

  /** Only growth is refused. */
  predicate Honest(t: Thread) { (t.phase == RefusedBytes ==> t.bytes > 0) && (t.phase == RefusedInodes ==> t.inodes > 0) }

  lemma {:induction false} AdmittedAtMostCharged(threads: seq<Thread>, w: Counter)
    requires forall k :: 0 <= k < |threads| ==> Honest(threads[k])
    ensures Total(threads, w, true) <= Total(threads, w, false)
    decreases |threads|
  {
    if threads != [] { AdmittedAtMostCharged(threads[..|threads| - 1], w); }
  }

  lemma {:induction false} QuiescentTotals(threads: seq<Thread>, w: Counter)
    requires forall k :: 0 <= k < |threads| ==> Done(threads[k].phase)
    ensures Total(threads, w, true) == Total(threads, w, false)
    decreases |threads|
  {
    if threads != [] { QuiescentTotals(threads[..|threads| - 1], w); }
  }

  // ----- the invariant -----

  /** The counter is its start value plus what is charged to it. */
  ghost predicate Balanced(s: Shared, w: Counter, base: int) {
    Usage(s, w) == base + Total(s.threads, w, false) && forall k :: 0 <= k < |s.threads| ==> Honest(s.threads[k])
  }

  /** What has been admitted and not given back is within the hard limit. */
  ghost predicate Within(limits: QuotaLimits, s: Shared, w: Counter, base: int) {
    Limit(limits, w).hard.Some? ==> base + Total(s.threads, w, true) <= Limit(limits, w).hard.value
  }

  lemma StepBalanced(limits: QuotaLimits, s: Shared, k: nat, w: Counter, base: int)
    requires Balanced(s, w, base) && k < |s.threads|
    ensures Balanced(Step(limits, s, k), w, base)
  {
    var after := Step(limits, s, k);
    assert after.threads == s.threads[k := after.threads[k]];
    TotalUpdate(s.threads, k, after.threads[k], w, false);
  }

  /** A step keeps the total within the limit unless it takes back a free. */
  lemma StepWithin(limits: QuotaLimits, s: Shared, k: nat, w: Counter, base: int)
    requires Balanced(s, w, base) && Within(limits, s, w, base) && k < |s.threads|
    requires TakesBack(s, k, w) ==> Delta(s.threads[k], w) >= 0
    ensures Within(limits, Step(limits, s, k), w, base)
  {
    var after := Step(limits, s, k);
    assert after.threads == s.threads[k := after.threads[k]];
    TotalUpdate(s.threads, k, after.threads[k], w, true);
    AdmittedAtMostCharged(s.threads, w);
  }

  // ----- runs -----

  function Steps(limits: QuotaLimits, s: Shared, order: seq<nat>): Shared
    requires forall i :: 0 <= i < |order| ==> order[i] < |s.threads|
    ensures |Steps(limits, s, order).threads| == |s.threads|
    decreases |order|
  {
    if order == [] then s else
      var last := |order| - 1;
      Step(limits, Steps(limits, s, order[..last]), order[last])
  }

  ghost predicate Legal(s: Shared, order: seq<nat>) { forall i :: 0 <= i < |order| ==> order[i] < |s.threads| }

  /** Every delta taken back along the run satisfies `ok`. */
  ghost predicate TakenBack(limits: QuotaLimits, s: Shared, order: seq<nat>, w: Counter, ok: int -> bool)
    requires Legal(s, order)
  {
    forall i :: 0 <= i < |order| && TakesBack(Steps(limits, s, order[..i]), order[i], w) ==>
      ok(Delta(s.threads[order[i]], w))
  }

  ghost predicate Fresh(s: Shared) { forall k :: 0 <= k < |s.threads| ==> s.threads[k].phase == Waiting }

  lemma {:induction false} FreshTotals(threads: seq<Thread>, w: Counter, admitted: bool)
    requires forall k :: 0 <= k < |threads| ==> threads[k].phase == Waiting
    ensures Total(threads, w, admitted) == 0
    decreases |threads|
  {
    if threads != [] { FreshTotals(threads[..|threads| - 1], w, admitted); }
  }

  lemma {:induction false} StepsKeepDeltas(limits: QuotaLimits, s: Shared, order: seq<nat>, k: nat, w: Counter)
    requires Legal(s, order) && k < |s.threads|
    ensures Delta(Steps(limits, s, order).threads[k], w) == Delta(s.threads[k], w)
    decreases |order|
  {
    if order != [] { StepsKeepDeltas(limits, s, order[..|order| - 1], k, w); }
  }

  lemma {:induction false} RunBalanced(limits: QuotaLimits, s: Shared, order: seq<nat>, w: Counter)
    requires Fresh(s) && Legal(s, order)
    ensures Balanced(Steps(limits, s, order), w, Usage(s, w))
    decreases |order|
  {
    if order == [] {
      FreshTotals(s.threads, w, false);
    } else {
      var last := |order| - 1;
      RunBalanced(limits, s, order[..last], w);
      StepBalanced(limits, Steps(limits, s, order[..last]), order[last], w, Usage(s, w));
    }
  }

  /** Rejected and released reservations leave nothing behind: once every thread is done, each counter is its
      start value plus exactly the deltas granted and kept. */
  lemma NoResidue(limits: QuotaLimits, s: Shared, order: seq<nat>, w: Counter)
    requires Fresh(s) && Legal(s, order)
    requires forall k :: 0 <= k < |s.threads| ==> Done(Steps(limits, s, order).threads[k].phase)
    ensures Usage(Steps(limits, s, order), w) == Usage(s, w) + Total(Steps(limits, s, order).threads, w, true)
  {
    RunBalanced(limits, s, order, w);
    QuiescentTotals(Steps(limits, s, order).threads, w);
  }

  /** In every interleaving that starts within the hard limit and takes back no free, what is granted stays
      within the hard limit at every step. */
  lemma {:induction false} RunWithin(limits: QuotaLimits, s: Shared, order: seq<nat>, w: Counter)
    requires Fresh(s) && Legal(s, order) && TakenBack(limits, s, order, w, d => d >= 0)
    requires Limit(limits, w).hard.Some? ==> Usage(s, w) <= Limit(limits, w).hard.value
    ensures Within(limits, Steps(limits, s, order), w, Usage(s, w))
    decreases |order|
  {
    if order == [] {
      FreshTotals(s.threads, w, true);
    } else {
      var last := |order| - 1;
      var init := order[..last];
      forall i | 0 <= i < last ensures order[..i] == init[..i] {}
      RunWithin(limits, s, init, w);
      RunBalanced(limits, s, init, w);
      assert TakesBack(Steps(limits, s, order[..last]), order[last], w) ==> Delta(s.threads[order[last]], w) >= 0;
      StepsKeepDeltas(limits, s, init, order[last], w);
      StepWithin(limits, Steps(limits, s, init), order[last], w, Usage(s, w));
    }
  }

  // ----- frees that are rolled back -----

  function HardBytes(hard: nat): QuotaLimits {
    QuotaLimits(QuotaLimit(None, Some(hard), None), QuotaLimit(None, None, None))
  }

  /** However the run goes, taking back deltas of size `b` leaves the granted total within the limit. */
  ghost predicate SafeToTakeBack(hard: nat, b: int) {
    forall s, order :: Legal(s, order) && Fresh(s) && s.bytes <= hard
      && TakenBack(HardBytes(hard), s, order, Bytes, d => d == b)
      ==> Within(HardBytes(hard), Steps(HardBytes(hard), s, order), Bytes, s.bytes)
  }

  /** A full volume frees, another thread is granted the room, and then the free is rolled back. */
  const SCENE_ORDER: seq<nat> := [0, 0, 1, 1, 0]

  function Scene(hard: nat, b: int, i: nat): Shared {
    var free := if i == 0 then Waiting else if i == 1 then TookBytes else if i < 5 then Granted else Releasing;
    var grow := if i < 3 then Waiting else if i == 3 then TookBytes else Granted;
    var bytes := if i == 0 then hard else if i < 3 then hard + b else if i < 5 then hard else hard - b;
    Shared([Thread(b, 0, 0, free), Thread(-b, 0, 0, grow)], bytes, 0)
  }

  lemma SceneStep(hard: nat, b: int, i: nat)
    requires b < 0 && i < 5
    ensures Step(HardBytes(hard), Scene(hard, b, i), SCENE_ORDER[i]) == Scene(hard, b, i + 1)
  {
  }

  lemma {:induction false} SceneSteps(hard: nat, b: int, i: nat)
    requires b < 0 && i <= 5
    ensures Steps(HardBytes(hard), Scene(hard, b, 0), SCENE_ORDER[..i]) == Scene(hard, b, i)
    decreases i
  {
    if i > 0 {
      SceneSteps(hard, b, i - 1);
      SceneStep(hard, b, i - 1);
      assert SCENE_ORDER[..i][..i - 1] == SCENE_ORDER[..i - 1];
    }
  }

  lemma SceneTakesBack(hard: nat, b: int)
    requires b < 0
    ensures TakenBack(HardBytes(hard), Scene(hard, b, 0), SCENE_ORDER, Bytes, d => d == b)
  {
    forall i | 0 <= i < 5 && TakesBack(Steps(HardBytes(hard), Scene(hard, b, 0), SCENE_ORDER[..i]), SCENE_ORDER[i], Bytes)
      ensures Delta(Scene(hard, b, 0).threads[SCENE_ORDER[i]], Bytes) == b
    {
      SceneSteps(hard, b, i);
    }
  }

  lemma TwoTotal(t: Thread, u: Thread, w: Counter, admitted: bool)
    ensures Total([t, u], w, admitted) == Part(t, w, admitted) + Part(u, w, admitted)
  {
    assert [t, u][..1] == [t] && [t][..0] == [];
    assert Total([t], w, admitted) == Part(t, w, admitted);
  }

  lemma FreeRolledBack(hard: nat, b: int)
    requires b < 0
    ensures !SafeToTakeBack(hard, b)
  {
    var s, after := Scene(hard, b, 0), Scene(hard, b, 5);
    SceneTakesBack(hard, b);
    SceneSteps(hard, b, 5);
    assert SCENE_ORDER[..5] == SCENE_ORDER;
    TwoTotal(after.threads[0], after.threads[1], Bytes, true);
    assert after.threads == [after.threads[0], after.threads[1]];
    assert Legal(s, SCENE_ORDER) && Fresh(s);
    assert !Within(HardBytes(hard), Steps(HardBytes(hard), s, SCENE_ORDER), Bytes, s.bytes);
  }

  /** The limit survives rollbacks of a given delta, in every company and order, if and only if it is no free. */
  lemma TakeBackSafeIff(hard: nat, b: int)
    ensures SafeToTakeBack(hard, b) <==> b >= 0
  {
    if b < 0 {
      FreeRolledBack(hard, b);
    } else {
      forall s, order | Legal(s, order) && Fresh(s) && s.bytes <= hard
        && TakenBack(HardBytes(hard), s, order, Bytes, d => d == b)
        ensures Within(HardBytes(hard), Steps(HardBytes(hard), s, order), Bytes, s.bytes)
      {
        RunWithin(HardBytes(hard), s, order, Bytes);
      }
    }
  }
}
