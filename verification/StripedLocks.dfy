/** Striped write locks (crates/slatefs-core/src/locks.rs, `LockManager`): which stripes a request takes, and
    what any number of tasks taking them one at a time can and cannot do to each other. */
module StripedLocks {
  const STRIPES: nat := 1024
  const MIX: nat := 0x9E37_79B9_7F4A_7C15
  const TWO_64: nat := 0x1_0000_0000_0000_0000
  const TWO_52: nat := 0x10_0000_0000_0000

  /** The top twelve bits of a wrapping product, reduced to a stripe. */
  function StripeOf(ino: nat): (s: nat)
    ensures s < STRIPES
  {
    ino * MIX % TWO_64 / TWO_52 % STRIPES
  }

  /** A `write_many` or a `write_range` call; the range is inclusive. */
  datatype Request = Many(inos: seq<nat>) | Range(first: nat, last: nat)

  predicate Wants(r: Request, ino: nat) {
    match r
    case Many(inos) => ino in inos
    case Range(first, last) => first <= ino <= last
  }

  ghost predicate Ascending(s: seq<nat>) { forall i, j :: 0 <= i < j < |s| ==> s[i] < s[j] }

  /** The stripes a request takes, in the order it takes them: ascending, and covering all it wants. */
  ghost predicate Plan(r: Request, plan: seq<nat>) {
    && Ascending(plan) && (forall s :: s in plan ==> s < STRIPES)
    && forall ino: nat :: Wants(r, ino) ==> StripeOf(ino) in plan
  }

  // ----- planning -----

  /** Sorting and removing duplicates, one element at a time. */
  function Insert(x: nat, s: seq<nat>): (r: seq<nat>)
    requires Ascending(s)
    ensures Ascending(r) && forall y :: y in r <==> y == x || y in s
    ensures r != [] && (r[0] == x || (s != [] && r[0] == s[0]))
  {
    if s == [] then [x]
    else if x < s[0] then [x] + s
    else if x == s[0] then s
    else [s[0]] + Insert(x, s[1..])
  }

  method PlanMany(inos: seq<nat>) returns (plan: seq<nat>)
    ensures Plan(Many(inos), plan)
    ensures forall s :: s in plan ==> exists ino :: ino in inos && StripeOf(ino) == s
  {
    plan := [];
    for k := 0 to |inos|
      invariant Ascending(plan)
      invariant forall j :: 0 <= j < k ==> StripeOf(inos[j]) in plan
      invariant forall s :: s in plan ==> exists j :: 0 <= j < k && StripeOf(inos[j]) == s
    {
      plan := Insert(StripeOf(inos[k]), plan);
    }
  }

  /** A range of at least as many keys as there are stripes takes them all. */
  method PlanRange(first: nat, last: nat) returns (plan: seq<nat>)
    ensures Plan(Range(first, last), plan)
    ensures last - first + 1 < STRIPES ==> forall s :: s in plan ==> exists i: nat :: first <= i <= last && StripeOf(i) == s
  {
    if first > last {
      return [];
    }
    if last - first + 1 >= STRIPES {
      plan := seq(STRIPES, i => i);
      forall ino: nat ensures StripeOf(ino) in plan { assert plan[StripeOf(ino)] == StripeOf(ino); }
      return;
    }
    plan := [];
    for ino := first to last + 1
      invariant Ascending(plan) && forall s :: s in plan ==> s < STRIPES
      invariant forall i: nat :: first <= i < ino ==> StripeOf(i) in plan
      invariant forall s :: s in plan ==> exists i: nat :: first <= i < ino && StripeOf(i) == s
    {
      plan := Insert(StripeOf(ino), plan);
    }
  }

  // ----- tasks -----

  /** A task has acquired the first `got` stripes of its plan; when it finishes it gives them all back. */
  datatype Task = Task(request: Request, plan: seq<nat>, got: nat, finished: bool)

  ghost predicate Holds(t: Task, s: nat) { !t.finished && exists j :: 0 <= j < t.got && j < |t.plan| && t.plan[j] == s }

  /** A task with all its guards. */
  predicate Inside(t: Task) { !t.finished && t.got == |t.plan| }

  ghost predicate TaskOk(t: Task) { Plan(t.request, t.plan) && t.got <= |t.plan| }

  /** No stripe has two holders. */
  ghost predicate Inv(tasks: seq<Task>) {
    && (forall t :: t in tasks ==> TaskOk(t))
    && forall a, b, s :: 0 <= a < b < |tasks| && Holds(tasks[a], s) ==> !Holds(tasks[b], s)
  }

  ghost predicate Start(tasks: seq<Task>) {
    forall t :: t in tasks ==> TaskOk(t) && t.got == 0 && !t.finished
  }

  ghost predicate FreeFor(tasks: seq<Task>, s: nat) { forall t :: t in tasks ==> !Holds(t, s) }

  /** Task `k` can take its next stripe, or has them all and can finish. */
  ghost predicate CanStep(tasks: seq<Task>, k: nat)
    requires k < |tasks|
  {
    var t := tasks[k];
    !t.finished && (t.got < |t.plan| ==> FreeFor(tasks, t.plan[t.got]))
  }

  function Stepped(t: Task): Task { if t.got < |t.plan| then t.(got := t.got + 1) else t.(finished := true) }

  function Step(tasks: seq<Task>, k: nat): seq<Task>
    requires k < |tasks|
  {
    tasks[k := Stepped(tasks[k])]
  }

  /** The order in which tasks make their steps is any. */
  ghost predicate Run(before: seq<Task>, order: seq<nat>, after: seq<Task>)
    decreases |order|
  {
    if order == [] then before == after
    else
      var k := order[0];
      k < |before| && CanStep(before, k) && Run(Step(before, k), order[1..], after)
  }

  // ----- mutual exclusion -----

  lemma StartInv(tasks: seq<Task>)
    requires Start(tasks)
    ensures Inv(tasks)
  {
  }

  lemma StepInv(tasks: seq<Task>, k: nat)
    requires Inv(tasks) && k < |tasks| && CanStep(tasks, k)
    ensures Inv(Step(tasks, k))
  {
    var t, after := tasks[k], Step(tasks, k);
    assert t in tasks && TaskOk(after[k]);
    forall u | u in after ensures TaskOk(u) { assert u == after[k] || u in tasks; }
    assert forall s :: Holds(after[k], s) ==> Holds(t, s) || (t.got < |t.plan| && s == t.plan[t.got]);
    forall a, b, s | 0 <= a < b < |after| && Holds(after[a], s) ensures !Holds(after[b], s) {
      if a == k {
        assert tasks[b] in tasks;
      } else if b == k {
        assert tasks[a] in tasks;
      }
    }
  }

  lemma {:induction false} RunInv(before: seq<Task>, order: seq<nat>, after: seq<Task>)
    requires Inv(before) && Run(before, order, after)
    ensures Inv(after) && |after| == |before|
    decreases |order|
  {
    if order != [] {
      StepInv(before, order[0]);
      RunInv(Step(before, order[0]), order[1..], after);
    }
  }

  /** Two tasks whose requests share a key are never inside together, in any run. */
  lemma MutualExclusion(before: seq<Task>, order: seq<nat>, after: seq<Task>, a: nat, b: nat, ino: nat)
    requires Start(before) && Run(before, order, after)
    requires a < b < |after| && Wants(after[a].request, ino) && Wants(after[b].request, ino)
    ensures !(Inside(after[a]) && Inside(after[b]))
  {
    StartInv(before);
    RunInv(before, order, after);
    if Inside(after[a]) && Inside(after[b]) {
      assert after[a] in after && after[b] in after;
      assert StripeOf(ino) in after[a].plan && StripeOf(ino) in after[b].plan;
      assert Holds(after[a], StripeOf(ino)) && Holds(after[b], StripeOf(ino));
    }
  }

  // ----- no deadlock -----

  /** Among the first `n` tasks, which all wait for a stripe or have finished, one that waits for the highest. */
  lemma {:induction false} HighestWaiter(tasks: seq<Task>, n: nat) returns (k: nat)
    requires Inv(tasks) && n <= |tasks| && exists i :: 0 <= i < n && !tasks[i].finished
    requires forall i :: 0 <= i < n && !tasks[i].finished ==> tasks[i].got < |tasks[i].plan|
    ensures k < n && !tasks[k].finished
    ensures forall i :: 0 <= i < n && !tasks[i].finished ==> tasks[i].plan[tasks[i].got] <= tasks[k].plan[tasks[k].got]
    decreases n
  {
    var last := n - 1;
    if exists i :: 0 <= i < last && !tasks[i].finished {
      k := HighestWaiter(tasks, last);
      if !tasks[last].finished && tasks[last].plan[tasks[last].got] > tasks[k].plan[tasks[k].got] { k := last; }
    } else {
      k := last;
    }
  }

  /** While some task has not finished, some task can make a step. */
  lemma NoDeadlock(tasks: seq<Task>)
    requires Inv(tasks) && exists t :: t in tasks && !t.finished
    ensures exists k: nat :: k < |tasks| && CanStep(tasks, k)
  {
    if k: nat :| k < |tasks| && Inside(tasks[k]) {
      assert CanStep(tasks, k);
    } else {
      forall i | 0 <= i < |tasks| && !tasks[i].finished ensures tasks[i].got < |tasks[i].plan| {
        assert tasks[i] in tasks && !Inside(tasks[i]);
      }
      var t :| t in tasks && !t.finished;
      var i :| 0 <= i < |tasks| && tasks[i] == t;
      var k := HighestWaiter(tasks, |tasks|);
      // A holder of the highest awaited stripe would await a higher one.
      assert CanStep(tasks, k);
    }
  }

  // ----- every run ends, with every task finished -----

  function Left(t: Task): int { |t.plan| - t.got + (if t.finished then 0 else 1) }

  function Remaining(tasks: seq<Task>): int {
    if tasks == [] then 0 else Remaining(tasks[..|tasks| - 1]) + Left(tasks[|tasks| - 1])
  }

  lemma {:induction false} RemainingUpdate(tasks: seq<Task>, k: nat, t: Task)
    requires k < |tasks|
    ensures Remaining(tasks[k := t]) == Remaining(tasks) - Left(tasks[k]) + Left(t)
    decreases |tasks|
  {
    var init := tasks[..|tasks| - 1];
    if k == |init| {
      assert tasks[k := t][..|init|] == init;
    } else {
      assert tasks[k := t][..|init|] == init[k := t];
      RemainingUpdate(init, k, t);
    }
  }

  lemma {:induction false} RemainingNonNegative(tasks: seq<Task>)
    requires forall t :: t in tasks ==> t.got <= |t.plan|
    ensures Remaining(tasks) >= 0
    decreases |tasks|
  {
    if tasks != [] {
      assert tasks == tasks[..|tasks| - 1] + [tasks[|tasks| - 1]];
      RemainingNonNegative(tasks[..|tasks| - 1]);
    }
  }

  /** Each step uses up one of a fixed number, so no run is longer than that. */
  lemma {:induction false} RunBounded(before: seq<Task>, order: seq<nat>, after: seq<Task>)
    requires Inv(before) && Run(before, order, after)
    ensures |order| == Remaining(before) - Remaining(after) <= Remaining(before)
    decreases |order|
  {
    if order == [] {
      RemainingNonNegative(before);
    } else {
      StepInv(before, order[0]);
      RemainingUpdate(before, order[0], Stepped(before[order[0]]));
      RunBounded(Step(before, order[0]), order[1..], after);
    }
  }

  /** A run that cannot be continued has finished every task. */
  lemma StuckMeansDone(before: seq<Task>, order: seq<nat>, after: seq<Task>)
    requires Start(before) && Run(before, order, after)
    requires forall k: nat, next :: k < |after| ==> !Run(after, [k], next)
    ensures forall t :: t in after ==> t.finished
  {
    StartInv(before);
    RunInv(before, order, after);
    if exists t :: t in after && !t.finished {
      NoDeadlock(after);
      var k: nat :| k < |after| && CanStep(after, k);
      assert [k][1..] == [];
      assert Run(Step(after, k), [k][1..], Step(after, k));
      assert Run(after, [k], Step(after, k));
    }
  }
}
