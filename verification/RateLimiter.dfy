/** Token-bucket admission (crates/slatefs-core/src/rate.rs) over the reals: two buckets, ops and bytes, under
    limits that may change while it runs. */
module RateLimiters {
  import opened Common

  /** `None` means unlimited. */
  datatype Limits = Limits(ops: Option<nat>, bytes: Option<nat>)

  datatype Level = Level(tokens: real, updated: real)

  datatype State = State(limits: Limits, ops: Level, bytes: Level)

  datatype Counter = Ops | Bytes

  function Limit(l: Limits, w: Counter): Option<nat> { if w.Ops? then l.ops else l.bytes }

  function LevelOf(s: State, w: Counter): Level { if w.Ops? then s.ops else s.bytes }

  // ----- one bucket -----

  /** Time since the last update; an earlier time counts as none. */
  function Elapsed(b: Level, now: real): real { if now > b.updated then now - b.updated else 0.0 }

  /** What `dt` seconds at `n` tokens a second are worth: their product, with no multiplication of variables. */
  function Worth(dt: real, n: nat): real { if n == 0 then 0.0 else Worth(dt, n - 1) + dt }

  lemma {:induction false} WorthIsProduct(dt: real, n: nat)
    ensures Worth(dt, n) == dt * n as real
    decreases n
  {
    if n > 0 {
      WorthIsProduct(dt, n - 1);
      assert dt * n as real == dt * (n - 1) as real + dt;
    }
  }

  lemma {:induction false} WorthBounds(dt: real, n: nat)
    ensures dt >= 0.0 ==> Worth(dt, n) >= 0.0
    ensures dt >= 1.0 ==> Worth(dt, n) >= n as real
    ensures dt < 0.0 && n > 0 ==> Worth(dt, n) < 0.0
    decreases n
  {
    if n > 0 { WorthBounds(dt, n - 1); }
  }

  lemma {:induction false} WorthAdds(a: real, b: real, n: nat)
    ensures Worth(a + b, n) == Worth(a, n) + Worth(b, n)
    decreases n
  {
    if n > 0 { WorthAdds(a, b, n - 1); }
  }

  function Smaller(a: real, b: real): real { if a < b then a else b }

  function Refilled(b: Level, limit: Option<nat>, now: real): Level {
    match limit
    case None => b.(updated := now)
    case Some(l) => Level(Smaller(b.tokens + Worth(Elapsed(b, now), l), l as real), now)
  }

  predicate CanConsume(b: Level, limit: Option<nat>, amount: nat) { limit.Some? ==> b.tokens >= amount as real }

  function Consumed(b: Level, limit: Option<nat>, amount: nat): Level {
    if limit.Some? then b.(tokens := b.tokens - amount as real) else b
  }

  function Resized(b: Level, old': Option<nat>, limit: Option<nat>, now: real): Level {
    match limit
    case None => Level(0.0, now)
    case Some(l) => Level(if old'.None? then l as real else Smaller(b.tokens, l as real), now)
  }

  /** Tokens are between zero and the limit. */
  ghost predicate InRange(b: Level, limit: Option<nat>) {
    0.0 <= b.tokens <= if limit.Some? then limit.value as real else 0.0
  }

  lemma RefilledInRange(b: Level, limit: Option<nat>, now: real)
    requires InRange(b, limit)
    ensures InRange(Refilled(b, limit, now), limit)
    ensures limit.Some? ==> Refilled(b, limit, now).tokens <= b.tokens + Worth(Elapsed(b, now), limit.value)
  {
    if limit.Some? { WorthBounds(Elapsed(b, now), limit.value); }
  }

  /** After a second without use the bucket is full. */
  lemma FullAfterASecond(b: Level, limit: Option<nat>, now: real)
    requires InRange(b, limit) && now >= b.updated + 1.0
    ensures limit.Some? ==> Refilled(b, limit, now).tokens == limit.value as real
  {
    if limit.Some? { WorthBounds(Elapsed(b, now), limit.value); }
  }

  // ----- the limiter -----

  /** A request of so many bytes, or new limits. */
  datatype Event = Check(bytes: nat, now: real) | SetLimits(limits: Limits, now: real)

  function Refreshed(s: State, now: real): State {
    State(s.limits, Refilled(s.ops, s.limits.ops, now), Refilled(s.bytes, s.limits.bytes, now))
  }

  predicate Fits(s: State, bytes: nat) {
    CanConsume(s.ops, s.limits.ops, 1) && (bytes > 0 ==> CanConsume(s.bytes, s.limits.bytes, bytes))
  }

  predicate Admits(s: State, ev: Event) { ev.Check? && Fits(Refreshed(s, ev.now), ev.bytes) }

  function Charged(s: State, bytes: nat): State {
    State(s.limits, Consumed(s.ops, s.limits.ops, 1), Consumed(s.bytes, s.limits.bytes, bytes))
  }

  function Relimited(s: State, limits: Limits, now: real): State {
    State(limits, Resized(s.ops, s.limits.ops, limits.ops, now), Resized(s.bytes, s.limits.bytes, limits.bytes, now))
  }

  function After(s: State, ev: Event): State {
    match ev
    case Check(bytes, now) =>
      if Admits(s, ev) then Charged(Refreshed(s, now), bytes) else Refreshed(s, now)
    case SetLimits(limits, now) =>
      if limits == s.limits then s else Relimited(Refreshed(s, now), limits, now)
  }

  ghost predicate Sound(s: State) { InRange(s.ops, s.limits.ops) && InRange(s.bytes, s.limits.bytes) }

  lemma AfterSound(s: State, ev: Event)
    requires Sound(s)
    ensures Sound(After(s, ev))
  {
    RefilledInRange(s.ops, s.limits.ops, ev.now);
    RefilledInRange(s.bytes, s.limits.bytes, ev.now);
  }

  /** A rejected request spends from neither bucket. */
  lemma RejectedSpendsNothing(s: State, ev: Event, w: Counter)
    requires ev.Check? && !Admits(s, ev)
    ensures LevelOf(After(s, ev), w) == Refilled(LevelOf(s, w), Limit(s.limits, w), ev.now)
  {
  }

  /** A request for more than the limit is never admitted; a smaller one is, after a second of quiet. */
  lemma AdmittedInTheEnd(s: State, bytes: nat, now: real)
    requires Sound(s) && now >= s.ops.updated + 1.0 && now >= s.bytes.updated + 1.0
    ensures Admits(s, Check(bytes, now)) <==>
      (s.limits.ops.Some? ==> s.limits.ops.value >= 1) && (s.limits.bytes.Some? ==> s.limits.bytes.value >= bytes)
  {
    FullAfterASecond(s.ops, s.limits.ops, now);
    FullAfterASecond(s.bytes, s.limits.bytes, now);
  }

  // ----- windows -----

  /** What an event admits. */
  function Spent(s: State, ev: Event, w: Counter): nat { if !Admits(s, ev) then 0 else if w.Ops? then 1 else ev.bytes }

  /** The limit in force times the time it has been in force since the last update. */
  function Earned(s: State, ev: Event, w: Counter): real {
    if (ev.SetLimits? && ev.limits == s.limits) || Limit(s.limits, w).None? then 0.0
    else Worth(Elapsed(LevelOf(s, w), ev.now), Limit(s.limits, w).value)
  }

  /** The counter is limited before and after the event. */
  predicate Finite(s: State, ev: Event, w: Counter) {
    Limit(s.limits, w).Some? && Limit(After(s, ev).limits, w).Some?
  }

  lemma OneEvent(s: State, ev: Event, w: Counter)
    requires Sound(s) && Finite(s, ev, w)
    ensures LevelOf(After(s, ev), w).tokens <= LevelOf(s, w).tokens + Earned(s, ev, w) - Spent(s, ev, w) as real
  {
    RefilledInRange(LevelOf(s, w), Limit(s.limits, w), ev.now);
  }

  function Final(s: State, events: seq<Event>): State
    decreases |events|
  {
    if events == [] then s else Final(After(s, events[0]), events[1..])
  }

  predicate AlwaysFinite(s: State, events: seq<Event>, w: Counter)
    decreases |events|
  {
    Limit(s.limits, w).Some? && (events != [] ==> AlwaysFinite(After(s, events[0]), events[1..], w))
  }

  function Admitted(s: State, events: seq<Event>, w: Counter): nat
    decreases |events|
  {
    if events == [] then 0 else Spent(s, events[0], w) + Admitted(After(s, events[0]), events[1..], w)
  }

  /** The sum over the window of each limit times its time in force. */
  function Allowance(s: State, events: seq<Event>, w: Counter): real
    decreases |events|
  {
    if events == [] then 0.0 else Earned(s, events[0], w) + Allowance(After(s, events[0]), events[1..], w)
  }

  /** What a window admits is at most the tokens at its start plus its allowance. */
  lemma {:induction false} WindowBound(s: State, events: seq<Event>, w: Counter)
    requires Sound(s) && AlwaysFinite(s, events, w)
    ensures Sound(Final(s, events))
    ensures Admitted(s, events, w) as real + LevelOf(Final(s, events), w).tokens
         <= LevelOf(s, w).tokens + Allowance(s, events, w)
    decreases |events|
  {
    if events != [] {
      AfterSound(s, events[0]);
      OneEvent(s, events[0], w);
      WindowBound(After(s, events[0]), events[1..], w);
    }
  }

  // ----- the allowance in terms of the events alone -----

  /** Setting the limits that are in force already does nothing. */
  predicate Moot(limits: Limits, ev: Event) { ev.SetLimits? && ev.limits == limits }

  function LimitsAfter(limits: Limits, ev: Event): Limits { if ev.SetLimits? then ev.limits else limits }

  function Rate(limits: Limits, w: Counter): nat { if Limit(limits, w).Some? then Limit(limits, w).value else 0 }

  /** The sum of each limit times the time it was in force, from time `from` to the last event. */
  function InForce(limits: Limits, from: real, events: seq<Event>, w: Counter): real
    decreases |events|
  {
    if events == [] then 0.0
    else if Moot(limits, events[0]) then InForce(limits, from, events[1..], w)
    else
      Worth(events[0].now - from, Rate(limits, w)) + InForce(LimitsAfter(limits, events[0]), events[0].now, events[1..], w)
  }

  /** While the counter has a positive limit, times never go back. */
  predicate InOrder(limits: Limits, from: real, events: seq<Event>, w: Counter)
    decreases |events|
  {
    if events == [] then true
    else if Moot(limits, events[0]) then InOrder(limits, from, events[1..], w)
    else
      && (Rate(limits, w) > 0 ==> from <= events[0].now)
      && InOrder(LimitsAfter(limits, events[0]), events[0].now, events[1..], w)
  }

  /** The allowance of a window is the limits times their time in force if and only if times come in order.
      Requests that reach the bucket out of order are allowed more. */
  lemma {:induction false} AllowanceIsElapsedIff(s: State, events: seq<Event>, w: Counter)
    ensures var entitled := InForce(s.limits, LevelOf(s, w).updated, events, w);
      && Allowance(s, events, w) >= entitled
      && (Allowance(s, events, w) == entitled <==> InOrder(s.limits, LevelOf(s, w).updated, events, w))
    decreases |events|
  {
    if events != [] {
      var next, late := After(s, events[0]), events[0].now - LevelOf(s, w).updated;
      AllowanceIsElapsedIff(next, events[1..], w);
      if !Moot(s.limits, events[0]) {
        assert next.limits == LimitsAfter(s.limits, events[0]) && LevelOf(next, w).updated == events[0].now;
        WorthBounds(late, Rate(s.limits, w));
        WorthAdds(0.0, 0.0, Rate(s.limits, w));
      }
    }
  }

  /** So what a window in order admits is at most the tokens at its start plus the limits times their time in force. */
  lemma WindowInOrder(s: State, events: seq<Event>, w: Counter)
    requires Sound(s) && AlwaysFinite(s, events, w) && InOrder(s.limits, LevelOf(s, w).updated, events, w)
    ensures Admitted(s, events, w) as real <= LevelOf(s, w).tokens + InForce(s.limits, LevelOf(s, w).updated, events, w)
  {
    WindowBound(s, events, w);
    AllowanceIsElapsedIff(s, events, w);
  }

  /** Out of order it is not: one operation a second, an empty bucket, and two operations in the first second. */
  lemma OutOfOrderAdmitsMore()
    ensures var s, events := State(Limits(Some(1), None), Level(0.0, 0.0), Level(0.0, 0.0)),
                             [Check(0, 1.0), Check(0, 0.0), Check(0, 1.0)];
      && Sound(s) && AlwaysFinite(s, events, Ops) && Final(s, events).ops.updated == 1.0
      && InForce(s.limits, 0.0, events, Ops) == 1.0 && Admitted(s, events, Ops) == 2
  {
    var s := State(Limits(Some(1), None), Level(0.0, 0.0), Level(0.0, 0.0));
    var events := [Check(0, 1.0), Check(0, 0.0), Check(0, 1.0)];
    var empty := State(s.limits, Level(0.0, 1.0), Level(0.0, 1.0));
    assert Worth(1.0, 1) == 1.0 && Worth(0.0, 1) == 0.0 && Worth(-1.0, 1) == -1.0;
    assert Admits(s, events[0]) && After(s, events[0]) == empty;
    assert events[1..] == [events[1], events[2]] && events[1..][1..] == [events[2]] && events[1..][1..][1..] == [];
    assert !Admits(empty, events[1]) && After(empty, events[1]) == s;
    assert Final(s, [events[2]]) == Final(empty, []) == empty;
    assert Admitted(s, [events[2]], Ops) == 1 + Admitted(empty, [], Ops) == 1;
    assert AlwaysFinite(empty, [], Ops) && AlwaysFinite(s, [events[2]], Ops);
    assert InForce(s.limits, 0.0, [events[2]], Ops) == 1.0 + InForce(s.limits, 1.0, [], Ops);
    assert InForce(s.limits, 1.0, events[1..], Ops) == -1.0 + InForce(s.limits, 0.0, [events[2]], Ops);
  }

  // ----- nothing less is admitted either -----

  /** The capacity an event leaves the bucket with: the lower of the limits before it and after it. */
  function Cap(limits: Limits, ev: Event, w: Counter): real {
    Smaller(Rate(limits, w) as real, Rate(LimitsAfter(limits, ev), w) as real)
  }

  /** What is left over of the tokens at the start, or (`k > 0`) of a bucket that was full at event `k`, with the limits
      times their time in force since then and without what has been admitted since then. */
  function Left(s: State, events: seq<Event>, w: Counter, k: nat): real
    requires k <= |events|
    decreases |events|
  {
    if k == 0 then LeftOf(LevelOf(s, w).tokens, s, events, w)
    else
      var next := After(s, events[0]);
      if k == 1 then LeftOf(Cap(s.limits, events[0], w) - Spent(s, events[0], w) as real, next, events[1..], w)
      else Left(next, events[1..], w, k - 1)
  }

  function LeftOf(tokens: real, s: State, events: seq<Event>, w: Counter): real {
    tokens + InForce(s.limits, LevelOf(s, w).updated, events, w) - Admitted(s, events, w) as real
  }

  /** One event in order: the tokens earn the limit times the time, up to the capacity, and pay for what is admitted. */
  lemma OneEventExact(s: State, ev: Event, w: Counter)
    requires Sound(s) && Finite(s, ev, w) && InOrder(s.limits, LevelOf(s, w).updated, [ev], w)
    ensures LevelOf(After(s, ev), w).tokens + Spent(s, ev, w) as real
         == Smaller(LevelOf(s, w).tokens + InForce(s.limits, LevelOf(s, w).updated, [ev], w), Cap(s.limits, ev, w))
  {
    var late, rate := ev.now - LevelOf(s, w).updated, Rate(s.limits, w);
    WorthBounds(late, rate);
    assert [ev][1..] == [];
    assert InForce(LimitsAfter(s.limits, ev), ev.now, [], w) == 0.0;
    if rate == 0 { assert Worth(late, rate) == Worth(Elapsed(LevelOf(s, w), ev.now), rate) == 0.0; }
  }

  lemma FirstInForce(s: State, events: seq<Event>, w: Counter)
    requires events != []
    ensures var next := After(s, events[0]);
      InForce(s.limits, LevelOf(s, w).updated, events, w)
      == InForce(s.limits, LevelOf(s, w).updated, [events[0]], w)
       + InForce(next.limits, LevelOf(next, w).updated, events[1..], w)
  {
    assert [events[0]][1..] == [];
    assert InForce(LimitsAfter(s.limits, events[0]), events[0].now, [], w) == 0.0;
  }

  lemma FirstInOrder(s: State, events: seq<Event>, w: Counter)
    requires events != [] && InOrder(s.limits, LevelOf(s, w).updated, events, w)
    ensures InOrder(s.limits, LevelOf(s, w).updated, [events[0]], w)
    ensures InOrder(After(s, events[0]).limits, LevelOf(After(s, events[0]), w).updated, events[1..], w)
  {
    assert [events[0]][1..] == [];
  }

  lemma LeftSteps(s: State, events: seq<Event>, w: Counter)
    requires Sound(s) && events != [] && Finite(s, events[0], w)
    requires InOrder(s.limits, LevelOf(s, w).updated, events, w)
    ensures Left(After(s, events[0]), events[1..], w, 0) == Smaller(Left(s, events, w, 0), Left(s, events, w, 1))
  {
    FirstInOrder(s, events, w);
    FirstInForce(s, events, w);
    OneEventExact(s, events[0], w);
  }

  /** The tokens at the end of a window in order are exactly the least that is left over from any point of it. */
  lemma {:induction false} TokensExact(s: State, events: seq<Event>, w: Counter) returns (k: nat)
    requires Sound(s) && AlwaysFinite(s, events, w) && InOrder(s.limits, LevelOf(s, w).updated, events, w)
    ensures k <= |events| && LevelOf(Final(s, events), w).tokens == Left(s, events, w, k)
    ensures forall j: nat :: j <= |events| ==> Left(s, events, w, k) <= Left(s, events, w, j)
    decreases |events|
  {
    if events == [] {
      k := 0;
    } else {
      var next, rest := After(s, events[0]), events[1..];
      FirstInOrder(s, events, w);
      AfterSound(s, events[0]);
      assert AlwaysFinite(next, rest, w);
      LeftSteps(s, events, w);
      var m := TokensExact(next, rest, w);
      k := if m > 0 then m + 1 else if Left(s, events, w, 0) < Left(s, events, w, 1) then 0 else 1;
      forall j: nat | j <= |events| ensures Left(s, events, w, k) <= Left(s, events, w, j) {
        if j > 1 { assert Left(s, events, w, j) == Left(next, rest, w, j - 1); }
      }
    }
  }

  /** The balance, with each limit times its time in force, never exceeds the capacity. */
  predicate Uncapped(s: State, balance: real, events: seq<Event>, w: Counter)
    decreases |events|
  {
    events != [] ==>
      var due := balance + InForce(s.limits, LevelOf(s, w).updated, [events[0]], w);
      && due <= Cap(s.limits, events[0], w)
      && Uncapped(After(s, events[0]), due - Spent(s, events[0], w) as real, events[1..], w)
  }

  /** While the bucket does not overflow, nothing is lost: what is admitted and what is left are together the tokens at
      the start and each limit times its time in force. */
  lemma {:induction false} UncappedExact(s: State, events: seq<Event>, w: Counter)
    requires Sound(s) && AlwaysFinite(s, events, w) && InOrder(s.limits, LevelOf(s, w).updated, events, w)
    requires Uncapped(s, LevelOf(s, w).tokens, events, w)
    ensures Admitted(s, events, w) as real + LevelOf(Final(s, events), w).tokens
         == LevelOf(s, w).tokens + InForce(s.limits, LevelOf(s, w).updated, events, w)
    decreases |events|
  {
    if events != [] {
      FirstInOrder(s, events, w);
      FirstInForce(s, events, w);
      AfterSound(s, events[0]);
      assert AlwaysFinite(After(s, events[0]), events[1..], w);
      OneEventExact(s, events[0], w);
      UncappedExact(After(s, events[0]), events[1..], w);
    }
  }

  /** The limit allows the amount at all, and the tokens with the limit times the time since the last update do. */
  ghost predicate Pays(b: Level, limit: Option<nat>, amount: nat, now: real) {
    match limit
    case None => true
    case Some(l) => amount <= l && b.tokens + Elapsed(b, now) * l as real >= amount as real
  }

  lemma RefilledPays(b: Level, limit: Option<nat>, amount: nat, now: real)
    ensures CanConsume(Refilled(b, limit, now), limit, amount) <==> Pays(b, limit, amount, now)
  {
    if limit.Some? { WorthIsProduct(Elapsed(b, now), limit.value); }
  }

  ghost predicate Affords(s: State, w: Counter, amount: nat, now: real) {
    Pays(LevelOf(s, w), Limit(s.limits, w), amount, now)
  }

  /** A request is admitted exactly if both counters can afford it. */
  lemma AdmitsIff(s: State, bytes: nat, now: real)
    ensures Admits(s, Check(bytes, now)) <==> Affords(s, Ops, 1, now) && (bytes > 0 ==> Affords(s, Bytes, bytes, now))
  {
    RefilledPays(s.ops, s.limits.ops, 1, now);
    RefilledPays(s.bytes, s.limits.bytes, bytes, now);
  }

  ghost predicate EachPays(s: State, events: seq<Event>, w: Counter, earned: real, amount: nat) {
    forall k: nat :: k <= |events| ==> Left(s, events, w, k) + earned >= amount as real
  }

  /** So a window in order refuses only what it cannot pay: a counter can afford an amount exactly if the limit allows
      it and what is left over from every point of the window, with what has been earned since, does. */
  lemma AffordsIff(s: State, events: seq<Event>, w: Counter, amount: nat, now: real)
    requires Sound(s) && AlwaysFinite(s, events, w) && InOrder(s.limits, LevelOf(s, w).updated, events, w)
    requires LevelOf(Final(s, events), w).updated <= now
    ensures var last, rate := Final(s, events), Rate(Final(s, events).limits, w);
      Affords(last, w, amount, now) <==>
        amount <= rate && EachPays(s, events, w, Earnings(LevelOf(last, w), rate, now), amount)
  {
    var k := TokensExact(s, events, w);
    FinalFinite(s, events, w);
    var last, rate := Final(s, events), Rate(Final(s, events).limits, w);
    var earned := Earnings(LevelOf(last, w), rate, now);
    PaysIs(LevelOf(last, w), rate, amount, now);
    LeastPays(s, events, w, k, earned, amount);
  }

  /** The rate times the time since the last update. */
  function Earnings(b: Level, rate: nat, now: real): real { (now - b.updated) * rate as real }

  lemma PaysIs(b: Level, l: nat, amount: nat, now: real)
    requires b.updated <= now
    ensures Pays(b, Some(l), amount, now) <==> amount <= l && b.tokens + Earnings(b, l, now) >= amount as real
  {
    assert Elapsed(b, now) == now - b.updated;
  }

  lemma LeastPays(s: State, events: seq<Event>, w: Counter, k: nat, earned: real, amount: nat)
    requires k <= |events| && forall j: nat :: j <= |events| ==> Left(s, events, w, k) <= Left(s, events, w, j)
    ensures EachPays(s, events, w, earned, amount) <==> Left(s, events, w, k) + earned >= amount as real
  {
  }

  lemma {:induction false} FinalFinite(s: State, events: seq<Event>, w: Counter)
    requires AlwaysFinite(s, events, w)
    ensures Limit(Final(s, events).limits, w).Some?
    decreases |events|
  {
    if events != [] { FinalFinite(After(s, events[0]), events[1..], w); }
  }

  /** Half a second at ten operations a second pays for one. */
  lemma HalfSecondAdmits()
    ensures Admits(State(Limits(Some(10), None), Level(0.0, 0.0), Level(0.0, 0.0)), Check(0, 0.5))
  {
    AdmitsIff(State(Limits(Some(10), None), Level(0.0, 0.0), Level(0.0, 0.0)), 0, 0.5);
  }

  /** A counter that becomes limited starts with a full bucket. */
  lemma NewlyLimited(s: State, limits: Limits, w: Counter, amount: nat, now: real)
    requires Limit(s.limits, w).None? && Limit(limits, w).Some?
    ensures Affords(After(s, SetLimits(limits, now)), w, amount, now) <==> amount <= Limit(limits, w).value
  {
  }

  // ----- in place -----

  class Bucket {
    var tokens: real
    var updated: real

    constructor (limit: Option<nat>, now: real)
      ensures View() == Level(if limit.Some? then limit.value as real else 0.0, now)
    {
      tokens, updated := if limit.Some? then limit.value as real else 0.0, now;
    }

    function View(): Level
      reads this
    {
      Level(tokens, updated)
    }

    method Refill(limit: Option<nat>, now: real)
      modifies this
      ensures View() == Refilled(old(View()), limit, now)
      ensures limit.Some? && old(updated) <= now ==>
        var due, capacity := old(tokens) + (now - old(updated)) * limit.value as real, limit.value as real;
        tokens == if due < capacity then due else capacity
    {
      if limit.None? {
        updated := now;
        return;
      }
      var capacity := limit.value as real;
      var elapsed := Elapsed(View(), now);
      WorthIsProduct(elapsed, limit.value);
      tokens := Smaller(tokens + elapsed * capacity, capacity);
      updated := now;
    }

    method Consume(limit: Option<nat>, amount: nat)
      modifies this
      ensures View() == Consumed(old(View()), limit, amount)
    {
      if limit.Some? {
        tokens := tokens - amount as real;
      }
    }

    method Resize(old': Option<nat>, limit: Option<nat>, now: real)
      modifies this
      ensures View() == Resized(old(View()), old', limit, now)
    {
      if limit.None? {
        tokens := 0.0;
      } else if old'.None? {
        tokens := limit.value as real;
      } else {
        tokens := Smaller(tokens, limit.value as real);
      }
      updated := now;
    }
  }

  class RateLimiter {
    var limits: Limits
    const ops: Bucket
    const bytes: Bucket
    var rejections: nat

    constructor (limits: Limits, now: real)
      ensures Valid() && this.limits == limits && rejections == 0 && fresh(ops) && fresh(bytes)
    {
      this.limits, rejections := limits, 0;
      ops := new Bucket(limits.ops, now);
      bytes := new Bucket(limits.bytes, now);
    }

    function View(): State
      reads this, ops, bytes
    {
      State(limits, ops.View(), bytes.View())
    }

    ghost predicate Valid()
      reads this, ops, bytes
    {
      ops != bytes && Sound(View())
    }

    method SetLimits(next: Limits, now: real) returns (changed: bool)
      requires Valid()
      modifies this, ops, bytes
      ensures Valid() && View() == After(old(View()), Event.SetLimits(next, now))
      ensures changed <==> next != old(limits)
    {
      AfterSound(View(), Event.SetLimits(next, now));
      if limits == next {
        return false;
      }
      var before := limits;
      ops.Refill(before.ops, now);
      bytes.Refill(before.bytes, now);
      ops.Resize(before.ops, next.ops, now);
      bytes.Resize(before.bytes, next.bytes, now);
      limits := next;
      return true;
    }

    method CheckAt(amount: nat, now: real) returns (ok: bool)
      requires Valid()
      modifies this, ops, bytes
      ensures Valid() && View() == After(old(View()), Check(amount, now))
      ensures ok <==> Admits(old(View()), Check(amount, now))
      ensures ok <==> old(Affords(View(), Ops, 1, now)) && (amount > 0 ==> old(Affords(View(), Bytes, amount, now)))
      ensures rejections == old(rejections) + (if ok then 0 else 1)
    {
      AfterSound(View(), Check(amount, now));
      AdmitsIff(View(), amount, now);
      ops.Refill(limits.ops, now);
      bytes.Refill(limits.bytes, now);
      if !CanConsume(ops.View(), limits.ops, 1) {
        rejections := rejections + 1;
        return false;
      }
      if amount > 0 && !CanConsume(bytes.View(), limits.bytes, amount) {
        rejections := rejections + 1;
        return false;
      }
      ops.Consume(limits.ops, 1);
      if amount > 0 {
        bytes.Consume(limits.bytes, amount);
      }
      return true;
    }
  }
}
