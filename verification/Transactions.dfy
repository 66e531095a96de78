/** The retransmission records of NFS clients as values (crates/nfs3-server/src/transaction_tracker.rs), the
    transitions of the tracker, and what holds of every run of them. */
module Transactions {
  import opened Common

  /** Times and ages are in one unit; a later time may be handed in as an earlier one. */
  datatype State = InProgress | Completed(at: nat)

  datatype Transaction = Transaction(xid: nat, state: State)

  type Txs = seq<Transaction>

  datatype Error = AlreadyExists | TooManyRequests

  datatype Config = Config(age: nat, maxActive: nat, trimLimit: nat)

  /** Subtraction of instants saturates. */
  function Since(now: nat, at: nat): nat { if now > at then now - at else 0 }

  predicate Stale(t: Transaction, now: nat, age: nat) { t.state.Completed? && Since(now, t.state.at) > age }

  /** Completed more than `age` ago. */
  predicate Expired(t: Transaction, now: nat, age: nat) { t.state.Completed? && t.state.at + age < now }

  // ----- the list of one client -----

  ghost predicate Sorted(txs: Txs) { forall i, j :: 0 <= i < j < |txs| ==> txs[i].xid < txs[j].xid }

  /** `xid` is recorded with state `s`. */
  ghost predicate Has(txs: Txs, xid: nat, s: State) { Transaction(xid, s) in txs }

  ghost predicate Known(txs: Txs, xid: nat) { exists i :: 0 <= i < |txs| && txs[i].xid == xid }

  function Pending(txs: Txs): nat {
    if txs == [] then 0
    else Pending(txs[1..]) + (if txs[0].state.InProgress? then 1 else 0)
  }

  /** Where `xid` is, or would go. */
  function Place(txs: Txs, xid: nat): (p: nat)
    ensures p <= |txs|
  {
    if txs == [] || txs[0].xid >= xid then 0 else 1 + Place(txs[1..], xid)
  }

  predicate Found(txs: Txs, xid: nat) { var p := Place(txs, xid); p < |txs| && txs[p].xid == xid }

  function Inserted(txs: Txs, xid: nat): Txs {
    var p := Place(txs, xid);
    txs[..p] + [Transaction(xid, InProgress)] + txs[p..]
  }

  function Trimmed(txs: Txs, limit: nat): Txs {
    if |txs| > limit && txs[0].state.Completed? then Trimmed(txs[1..], limit) else txs
  }

  function Purged(txs: Txs, now: nat, age: nat): Txs {
    if txs != [] && Stale(txs[0], now, age) then Purged(txs[1..], now, age) else txs
  }

  function Marked(txs: Txs, xid: nat, now: nat): Txs {
    if Found(txs, xid) then txs[Place(txs, xid) := Transaction(xid, Completed(now))] else txs
  }

  // ----- searching -----

  lemma {:induction false} PlaceSplits(txs: Txs, xid: nat)
    requires Sorted(txs)
    ensures forall i :: 0 <= i < Place(txs, xid) ==> txs[i].xid < xid
    ensures forall i :: Place(txs, xid) <= i < |txs| ==> xid <= txs[i].xid
    decreases |txs|
  {
    if txs != [] && txs[0].xid < xid {
      PlaceSplits(txs[1..], xid);
      assert forall i :: 1 <= i < |txs| ==> txs[i] == txs[1..][i - 1];
    }
  }

  lemma FoundIffKnown(txs: Txs, xid: nat)
    requires Sorted(txs)
    ensures Found(txs, xid) <==> Known(txs, xid)
    ensures forall p :: 0 <= p < |txs| && txs[p].xid == xid ==> p == Place(txs, xid)
  {
    PlaceSplits(txs, xid);
  }

  /** Any split of a sorted list around `xid` is the place for it. */
  lemma PlaceUnique(txs: Txs, xid: nat, p: nat)
    requires Sorted(txs) && p <= |txs|
    requires forall i :: 0 <= i < p ==> txs[i].xid < xid
    requires forall i :: p <= i < |txs| ==> xid <= txs[i].xid
    ensures Place(txs, xid) == p
  {
    PlaceSplits(txs, xid);
    var q := Place(txs, xid);
    assert p < |txs| ==> xid <= txs[p].xid;
    assert q < |txs| ==> xid <= txs[q].xid;
  }

  // ----- inserting and marking -----

  lemma InsertedSorted(txs: Txs, xid: nat)
    requires Sorted(txs) && !Found(txs, xid)
    ensures Sorted(Inserted(txs, xid))
  {
    PlaceSplits(txs, xid);
  }

  lemma InsertedHas(txs: Txs, xid: nat, t: Transaction)
    ensures t in Inserted(txs, xid) <==> t in txs || t == Transaction(xid, InProgress)
  {
    assert txs == txs[..Place(txs, xid)] + txs[Place(txs, xid)..];
  }

  lemma {:induction false} PendingConcat(a: Txs, b: Txs)
    ensures Pending(a + b) == Pending(a) + Pending(b)
    decreases |a|
  {
    if a == [] {
      assert a + b == b;
    } else {
      assert (a + b)[1..] == a[1..] + b;
      PendingConcat(a[1..], b);
    }
  }

  lemma InsertedPending(txs: Txs, xid: nat)
    ensures Pending(Inserted(txs, xid)) == Pending(txs) + 1
  {
    var p, t := Place(txs, xid), Transaction(xid, InProgress);
    PendingConcat(txs[..p], txs[p..]);
    PendingConcat(txs[..p] + [t], txs[p..]);
    PendingConcat(txs[..p], [t]);
    assert txs == txs[..p] + txs[p..] && [t][1..] == [];
  }

  lemma MarkedPending(txs: Txs, xid: nat, now: nat)
    requires Found(txs, xid) && txs[Place(txs, xid)].state.InProgress?
    ensures Pending(Marked(txs, xid, now)) == Pending(txs) - 1
  {
    var p, t := Place(txs, xid), Transaction(xid, Completed(now));
    PendingSplit(txs, p);
    PendingSplit(Marked(txs, xid, now), p);
    assert Marked(txs, xid, now)[..p] == txs[..p] && Marked(txs, xid, now)[p + 1..] == txs[p + 1..];
  }

  lemma PendingSplit(txs: Txs, p: nat)
    requires p < |txs|
    ensures Pending(txs) == Pending(txs[..p]) + Pending(txs[p + 1..]) + (if txs[p].state.InProgress? then 1 else 0)
  {
    PendingConcat(txs[..p], txs[p..]);
    assert txs == txs[..p] + txs[p..] && txs[p..][1..] == txs[p + 1..];
  }

  lemma MarkedHas(txs: Txs, xid: nat, now: nat, t: Transaction)
    requires Sorted(txs) && Found(txs, xid)
    ensures t in Marked(txs, xid, now) <==> if t.xid == xid then t.state == Completed(now) else t in txs
  {
    FoundIffKnown(txs, xid);
    var p, after := Place(txs, xid), Marked(txs, xid, now);
    assert after[p] == Transaction(xid, Completed(now));
    if t.xid != xid && t in txs {
      var i :| 0 <= i < |txs| && txs[i] == t;
      assert after[i] == t;
    }
  }

  // ----- forgetting from the front -----

  /** `after` is what is left when the first `n` records go. */
  ghost predicate Suffix(txs: Txs, after: Txs, n: nat) { n <= |txs| && after == txs[n..] }

  lemma {:induction false} TrimmedDrops(txs: Txs, limit: nat) returns (n: nat)
    ensures Suffix(txs, Trimmed(txs, limit), n)
    ensures forall i :: 0 <= i < n ==> txs[i].state.Completed?
    ensures n > 0 ==> |txs| - n >= limit
    ensures |txs| - n <= limit || txs[n].state.InProgress?
    ensures Pending(Trimmed(txs, limit)) == Pending(txs)
    decreases |txs|
  {
    n := 0;
    if |txs| > limit && txs[0].state.Completed? {
      var m := TrimmedDrops(txs[1..], limit);
      n := m + 1;
      assert txs[1..][m..] == txs[n..];
      assert forall i :: 1 <= i < n ==> txs[i] == txs[1..][i - 1];
    }
  }

  lemma {:induction false} PurgedDrops(txs: Txs, now: nat, age: nat) returns (n: nat)
    ensures Suffix(txs, Purged(txs, now, age), n)
    ensures forall i :: 0 <= i < n ==> Stale(txs[i], now, age)
    ensures n < |txs| ==> !Stale(txs[n], now, age)
    ensures Pending(Purged(txs, now, age)) == Pending(txs)
    decreases |txs|
  {
    n := 0;
    if txs != [] && Stale(txs[0], now, age) {
      var m := PurgedDrops(txs[1..], now, age);
      n := m + 1;
      assert txs[1..][m..] == txs[n..];
      assert forall i :: 1 <= i < n ==> txs[i] == txs[1..][i - 1];
    }
  }

  /** What went is the longest run of stale records at the front. */
  ghost predicate Swept(txs: Txs, after: Txs, now: nat, age: nat) {
    true == (
      && |after| <= |txs|
      && var n := |txs| - |after|;
         && after == txs[n..]
         && (forall i :: 0 <= i < n ==> Expired(txs[i], now, age))
         && FrontFresh(after, now, age))
  }

  /** What went are the first completed calls, no more than brings the list to its limit, and then the list is within
      its limit or a call in progress is in front. */
  ghost predicate Cut(txs: Txs, after: Txs, limit: nat) {
    true == (
      && |after| <= |txs|
      && var n := |txs| - |after|;
         && after == txs[n..]
         && (forall i :: 0 <= i < n ==> txs[i].state.Completed?)
         && (n > 0 ==> |after| >= limit)
         && (|after| <= limit || after[0].state.InProgress?))
  }

  /** No stale record is in front. */
  predicate FrontFresh(txs: Txs, now: nat, age: nat) { txs == [] || !Expired(txs[0], now, age) }

  lemma PurgedSwept(txs: Txs, now: nat, age: nat)
    ensures Swept(txs, Purged(txs, now, age), now, age) && FrontFresh(Purged(txs, now, age), now, age)
  {
    var n := PurgedDrops(txs, now, age);
  }

  lemma TrimmedCut(txs: Txs, limit: nat)
    ensures Cut(txs, Trimmed(txs, limit), limit)
  {
    var n := TrimmedDrops(txs, limit);
    assert Trimmed(txs, limit) == txs[n..];
  }

  /** Nothing up to `xid` is in progress or was completed too short a time ago. */
  ghost predicate StaleBelow(txs: Txs, xid: nat, now: nat, age: nat) {
    true == forall t :: t in txs && t.xid <= xid ==> Expired(t, now, age)
  }

  /** Of a sorted list, a record goes exactly if it and every record of a lower xid are stale. */
  lemma SweptIff(txs: Txs, after: Txs, now: nat, age: nat, t: Transaction)
    requires Sorted(txs) && Swept(txs, after, now, age) && t in txs
    ensures t !in after <==> StaleBelow(txs, t.xid, now, age)
  {
    var n := |txs| - |after|;
    var i :| 0 <= i < |txs| && txs[i] == t;
    if i < n {
      forall u | u in txs && u.xid <= t.xid ensures Stale(u, now, age) {
        var k :| 0 <= k < |txs| && txs[k] == u;
        assert k <= i;
      }
    } else {
      assert after[i - n] == t;
      assert after[0] == txs[n] && txs[n].xid <= t.xid;
    }
  }

  lemma SuffixHas(txs: Txs, after: Txs, n: nat, t: Transaction)
    requires Suffix(txs, after, n)
    ensures t in after ==> t in txs
    ensures t in txs && t !in after ==> exists i :: 0 <= i < n && txs[i] == t
  {
    assert txs == txs[..n] + txs[n..];
  }

  // ----- one client -----

  datatype Client = Client(txs: Txs, lastActive: nat, active: nat)

  /** Sorted, and the counter is the number of calls in progress, within the maximum. */
  ghost predicate ClientOk(cfg: Config, c: Client) {
    Sorted(c.txs) && c.active == Pending(c.txs) && c.active <= cfg.maxActive
  }

  function Add(cfg: Config, c: Client, xid: nat, now: nat): (Result<(), Error>, Client) {
    if Found(c.txs, xid) then (Err(AlreadyExists), c.(lastActive := now))
    else if c.active >= cfg.maxActive then (Err(TooManyRequests), c.(lastActive := now))
    else (Ok(()), Client(Trimmed(Inserted(c.txs, xid), cfg.trimLimit), now, c.active + 1))
  }

  /** What dropping the lock does: the call is marked completed, then stale records leave from the front. */
  function Finish(cfg: Config, c: Client, xid: nat, now: nat): Client
    requires Found(c.txs, xid) ==> c.active > 0
  {
    Client(Purged(Marked(c.txs, xid, now), now, cfg.age), now, if Found(c.txs, xid) then c.active - 1 else c.active)
  }

  predicate Active(cfg: Config, c: Client, now: nat) {
    Since(now, c.lastActive) < cfg.age || exists t :: t in c.txs && !Stale(t, now, cfg.age)
  }

  function Aged(cfg: Config, c: Client, now: nat): Client { c.(txs := Purged(c.txs, now, cfg.age)) }

  /** A call is accepted exactly when its xid is unknown and there is room. */
  lemma AddAccepts(cfg: Config, c: Client, xid: nat, now: nat)
    requires ClientOk(cfg, c)
    ensures Add(cfg, c, xid, now).0.Ok? <==> !Known(c.txs, xid) && Pending(c.txs) < cfg.maxActive
    ensures Add(cfg, c, xid, now).0 == Err(AlreadyExists) <==> Known(c.txs, xid)
  {
    FoundIffKnown(c.txs, xid);
  }

  lemma AddKeeps(cfg: Config, c: Client, xid: nat, now: nat)
    requires ClientOk(cfg, c)
    ensures ClientOk(cfg, Add(cfg, c, xid, now).1)
  {
    if Add(cfg, c, xid, now).0.Ok? {
      InsertedSorted(c.txs, xid);
      InsertedPending(c.txs, xid);
      var n := TrimmedDrops(Inserted(c.txs, xid), cfg.trimLimit);
    }
  }

  /** An accepted call is recorded as in progress; an older record goes only if its call has completed and
      the list had outgrown its limit. */
  lemma AddRemembers(cfg: Config, c: Client, xid: nat, now: nat, t: Transaction)
    requires ClientOk(cfg, c) && cfg.maxActive < cfg.trimLimit
    ensures var (r, after) := Add(cfg, c, xid, now);
      && (t in after.txs ==> t in c.txs || (r.Ok? && t == Transaction(xid, InProgress)))
      && (r.Ok? && t == Transaction(xid, InProgress) ==> t in after.txs)
      && (t in c.txs && t !in after.txs ==> r.Ok? && t.state.Completed? && |c.txs| >= cfg.trimLimit)
  {
    if Add(cfg, c, xid, now).0.Ok? {
      var grown := Inserted(c.txs, xid);
      InsertedHas(c.txs, xid, t);
      var n := TrimmedDrops(grown, cfg.trimLimit);
      SuffixHas(grown, Trimmed(grown, cfg.trimLimit), n, t);
    }
  }

  lemma PendingFound(txs: Txs, xid: nat)
    requires Sorted(txs) && Has(txs, xid, InProgress)
    ensures Found(txs, xid) && txs[Place(txs, xid)].state == InProgress && Pending(txs) > 0
  {
    FoundIffKnown(txs, xid);
    var i :| 0 <= i < |txs| && txs[i] == Transaction(xid, InProgress);
    assert i == Place(txs, xid);
    PendingSplit(txs, i);
  }

  lemma FinishKeeps(cfg: Config, c: Client, xid: nat, now: nat)
    requires ClientOk(cfg, c) && Has(c.txs, xid, InProgress)
    ensures Found(c.txs, xid) && c.txs[Place(c.txs, xid)].state == InProgress && c.active > 0
    ensures ClientOk(cfg, Finish(cfg, c, xid, now))
  {
    PendingFound(c.txs, xid);
    MarkedPending(c.txs, xid, now);
    MarkedSorted(c.txs, xid, now);
    var n := PurgedDrops(Marked(c.txs, xid, now), now, cfg.age);
  }

  lemma FinishIs(cfg: Config, c: Client, xid: nat, now: nat, after: Client)
    requires Found(c.txs, xid) && c.active > 0
    requires after.txs == Purged(Marked(c.txs, xid, now), now, cfg.age)
    requires after.lastActive == now && after.active == c.active - 1
    ensures after == Finish(cfg, c, xid, now)
  {
  }

  lemma MarkedSorted(txs: Txs, xid: nat, now: nat)
    requires Sorted(txs)
    ensures Sorted(Marked(txs, xid, now))
  {
  }

  lemma FinishRemembers(cfg: Config, c: Client, xid: nat, now: nat, t: Transaction)
    requires ClientOk(cfg, c) && Has(c.txs, xid, InProgress) && c.active > 0
    ensures var after := Finish(cfg, c, xid, now);
      && (t in after.txs ==> if t.xid == xid then t.state == Completed(now) else t in c.txs)
      && (t in c.txs && t.xid != xid && t !in after.txs ==> Stale(t, now, cfg.age))
      && Has(after.txs, xid, Completed(now))
  {
    FinishKeeps(cfg, c, xid, now);
    var marked := Marked(c.txs, xid, now);
    MarkedHas(c.txs, xid, now, t);
    MarkedHas(c.txs, xid, now, Transaction(xid, Completed(now)));
    var n := PurgedDrops(marked, now, cfg.age);
    SuffixHas(marked, Purged(marked, now, cfg.age), n, t);
    SuffixHas(marked, Purged(marked, now, cfg.age), n, Transaction(xid, Completed(now)));
  }

  lemma AgedKeeps(cfg: Config, c: Client, now: nat)
    requires ClientOk(cfg, c)
    ensures ClientOk(cfg, Aged(cfg, c, now))
  {
    var n := PurgedDrops(c.txs, now, cfg.age);
  }

  lemma AgedRemembers(cfg: Config, c: Client, now: nat, t: Transaction)
    ensures t in Aged(cfg, c, now).txs ==> t in c.txs
    ensures t in c.txs && t !in Aged(cfg, c, now).txs ==> Stale(t, now, cfg.age)
  {
    var n := PurgedDrops(c.txs, now, cfg.age);
    SuffixHas(c.txs, Aged(cfg, c, now).txs, n, t);
  }

  // ----- the tracker -----

  type Table = map<string, Client>

  /** The table with the calls whose locks have not been dropped. */
  datatype Sys = Sys(table: Table, live: set<(string, nat)>)

  datatype Event = Start(addr: string, xid: nat, now: nat) | Drop(addr: string, xid: nat, now: nat) | Clean(now: nat)

  /** The client's record, a new one if there is none. */
  function ClientAt(table: Table, addr: string, now: nat): Client {
    if addr in table then table[addr] else Client([], now, 0)
  }

  ghost predicate Pends(table: Table, addr: string, xid: nat) { addr in table && Has(table[addr].txs, xid, InProgress) }

  /** Every client's record is sound, and the live locks are exactly the calls in progress. */
  ghost predicate Inv(cfg: Config, sys: Sys) {
    && cfg.maxActive < cfg.trimLimit
    && (forall addr :: addr in sys.table ==> ClientOk(cfg, sys.table[addr]))
    && forall addr, xid: nat :: (addr, xid) in sys.live <==> Pends(sys.table, addr, xid)
  }

  /** Only a live lock can be dropped. */
  predicate CanDo(sys: Sys, ev: Event) { ev.Drop? ==> (ev.addr, ev.xid) in sys.live }

  function Cleaned(cfg: Config, table: Table, now: nat): Table {
    map addr | addr in table && Active(cfg, table[addr], now) :: Aged(cfg, table[addr], now)
  }

  /** The record a live lock completes in is there and its counter is positive. */
  lemma LivePends(cfg: Config, sys: Sys, addr: string, xid: nat)
    requires Inv(cfg, sys) && (addr, xid) in sys.live
    ensures addr in sys.table && Has(sys.table[addr].txs, xid, InProgress) && sys.table[addr].active > 0
  {
    assert Pends(sys.table, addr, xid);
    FinishKeeps(cfg, sys.table[addr], xid, 0);
  }

  ghost function Do(cfg: Config, sys: Sys, ev: Event): Sys
    requires Inv(cfg, sys) && CanDo(sys, ev)
  {
    match ev
    case Start(addr, xid, now) =>
      var (r, c) := Add(cfg, ClientAt(sys.table, addr, now), xid, now);
      Sys(sys.table[addr := c], if r.Ok? then sys.live + {(addr, xid)} else sys.live)
    case Drop(addr, xid, now) =>
      LivePends(cfg, sys, addr, xid);
      Sys(sys.table[addr := Finish(cfg, sys.table[addr], xid, now)], sys.live - {(addr, xid)})
    case Clean(now) => Sys(Cleaned(cfg, sys.table, now), sys.live)
  }

  lemma ClientAtOk(cfg: Config, sys: Sys, addr: string, now: nat)
    requires Inv(cfg, sys)
    ensures ClientOk(cfg, ClientAt(sys.table, addr, now))
    ensures forall t :: t in ClientAt(sys.table, addr, now).txs <==> addr in sys.table && t in sys.table[addr].txs
  {
  }

  lemma StartInv(cfg: Config, sys: Sys, addr: string, xid: nat, now: nat)
    requires Inv(cfg, sys)
    ensures Inv(cfg, Do(cfg, sys, Start(addr, xid, now)))
  {
    var c, after := ClientAt(sys.table, addr, now), Do(cfg, sys, Start(addr, xid, now));
    ClientAtOk(cfg, sys, addr, now);
    AddKeeps(cfg, c, xid, now);
    forall a, x: nat ensures (a, x) in after.live <==> Pends(after.table, a, x) {
      AddRemembers(cfg, c, xid, now, Transaction(x, InProgress));
      assert (a, x) in sys.live <==> Pends(sys.table, a, x);
    }
  }

  lemma DropInv(cfg: Config, sys: Sys, addr: string, xid: nat, now: nat)
    requires Inv(cfg, sys) && (addr, xid) in sys.live
    ensures Inv(cfg, Do(cfg, sys, Drop(addr, xid, now)))
  {
    LivePends(cfg, sys, addr, xid);
    var c, after := sys.table[addr], Do(cfg, sys, Drop(addr, xid, now));
    FinishKeeps(cfg, c, xid, now);
    forall a, x: nat ensures (a, x) in after.live <==> Pends(after.table, a, x) {
      FinishRemembers(cfg, c, xid, now, Transaction(x, InProgress));
      assert (a, x) in sys.live <==> Pends(sys.table, a, x);
    }
  }

  lemma CleanInv(cfg: Config, sys: Sys, now: nat)
    requires Inv(cfg, sys)
    ensures Inv(cfg, Do(cfg, sys, Clean(now)))
  {
    var after := Do(cfg, sys, Clean(now));
    forall a | a in after.table ensures ClientOk(cfg, after.table[a]) { AgedKeeps(cfg, sys.table[a], now); }
    forall a, x: nat ensures (a, x) in after.live <==> Pends(after.table, a, x) {
      assert (a, x) in sys.live <==> Pends(sys.table, a, x);
      if a in sys.table { AgedRemembers(cfg, sys.table[a], now, Transaction(x, InProgress)); }
    }
  }

  lemma DoInv(cfg: Config, sys: Sys, ev: Event)
    requires Inv(cfg, sys) && CanDo(sys, ev)
    ensures Inv(cfg, Do(cfg, sys, ev))
  {
    match ev
    case Start(addr, xid, now) => StartInv(cfg, sys, addr, xid, now);
    case Drop(addr, xid, now) => DropInv(cfg, sys, addr, xid, now);
    case Clean(now) => CleanInv(cfg, sys, now);
  }

  // ----- the counter counts the live locks -----

  function LiveOf(live: set<(string, nat)>, addr: string): set<nat> { set l | l in live && l.0 == addr :: l.1 }

  ghost function PendingXids(txs: Txs): set<nat> { set t | t in txs && t.state.InProgress? :: t.xid }

  lemma {:induction false} PendingIsCount(txs: Txs)
    requires Sorted(txs)
    ensures Pending(txs) == |PendingXids(txs)|
    decreases |txs|
  {
    if txs == [] {
      assert PendingXids(txs) == {};
    } else {
      PendingIsCount(txs[1..]);
      PendingSplits(txs);
    }
  }

  lemma PendingSplits(txs: Txs)
    requires Sorted(txs) && txs != []
    ensures txs[0].xid !in PendingXids(txs[1..])
    ensures PendingXids(txs) == PendingXids(txs[1..]) + if txs[0].state.InProgress? then {txs[0].xid} else {}
  {
    assert txs == [txs[0]] + txs[1..];
  }

  lemma ActiveIsLive(cfg: Config, sys: Sys, addr: string)
    requires Inv(cfg, sys) && addr in sys.table
    ensures sys.table[addr].active == |LiveOf(sys.live, addr)| <= cfg.maxActive
  {
    var txs := sys.table[addr].txs;
    PendingIsCount(txs);
    forall x: nat ensures x in LiveOf(sys.live, addr) <==> x in PendingXids(txs) {
      assert x in LiveOf(sys.live, addr) <==> (addr, x) in sys.live;
      assert (addr, x) in sys.live <==> Pends(sys.table, addr, x);
      assert x in PendingXids(txs) <==> Transaction(x, InProgress) in txs;
    }
    assert LiveOf(sys.live, addr) == PendingXids(txs);
  }

  // ----- what is forgotten -----

  ghost predicate Records(sys: Sys, addr: string, t: Transaction) { addr in sys.table && t in sys.table[addr].txs }

  /** A completed call that has become stale, or that is over the limit when a new one arrives. */
  ghost predicate Forgettable(cfg: Config, sys: Sys, ev: Event, addr: string, t: Transaction) {
    && t.state.Completed?
    && if ev.Start? then ev.addr == addr && |ClientAt(sys.table, addr, ev.now).txs| >= cfg.trimLimit
       else Expired(t, ev.now, cfg.age)
  }

  /** One event changes a record only by completing its call, and loses it only if it is forgettable. */
  lemma DoRemembers(cfg: Config, sys: Sys, ev: Event, addr: string, t: Transaction)
    requires Inv(cfg, sys) && CanDo(sys, ev) && Records(sys, addr, t)
    ensures Records(Do(cfg, sys, ev), addr, t) || Forgettable(cfg, sys, ev, addr, t)
      || (t.state.InProgress? && ev == Drop(addr, t.xid, ev.now)
          && Records(Do(cfg, sys, ev), addr, Transaction(t.xid, Completed(ev.now))))
  {
    match ev
    case Start(a, xid, now) =>
      ClientAtOk(cfg, sys, a, now);
      AddRemembers(cfg, ClientAt(sys.table, a, now), xid, now, t);
    case Drop(a, xid, now) =>
      LivePends(cfg, sys, a, xid);
      FinishRemembers(cfg, sys.table[a], xid, now, t);
      if a == addr && t.xid == xid { OneRecord(sys.table[a].txs, t, Transaction(xid, InProgress)); }
    case Clean(now) => AgedRemembers(cfg, sys.table[addr], now, t);
  }

  lemma OneRecord(txs: Txs, t: Transaction, u: Transaction)
    requires Sorted(txs) && t in txs && u in txs && t.xid == u.xid
    ensures t == u
  {
  }

  /** The event sweeps the client's list. */
  predicate Sweeps(ev: Event, addr: string) { ev.Clean? || (ev.Drop? && ev.addr == addr) }

  ghost predicate StaleUpTo(cfg: Config, sys: Sys, addr: string, xid: nat, now: nat) {
    addr in sys.table ==> StaleBelow(sys.table[addr].txs, xid, now, cfg.age)
  }

  /** A drop or a cleanup forgets a completed call exactly if it and all the client's calls below it are stale. */
  lemma SweepForgetsIff(cfg: Config, sys: Sys, ev: Event, addr: string, t: Transaction)
    requires Inv(cfg, sys) && CanDo(sys, ev) && Sweeps(ev, addr) && Records(sys, addr, t) && t.state.Completed?
    ensures !Records(Do(cfg, sys, ev), addr, t) <==> StaleUpTo(cfg, sys, addr, t.xid, ev.now)
  {
    if ev.Clean? {
      CleanForgetsIff(cfg, sys.table[addr], ev.now, t);
    } else {
      LivePends(cfg, sys, addr, ev.xid);
      DropForgetsIff(cfg, sys.table[addr], ev.xid, ev.now, t);
    }
  }

  lemma CleanForgetsIff(cfg: Config, c: Client, now: nat, t: Transaction)
    requires Sorted(c.txs) && t in c.txs
    ensures (Active(cfg, c, now) ==> t !in Aged(cfg, c, now).txs) <==> StaleBelow(c.txs, t.xid, now, cfg.age)
  {
    PurgedSwept(c.txs, now, cfg.age);
    SweptIff(c.txs, Purged(c.txs, now, cfg.age), now, cfg.age, t);
  }

  lemma DropForgetsIff(cfg: Config, c: Client, xid: nat, now: nat, t: Transaction)
    requires ClientOk(cfg, c) && Has(c.txs, xid, InProgress) && c.active > 0 && t in c.txs && t.state.Completed?
    ensures t !in Finish(cfg, c, xid, now).txs <==> StaleBelow(c.txs, t.xid, now, cfg.age)
  {
    var marked := Marked(c.txs, xid, now);
    FinishKeeps(cfg, c, xid, now);
    MarkedSorted(c.txs, xid, now);
    if t.xid == xid { OneRecord(c.txs, t, Transaction(xid, InProgress)); }
    MarkedHas(c.txs, xid, now, t);
    PurgedSwept(marked, now, cfg.age);
    SweptIff(marked, Purged(marked, now, cfg.age), now, cfg.age, t);
    forall u ensures u in marked <==> if u.xid == xid then u.state == Completed(now) else u in c.txs {
      MarkedHas(c.txs, xid, now, u);
    }
    assert Transaction(xid, Completed(now)) in marked && Transaction(xid, InProgress) in c.txs;
  }

  // ----- runs -----

  /** States along a run; `states[i + 1]` follows from `states[i]` by `events[i]`. */
  ghost predicate Run(cfg: Config, states: seq<Sys>, events: seq<Event>) {
    && |states| == |events| + 1 && (forall i :: 0 <= i < |states| ==> Inv(cfg, states[i]))
    && forall i :: 0 <= i < |events| ==> CanDo(states[i], events[i]) && states[i + 1] == Do(cfg, states[i], events[i])
  }

  lemma RunMore(cfg: Config, states: seq<Sys>, events: seq<Event>, ev: Event)
    requires Run(cfg, states, events) && CanDo(states[|events|], ev)
    ensures Run(cfg, states + [Do(cfg, states[|events|], ev)], events + [ev])
  {
    DoInv(cfg, states[|events|], ev);
  }

  /** A tracker starts empty, and every run keeps the invariant. */
  lemma {:induction false} RunExists(cfg: Config, first: Sys, events: seq<Event>) returns (states: seq<Sys>, n: nat)
    requires Inv(cfg, first)
    ensures n <= |events| && Run(cfg, states, events[..n]) && states[0] == first
    ensures n < |events| ==> !CanDo(states[n], events[n])
    decreases |events|
  {
    if events == [] {
      states, n := [first], 0;
    } else {
      var m := |events| - 1;
      states, n := RunExists(cfg, first, events[..m]);
      assert events[..m][..n] == events[..n];
      if n == m && CanDo(states[n], events[n]) {
        RunMore(cfg, states, events[..n], events[n]);
        assert events[..n + 1] == events[..n] + [events[n]];
        states := states + [Do(cfg, states[n], events[n])];
        n := n + 1;
      }
    }
  }

  /** A call in progress stays recorded as such until its own lock drops. */
  lemma {:induction false} PendingStays(cfg: Config, states: seq<Sys>, events: seq<Event>, i: nat, j: nat,
                                        addr: string, xid: nat)
    requires Run(cfg, states, events) && i <= j <= |events| && Records(states[i], addr, Transaction(xid, InProgress))
    requires forall d :: i <= d < j ==> !(events[d].Drop? && events[d].addr == addr && events[d].xid == xid)
    ensures Records(states[j], addr, Transaction(xid, InProgress))
    decreases j
  {
    if i < j {
      PendingStays(cfg, states, events, i, j - 1, addr, xid);
      DoRemembers(cfg, states[j - 1], events[j - 1], addr, Transaction(xid, InProgress));
    }
  }

  ghost predicate KnownAt(sys: Sys, addr: string, xid: nat) { addr in sys.table && Known(sys.table[addr].txs, xid) }

  /** A recorded xid that is no longer recorded was completed, and then forgotten for one of the two reasons. */
  lemma {:induction false} ForgottenWhen(cfg: Config, states: seq<Sys>, events: seq<Event>, i: nat, j: nat,
                                         addr: string, xid: nat)
    returns (m: nat, at: nat)
    requires Run(cfg, states, events) && i <= j <= |events|
    requires KnownAt(states[i], addr, xid) && !KnownAt(states[j], addr, xid)
    ensures i <= m < j && Records(states[m], addr, Transaction(xid, Completed(at)))
    ensures Forgettable(cfg, states[m], events[m], addr, Transaction(xid, Completed(at)))
    decreases j
  {
    if KnownAt(states[j - 1], addr, xid) {
      m := j - 1;
      var p :| 0 <= p < |states[m].table[addr].txs| && states[m].table[addr].txs[p].xid == xid;
      var t := states[m].table[addr].txs[p];
      DoRemembers(cfg, states[m], events[m], addr, t);
      assert forall u :: Records(states[j], addr, u) ==> u.xid != xid;
      at := t.state.at;
    } else {
      m, at := ForgottenWhen(cfg, states, events, i, j - 1, addr, xid);
    }
  }

  /** The event starts a call that is accepted. */
  predicate Accepts(cfg: Config, sys: Sys, ev: Event, addr: string, xid: nat) {
    ev.Start? && ev.addr == addr && ev.xid == xid && Add(cfg, ClientAt(sys.table, addr, ev.now), xid, ev.now).0.Ok?
  }

  /** A call whose xid was accepted before is accepted again only if, in between, the earlier call's lock was
      dropped and then its record was forgotten: as stale, or as completed in a list over its limit. */
  lemma AcceptedAgain(cfg: Config, states: seq<Sys>, events: seq<Event>, i: nat, j: nat, addr: string, xid: nat)
    returns (d: nat, m: nat, at: nat)
    requires Run(cfg, states, events) && i < j < |events|
    requires Accepts(cfg, states[i], events[i], addr, xid) && Accepts(cfg, states[j], events[j], addr, xid)
    ensures i < d < m < j && events[d].Drop? && events[d].addr == addr && events[d].xid == xid
    ensures Records(states[m], addr, Transaction(xid, Completed(at)))
    ensures Forgettable(cfg, states[m], events[m], addr, Transaction(xid, Completed(at)))
  {
    assert (addr, xid) in states[i + 1].live;
    ClientAtOk(cfg, states[j], addr, events[j].now);
    AddAccepts(cfg, ClientAt(states[j].table, addr, events[j].now), xid, events[j].now);
    assert Inv(cfg, states[i + 1]) && Pends(states[i + 1].table, addr, xid);
    var p :| 0 <= p < |states[i + 1].table[addr].txs| && states[i + 1].table[addr].txs[p] == Transaction(xid, InProgress);
    assert KnownAt(states[i + 1], addr, xid);
    m, at := ForgottenWhen(cfg, states, events, i + 1, j, addr, xid);
    if forall d :: i + 1 <= d < m ==> !(events[d].Drop? && events[d].addr == addr && events[d].xid == xid) {
      PendingStays(cfg, states, events, i + 1, m, addr, xid);
      assert Inv(cfg, states[m]) && ClientOk(cfg, states[m].table[addr]);
      OneRecord(states[m].table[addr].txs, Transaction(xid, InProgress), Transaction(xid, Completed(at)));
    }
    d :| i + 1 <= d < m && events[d].Drop? && events[d].addr == addr && events[d].xid == xid;
  }

  lemma SweepForgets(cfg: Config, sys: Sys, ev: Event, addr: string, xid: nat)
    requires Inv(cfg, sys) && CanDo(sys, ev) && Sweeps(ev, addr) && StaleUpTo(cfg, sys, addr, xid, ev.now)
    ensures !KnownAt(Do(cfg, sys, ev), addr, xid)
  {
    var after := Do(cfg, sys, ev);
    if KnownAt(after, addr, xid) {
      var p :| 0 <= p < |after.table[addr].txs| && after.table[addr].txs[p].xid == xid;
      var t := after.table[addr].txs[p];
      if ev.Drop? {
        LivePends(cfg, sys, addr, ev.xid);
        assert Records(sys, addr, Transaction(ev.xid, InProgress));
        FinishRemembers(cfg, sys.table[addr], ev.xid, ev.now, t);
      } else {
        AgedRemembers(cfg, sys.table[addr], ev.now, t);
      }
      assert Records(sys, addr, t) && Stale(t, ev.now, cfg.age);
      SweepForgetsIff(cfg, sys, ev, addr, t);
    }
  }

  /** An xid becomes known only when a call with it is accepted. */
  lemma UnknownStays(cfg: Config, sys: Sys, ev: Event, addr: string, xid: nat)
    requires Inv(cfg, sys) && CanDo(sys, ev) && !KnownAt(sys, addr, xid) && !Accepts(cfg, sys, ev, addr, xid)
    ensures !KnownAt(Do(cfg, sys, ev), addr, xid)
  {
    var after := Do(cfg, sys, ev);
    if KnownAt(after, addr, xid) {
      var p :| 0 <= p < |after.table[addr].txs| && after.table[addr].txs[p].xid == xid;
      var t := after.table[addr].txs[p];
      match ev
      case Start(a, x, now) =>
        ClientAtOk(cfg, sys, a, now);
        AddRemembers(cfg, ClientAt(sys.table, a, now), x, now, t);
      case Drop(a, x, now) =>
        LivePends(cfg, sys, a, x);
        FinishRemembers(cfg, sys.table[a], x, now, t);
      case Clean(now) => AgedRemembers(cfg, sys.table[addr], now, t);
    }
  }

  lemma {:induction false} UnknownUntil(cfg: Config, states: seq<Sys>, events: seq<Event>, i: nat, j: nat,
                                        addr: string, xid: nat)
    requires Run(cfg, states, events) && i <= j <= |events| && !KnownAt(states[i], addr, xid)
    requires forall d :: i <= d < j ==> !Accepts(cfg, states[d], events[d], addr, xid)
    ensures !KnownAt(states[j], addr, xid)
    decreases j
  {
    if i < j {
      UnknownUntil(cfg, states, events, i, j - 1, addr, xid);
      UnknownStays(cfg, states[j - 1], events[j - 1], addr, xid);
    }
  }

  /** Once a drop or a cleanup has come when an xid and all below it were stale, a call with that xid is accepted
      whenever the client has fewer live calls than its maximum, and only then. */
  lemma AcceptedAfterSweep(cfg: Config, states: seq<Sys>, events: seq<Event>, i: nat, j: nat, addr: string, xid: nat)
    requires Run(cfg, states, events) && i < j < |events|
    requires Sweeps(events[i], addr) && StaleUpTo(cfg, states[i], addr, xid, events[i].now)
    requires forall d :: i < d < j ==> !Accepts(cfg, states[d], events[d], addr, xid)
    requires events[j].Start? && events[j].addr == addr && events[j].xid == xid
    ensures Accepts(cfg, states[j], events[j], addr, xid) <==> |LiveOf(states[j].live, addr)| < cfg.maxActive
  {
    SweepForgets(cfg, states[i], events[i], addr, xid);
    UnknownUntil(cfg, states, events, i + 1, j, addr, xid);
    var c := ClientAt(states[j].table, addr, events[j].now);
    ClientAtOk(cfg, states[j], addr, events[j].now);
    AddAccepts(cfg, c, xid, events[j].now);
    if addr in states[j].table {
      ActiveIsLive(cfg, states[j], addr);
    } else {
      NoneLive(cfg, states[j], addr);
    }
  }

  lemma NoneLive(cfg: Config, sys: Sys, addr: string)
    requires Inv(cfg, sys) && addr !in sys.table
    ensures LiveOf(sys.live, addr) == {}
  {
    forall x: nat ensures x !in LiveOf(sys.live, addr) {
      assert (addr, x) in sys.live <==> Pends(sys.table, addr, x);
    }
  }
}
