/** The retransmission tracker as it is updated in place (crates/nfs3-server/src/transaction_tracker.rs). */
module TransactionTrackers {
  import opened Common
  import opened Transactions

  /** The calls of one client, sorted by xid. */
  class ClientTransactions {
    const maxActive: nat
    const trimLimit: nat
    var transactions: Txs
    var lastActive: nat
    var active: nat

    constructor (now: nat, maxActive: nat, trimLimit: nat)
      requires maxActive < trimLimit
      ensures View() == Client([], now, 0) && this.maxActive == maxActive && this.trimLimit == trimLimit
    {
      this.maxActive, this.trimLimit := maxActive, trimLimit;
      transactions, lastActive, active := [], now, 0;
    }

    function View(): Client
      reads this
    {
      Client(transactions, lastActive, active)
    }

    /** Looks at the last record first, then searches by halves. */
    method FindTransaction(xid: nat) returns (r: Result<nat, nat>)
      requires Sorted(transactions)
      ensures r.Ok? <==> Found(transactions, xid)
      ensures r == if r.Ok? then Ok(Place(transactions, xid)) else Err(Place(transactions, xid))
    {
      var n := |transactions|;
      if n == 0 {
        return Err(0);
      }
      var last := transactions[n - 1].xid;
      if last == xid {
        PlaceUnique(transactions, xid, n - 1);
        return Ok(n - 1);
      } else if last < xid {
        PlaceUnique(transactions, xid, n);
        return Err(n);
      }
      var lo, hi := 0, n;
      while lo < hi
        invariant 0 <= lo <= hi <= n
        invariant forall i :: 0 <= i < lo ==> transactions[i].xid < xid
        invariant forall i :: hi <= i < n ==> xid < transactions[i].xid
      {
        var mid := lo + (hi - lo) / 2;
        if transactions[mid].xid == xid {
          PlaceUnique(transactions, xid, mid);
          return Ok(mid);
        } else if transactions[mid].xid < xid {
          lo := mid + 1;
        } else {
          hi := mid;
        }
      }
      PlaceUnique(transactions, xid, lo);
      return Err(lo);
    }

    method AddTransaction(xid: nat, now: nat, ghost age: nat) returns (r: Result<(), Error>)
      requires Sorted(transactions)
      modifies this
      ensures (r, View()) == Add(Config(age, maxActive, trimLimit), old(View()), xid, now)
      ensures r.Ok? ==> |transactions| <= trimLimit || transactions[0].state.InProgress?
    {
      lastActive := now;
      var found := FindTransaction(xid);
      if found.Ok? {
        return Err(AlreadyExists);
      }
      if active >= maxActive {
        return Err(TooManyRequests);
      }
      active := active + 1;
      var p := found.error;
      transactions := transactions[..p] + [Transaction(xid, InProgress)] + transactions[p..];
      TrimIfNeeded();
      return Ok(());
    }

    method TrimIfNeeded()
      modifies this`transactions
      ensures transactions == Trimmed(old(transactions), trimLimit) && Cut(old(transactions), transactions, trimLimit)
    {
      TrimmedCut(transactions, trimLimit);
      while |transactions| > trimLimit
        invariant Trimmed(transactions, trimLimit) == Trimmed(old(transactions), trimLimit)
        decreases |transactions|
      {
        if transactions[0].state.InProgress? {
          break;
        }
        transactions := transactions[1..];
      }
    }

    /** The record is there and in progress, and the counter is positive: neither the assertion that it is
        not completed yet nor the subtraction can fail. */
    method CompleteTransaction(xid: nat, now: nat)
      requires Sorted(transactions) && active == Pending(transactions) && Has(transactions, xid, InProgress)
      modifies this
      ensures transactions == Marked(old(transactions), xid, now) && lastActive == now && active == old(active) - 1
    {
      lastActive := now;
      FinishKeeps(Config(0, active, 0), View(), xid, now);
      var found := FindTransaction(xid);
      if found.Ok? {
        var p := found.value;
        assert transactions[p].state.InProgress?;
        transactions := transactions[p := Transaction(xid, Completed(now))];
        active := active - 1;
      }
    }

    method RemoveOldTransactions(now: nat, age: nat)
      modifies this`transactions
      ensures transactions == Purged(old(transactions), now, age)
      ensures Swept(old(transactions), transactions, now, age) && FrontFresh(transactions, now, age)
    {
      PurgedSwept(transactions, now, age);
      while transactions != []
        invariant Purged(transactions, now, age) == Purged(old(transactions), now, age)
        decreases |transactions|
      {
        if !Stale(transactions[0], now, age) {
          break;
        }
        transactions := transactions[1..];
      }
    }

    method IsActive(now: nat, age: nat) returns (r: bool)
      ensures r <==> Active(Config(age, maxActive, trimLimit), View(), now)
    {
      if Since(now, lastActive) < age {
        return true;
      }
      for i := 0 to |transactions|
        invariant forall j :: 0 <= j < i ==> Stale(transactions[j], now, age)
      {
        if !Stale(transactions[i], now, age) {
          return true;
        }
      }
      return false;
    }
  }

  /** A started call; dropping the lock completes it. */
  datatype TransactionLock = TransactionLock(client: ClientTransactions, xid: nat)

  /** What happens when a lock goes out of scope. */
  method Release(lock: TransactionLock, cfg: Config, now: nat)
    requires ClientOk(cfg, lock.client.View()) && Has(lock.client.transactions, lock.xid, InProgress)
    modifies lock.client
    ensures old(lock.client.active > 0)
    ensures lock.client.View() == old(Finish(cfg, lock.client.View(), lock.xid, now))
    ensures FrontFresh(lock.client.transactions, now, cfg.age)
  {
    ghost var before := lock.client.View();
    FinishKeeps(cfg, before, lock.xid, now);
    lock.client.CompleteTransaction(lock.xid, now);
    lock.client.RemoveOldTransactions(now, cfg.age);
    FinishIs(cfg, before, lock.xid, now, lock.client.View());
  }

  /** Each address has a record of its own with the tracker's limits, and the records are those of `table`. */
  ghost predicate Tied(cfg: Config, clients: map<string, ClientTransactions>, table: Table)
    reads clients.Values
  {
    true == (
      && clients.Keys == table.Keys
      && (forall a, b :: a in clients && b in clients && a != b ==> clients[a] != clients[b])
      && (forall a :: a in clients ==> clients[a].maxActive == cfg.maxActive && clients[a].trimLimit == cfg.trimLimit)
      && (forall a :: a in clients ==> clients[a].View() == table[a]))
  }

  class TransactionTracker {
    const cfg: Config
    var clients: map<string, ClientTransactions>
    // The records as values, with the calls whose locks have not been dropped.
    ghost var sys: Sys

    ghost predicate Valid()
      reads this, clients.Values
    {
      true == (Tied(cfg, clients, sys.table) && Inv(cfg, sys))
    }

    constructor (cfg: Config)
      requires cfg.maxActive < cfg.trimLimit
      ensures Valid() && this.cfg == cfg && sys == Sys(map[], {})
    {
      this.cfg, clients, sys := cfg, map[], Sys(map[], {});
    }

    /** Adds the client if it is new. */
    method ClientFor(addr: string, now: nat) returns (client: ClientTransactions)
      requires cfg.maxActive < cfg.trimLimit && Tied(cfg, clients, sys.table)
      modifies this`clients
      ensures addr in clients && client == clients[addr] && client.View() == ClientAt(sys.table, addr, now)
      ensures Tied(cfg, clients, sys.table[addr := ClientAt(sys.table, addr, now)])
      ensures forall a :: a in old(clients) ==> clients[a] == old(clients)[a]
      ensures addr !in old(clients) ==> fresh(client)
    {
      if addr !in clients {
        client := new ClientTransactions(now, cfg.maxActive, cfg.trimLimit);
        clients := clients[addr := client];
      } else {
        client := clients[addr];
      }
    }

    /** The record of the client, new or old, takes the call. */
    method AddCall(addr: string, xid: nat, now: nat) returns (client: ClientTransactions, r: Result<(), Error>)
      requires Tied(cfg, clients, sys.table) && ClientOk(cfg, ClientAt(sys.table, addr, now))
      requires cfg.maxActive < cfg.trimLimit
      modifies this`clients, clients.Values
      ensures addr in clients && client == clients[addr] && r == Add(cfg, ClientAt(sys.table, addr, now), xid, now).0
      ensures Tied(cfg, clients, sys.table[addr := Add(cfg, ClientAt(sys.table, addr, now), xid, now).1])
    {
      client := ClientFor(addr, now);
      r := client.AddTransaction(xid, now, cfg.age);
    }

    method StartTransaction(addr: string, xid: nat, now: nat) returns (r: Result<TransactionLock, Error>)
      requires Valid()
      modifies this, clients.Values
      ensures Valid() && sys == Do(cfg, old(sys), Start(addr, xid, now))
      ensures r.Ok? ==> addr in clients && r.value == TransactionLock(clients[addr], xid) && (addr, xid) in sys.live
      ensures r.Ok? <==> Accepts(cfg, old(sys), Start(addr, xid, now), addr, xid)
      ensures addr in clients && clients[addr].lastActive == now
    {
      DoInv(cfg, sys, Start(addr, xid, now));
      ClientAtOk(cfg, sys, addr, now);
      var client, result := AddCall(addr, xid, now);
      sys := Do(cfg, sys, Start(addr, xid, now));
      return if result.Err? then Err(result.error) else Ok(TransactionLock(client, xid));
    }

    /** Dropping a live lock. */
    method DropLock(addr: string, lock: TransactionLock, now: nat)
      requires Valid() && addr in clients && lock.client == clients[addr] && (addr, lock.xid) in sys.live
      modifies this`sys, lock.client
      ensures Valid() && sys == Do(cfg, old(sys), Drop(addr, lock.xid, now))
      ensures FrontFresh(lock.client.transactions, now, cfg.age) && lock.client.lastActive == now
    {
      DoInv(cfg, sys, Drop(addr, lock.xid, now));
      LivePends(cfg, sys, addr, lock.xid);
      Release(lock, cfg, now);
      sys := Do(cfg, sys, Drop(addr, lock.xid, now));
    }

    /** Forgets clients that have been idle and have nothing left to remember, and purges the others. */
    method Cleanup(now: nat)
      requires Valid()
      modifies this, clients.Values
      ensures Valid() && sys == Do(cfg, old(sys), Clean(now))
      ensures forall a :: a in clients ==> FrontFresh(clients[a].transactions, now, cfg.age)
      ensures forall a :: a in old(sys.table) && a !in clients <==>
        && a in old(sys.table) && Since(now, old(sys.table)[a].lastActive) >= cfg.age
        && forall t :: t in old(sys.table)[a].txs ==> Expired(t, now, cfg.age)
    {
      DoInv(cfg, sys, Clean(now));
      var kept := Retain(cfg, clients, sys.table, now);
      clients, sys := kept, Do(cfg, sys, Clean(now));
    }
  }

  method Retain(cfg: Config, clients: map<string, ClientTransactions>, ghost table: Table, now: nat)
    returns (kept: map<string, ClientTransactions>)
    requires Tied(cfg, clients, table)
    modifies clients.Values
    ensures Tied(cfg, kept, Cleaned(cfg, table, now)) && kept.Values <= clients.Values
    ensures forall a :: a in kept ==> FrontFresh(kept[a].transactions, now, cfg.age)
  {
    kept := map[];
    var todo := clients.Keys;
    while todo != {}
      invariant todo <= clients.Keys && kept.Keys <= clients.Keys - todo
      invariant forall a :: a in clients.Keys - todo ==> (a in kept <==> Active(cfg, table[a], now))
      invariant forall a :: a in todo ==> clients[a].View() == table[a]
      invariant forall a :: a in kept ==> kept[a] == clients[a] && kept[a].View() == Aged(cfg, table[a], now)
      invariant forall a :: a in kept ==> FrontFresh(kept[a].transactions, now, cfg.age)
    {
      var addr :| addr in todo;
      var client := clients[addr];
      var active := client.IsActive(now, cfg.age);
      if active {
        client.RemoveOldTransactions(now, cfg.age);
        kept := kept[addr := client];
      }
      todo := todo - {addr};
    }
  }
}
