/** Which daemon serves a volume (crates/slatefs-core/src/control.rs): placement records, the changes made to
    them, and the choice of nodes by load. */
module Placement {
  import opened Common

  type NodeId = string

  datatype NodeState = Healthy | Leaving | Unhealthy | Offline

  datatype Metrics = Metrics(writable: nat, replicas: nat, snapshots: nat, ops: nat, bytes: nat, errors: nat, degraded: nat)

  datatype Node = Node(state: NodeState, weight: nat, metrics: Metrics)

  datatype Endpoint = Endpoint(name: string, protocol: nat, address: string, target: Option<NodeId>, generation: nat)

  datatype DrainRecord = DrainRecord(from: NodeId, to: NodeId, started: nat, completed: Option<nat>)

  datatype PlacementState = Unassigned | Active | Draining

  datatype Record = Record(state: PlacementState, primary: Option<NodeId>, standbys: seq<NodeId>,
                           endpoints: seq<Endpoint>, drain: Option<DrainRecord>, generation: nat)

  const MAX_GENERATION: nat := 0xFFFF_FFFF_FFFF_FFFF

  const NEW_RECORD: Record := Record(Unassigned, None, [], [], None, 1)

  /** Generations are 64 bits wide and saturate. */
  function Bump(generation: nat): nat { if generation < MAX_GENERATION then generation + 1 else generation }

  // ----- the invariant of a record -----

  ghost predicate Distinct<T>(s: seq<T>) { forall i, j :: 0 <= i < j < |s| ==> s[i] != s[j] }

  /** An open drain leaves the primary; a completed one ended there. */
  predicate DrainOk(r: Record) {
    match r.drain
    case None => r.state != Draining
    case Some(d) =>
      d.from != d.to && if d.completed.None? then r.state == Draining && r.primary == Some(d.from)
                        else r.state == Active && r.primary == Some(d.to)
  }

  ghost predicate RecordOk(r: Record) {
    && (r.state == Unassigned <==> r.primary == None)
    && (forall i :: 0 <= i < |r.endpoints| ==> r.endpoints[i].target == r.primary)
    && Distinct(r.standbys) && (r.primary.Some? ==> r.primary.value !in r.standbys)
    && (r.primary.None? ==> r.standbys == [])
    && DrainOk(r)
    && (forall i, j :: 0 <= i < j < |r.endpoints| ==> r.endpoints[i].name != r.endpoints[j].name)
  }

  // ----- changes of a record -----

  /** Giving the volume to a node (assignment, promotion, a completed drain), starting a drain, and setting an endpoint. */
  datatype Change =
    | Own(node: NodeId, standbys: seq<NodeId>, drain: Option<DrainRecord>)
    | StartDrain(to: NodeId, now: nat)
    | SetEndpoint(name: string, protocol: nat, address: string)

  ghost predicate Allowed(r: Record, c: Change) {
    match c
    case Own(node, standbys, drain) =>
      && Distinct(standbys) && node !in standbys
      && (drain.Some? ==> drain.value.completed.Some? && drain.value.to == node && drain.value.from != node)
    case StartDrain(to, now) => r.primary.Some? && r.primary.value != to
    case SetEndpoint(name, protocol, address) => true
  }

  function Retargeted(e: Endpoint, target: Option<NodeId>): Endpoint {
    e.(target := target, generation := Bump(e.generation))
  }

  function AllRetargeted(es: seq<Endpoint>, target: Option<NodeId>): seq<Endpoint> {
    seq(|es|, i requires 0 <= i < |es| => Retargeted(es[i], target))
  }

  /** The position of the endpoint with a name, or one past the last. */
  function EndpointAt(es: seq<Endpoint>, name: string): (k: nat)
    ensures k <= |es| && (k < |es| ==> es[k].name == name) && forall i :: 0 <= i < k ==> es[i].name != name
  {
    if es == [] || es[0].name == name then 0 else 1 + EndpointAt(es[1..], name)
  }

  function WithEndpoint(es: seq<Endpoint>, target: Option<NodeId>, name: string, protocol: nat, address: string)
    : seq<Endpoint>
  {
    var k := EndpointAt(es, name);
    if k < |es| then es[k := Endpoint(name, protocol, address, target, Bump(es[k].generation))]
    else es + [Endpoint(name, protocol, address, target, 1)]
  }

  function Changed(r: Record, c: Change): Record {
    match c
    case Own(node, standbys, drain) =>
      Record(Active, Some(node), standbys, AllRetargeted(r.endpoints, Some(node)), drain, Bump(r.generation))
    case StartDrain(to, now) =>
      if r.primary.None? then r else r.(state := Draining, drain := Some(DrainRecord(r.primary.value, to, now, None)))
    case SetEndpoint(name, protocol, address) =>
      r.(endpoints := WithEndpoint(r.endpoints, r.primary, name, protocol, address))
  }

  lemma ChangedKeeps(r: Record, c: Change)
    requires RecordOk(r) && Allowed(r, c)
    ensures RecordOk(Changed(r, c))
  {
    var r' := Changed(r, c);
    match c
    case Own(node, standbys, drain) =>
      forall i, j | 0 <= i < j < |r'.endpoints| ensures r'.endpoints[i].name != r'.endpoints[j].name {
        assert r.endpoints[i].name != r.endpoints[j].name;
      }
    case StartDrain(to, now) =>
    case SetEndpoint(name, protocol, address) =>
      var k := EndpointAt(r.endpoints, name);
      forall i, j | 0 <= i < j < |r'.endpoints| ensures r'.endpoints[i].name != r'.endpoints[j].name {
        if j < |r.endpoints| { assert r.endpoints[i].name != r.endpoints[j].name; }
      }
  }

  function EndpointOf(r: Record, name: string): Option<Endpoint> {
    var k := EndpointAt(r.endpoints, name);
    if k < |r.endpoints| then Some(r.endpoints[k]) else None
  }

  /** What a change does to each endpoint: a new owner retargets it under its next generation, setting it replaces what
      was set before under its next generation, and nothing else touches it. */
  lemma ChangedEndpoint(r: Record, c: Change, name: string)
    ensures var e, e' := EndpointOf(r, name), EndpointOf(Changed(r, c), name);
      match c
      case Own(node, _, _) =>
        e' == if e.None? then None else Some(e.value.(target := Some(node), generation := Bump(e.value.generation)))
      case StartDrain(_, _) => e' == e
      case SetEndpoint(n, protocol, address) =>
        if n != name then e' == e
        else e' == Some(Endpoint(n, protocol, address, r.primary, if e.None? then 1 else Bump(e.value.generation)))
  {
    var k := EndpointAt(r.endpoints, name);
    match c
    case Own(node, _, _) => FoundFirst(Changed(r, c).endpoints, name, k);
    case StartDrain(_, _) =>
    case SetEndpoint(n, _, _) =>
      if n == name || k < |r.endpoints| { FoundFirst(Changed(r, c).endpoints, name, k); }
  }

  /** The first position with the name, from the front. */
  lemma FoundFirst(es: seq<Endpoint>, name: string, k: nat)
    requires k <= |es| && (k < |es| ==> es[k].name == name) && forall i :: 0 <= i < k ==> es[i].name != name
    ensures EndpointAt(es, name) == k
  {
  }

  /** A change of primary raises the generation, and no change lowers it. */
  lemma ChangedGeneration(r: Record, c: Change)
    ensures r.generation <= MAX_GENERATION ==> r.generation <= Changed(r, c).generation <= MAX_GENERATION
    ensures Changed(r, c).primary != r.primary && r.generation < MAX_GENERATION ==>
      Changed(r, c).generation == r.generation + 1
    ensures c.Own? && r.generation < MAX_GENERATION ==> Changed(r, c).generation == r.generation + 1
    ensures !c.Own? ==> Changed(r, c).generation == r.generation && Changed(r, c).primary == r.primary
  {
  }

  // ----- runs -----

  ghost predicate Run(records: seq<Record>, changes: seq<Change>) {
    && |records| == |changes| + 1 && RecordOk(records[0])
    && forall i :: 0 <= i < |changes| ==>
      Allowed(records[i], changes[i]) && records[i + 1] == Changed(records[i], changes[i])
  }

  lemma {:induction false} RunKeeps(records: seq<Record>, changes: seq<Change>, n: nat)
    requires Run(records, changes) && n < |records|
    ensures RecordOk(records[n])
    decreases n
  {
    if n > 0 {
      RunKeeps(records, changes, n - 1);
      ChangedKeeps(records[n - 1], changes[n - 1]);
    }
  }

  lemma {:induction false} RunGeneration(records: seq<Record>, changes: seq<Change>, i: nat, j: nat)
    requires Run(records, changes) && i <= j < |records|
    ensures records[i].generation <= records[j].generation
    decreases j
  {
    if i < j {
      RunGeneration(records, changes, i, j - 1);
      ChangedGeneration(records[j - 1], changes[j - 1]);
    }
  }

  /** A generation below saturation names one primary: two moments of a run with the same generation have the
      same primary and every stable endpoint on it. */
  lemma {:induction false} GenerationNamesPrimary(records: seq<Record>, changes: seq<Change>, i: nat, j: nat)
    requires Run(records, changes) && i <= j < |records|
    requires records[i].generation == records[j].generation < MAX_GENERATION
    ensures records[i].primary == records[j].primary
    ensures forall k :: 0 <= k < |records[j].endpoints| ==> records[j].endpoints[k].target == records[i].primary
    decreases j
  {
    RunKeeps(records, changes, j);
    if i < j {
      RunGeneration(records, changes, i, j - 1);
      ChangedGeneration(records[j - 1], changes[j - 1]);
      GenerationNamesPrimary(records, changes, i, j - 1);
    }
  }

  /** Unless the counter saturates, its rise is the number of times the volume was given to a node. */
  function Owns(changes: seq<Change>): nat {
    if changes == [] then 0 else Owns(changes[..|changes| - 1]) + (if changes[|changes| - 1].Own? then 1 else 0)
  }

  lemma {:induction false} GenerationCounts(records: seq<Record>, changes: seq<Change>, n: nat)
    requires Run(records, changes) && n < |records| && records[n].generation < MAX_GENERATION
    ensures records[n].generation == records[0].generation + Owns(changes[..n])
    decreases n
  {
    if n > 0 {
      ChangedGeneration(records[n - 1], changes[n - 1]);
      GenerationCounts(records, changes, n - 1);
      assert changes[..n][..n - 1] == changes[..n - 1];
    }
  }

  // ----- load -----

  /** Lexicographic order of node ids. */
  predicate Before(a: NodeId, b: NodeId) {
    if b == [] then false
    else if a == [] then true
    else if a[0] == b[0] then Before(a[1..], b[1..])
    else a[0] < b[0]
  }

  /** The ids agree on the first `n` characters, and then the first one ends or has the smaller character. */
  predicate PrecedesAt(a: NodeId, b: NodeId, n: nat) { n <= |a| && n < |b| && a[..n] == b[..n] && (n == |a| || a[n] < b[n]) }

  lemma {:induction false} BeforeIff(a: NodeId, b: NodeId)
    ensures Before(a, b) <==> exists n: nat :: PrecedesAt(a, b, n)
    decreases |a|
  {
    if a == [] || b == [] || a[0] != b[0] {
      assert Before(a, b) ==> PrecedesAt(a, b, 0);
      assert forall n: nat :: n > 0 && PrecedesAt(a, b, n) ==> a[..n][0] == b[..n][0];
    } else {
      BeforeIff(a[1..], b[1..]);
      assert a == [a[0]] + a[1..] && b == [b[0]] + b[1..];
      forall n: nat ensures PrecedesAt(a, b, n + 1) <==> PrecedesAt(a[1..], b[1..], n) {
        if n < |a| && n < |b| { assert a[..n + 1] == [a[0]] + a[1..][..n] && b[..n + 1] == [b[0]] + b[1..][..n]; }
      }
      assert forall n: nat :: PrecedesAt(a, b, n) ==> n > 0 && PrecedesAt(a[1..], b[1..], n - 1);
    }
  }

  lemma {:induction false} BeforeTotal(a: NodeId, b: NodeId)
    ensures (Before(a, b) && a != b && !Before(b, a)) || (Before(b, a) && a != b && !Before(a, b))
         || (a == b && !Before(a, b))
    decreases |a|
  {
    if a != [] && b != [] && a[0] == b[0] {
      BeforeTotal(a[1..], b[1..]);
      assert a == [a[0]] + a[1..] && b == [b[0]] + b[1..];
    }
  }

  lemma {:induction false} BeforeTransitive(a: NodeId, b: NodeId, c: NodeId)
    requires Before(a, b) && Before(b, c)
    ensures Before(a, c)
    decreases |a|
  {
    if a != [] && a[0] == b[0] && b[0] == c[0] { BeforeTransitive(a[1..], b[1..], c[1..]); }
  }

  function RawLoad(m: Metrics, held: nat): nat {
    (if held > m.writable then held else m.writable) * 1_000_000 + m.replicas * 250_000
    + m.snapshots * 100_000 + m.ops + m.bytes / 1024 + m.errors * 10_000 + m.degraded * 500_000
  }

  function LoadScore(node: Node, held: nat): nat {
    RawLoad(node.metrics, held) / (if node.weight > 1 then node.weight else 1)
  }

  /** Every count and rate of `m` is at most that of `n`. */
  predicate NoBusier(m: Metrics, n: Metrics) {
    && m.writable <= n.writable && m.replicas <= n.replicas && m.snapshots <= n.snapshots && m.ops <= n.ops
    && m.bytes <= n.bytes && m.errors <= n.errors && m.degraded <= n.degraded
  }

  /** The score never falls when a metric or the number of volumes held rises, and never rises with the weight. */
  lemma LoadMonotone(a: Node, held: nat, b: Node, held': nat)
    requires NoBusier(a.metrics, b.metrics) && held <= held' && a.weight >= b.weight
    ensures LoadScore(a, held) <= LoadScore(b, held')
  {
    var x, y := RawLoad(a.metrics, held), RawLoad(b.metrics, held');
    QuotientGrows(x, if a.weight > 1 then a.weight else 1, y, if b.weight > 1 then b.weight else 1);
  }

  /** What one more of each counts, on a node of weight one that holds as many volumes as it reports; a node of weight
      `w` takes a `w`th of it. */
  lemma LoadSteps(m: Metrics, state: NodeState)
    ensures var score := LoadScore(Node(state, 1, m), m.writable);
      && LoadScore(Node(state, 1, m), m.writable + 1) == score + 1_000_000
      && LoadScore(Node(state, 1, m.(replicas := m.replicas + 1)), m.writable) == score + 250_000
      && LoadScore(Node(state, 1, m.(snapshots := m.snapshots + 1)), m.writable) == score + 100_000
      && LoadScore(Node(state, 1, m.(ops := m.ops + 1)), m.writable) == score + 1
      && LoadScore(Node(state, 1, m.(bytes := m.bytes + 1024)), m.writable) == score + 1
      && LoadScore(Node(state, 1, m.(errors := m.errors + 1)), m.writable) == score + 10_000
      && LoadScore(Node(state, 1, m.(degraded := m.degraded + 1)), m.writable) == score + 500_000
    ensures forall w: nat, held: nat :: w > 0 ==>
      LoadScore(Node(state, w, m), held) == LoadScore(Node(state, 1, m), held) / w
  {
  }

  lemma QuotientGrows(x: nat, d: nat, y: nat, e: nat)
    requires x <= y && d >= e > 0
    ensures x / d <= y / e
  {
    var q, p := x / d, y / e;
    assert x == d * q + x % d && y == e * p + y % e;
    ProductGrows(e, d, q);
    assert e * (p + 1) == e * p + e;
    if p < q { ProductGrows(p + 1, q, e); }
  }

  lemma {:induction false} ProductGrows(a: nat, b: nat, k: nat)
    requires a <= b
    ensures a * k <= b * k && a * k == k * a && b * k == k * b
    decreases k
  {
    if k > 0 {
      ProductGrows(a, b, k - 1);
      assert a * k == a * (k - 1) + a && b * k == b * (k - 1) + b;
    }
  }

  type VolumeId = (string, string)

  /** The volumes a node is primary of. */
  function Assigned(placements: map<VolumeId, Record>, id: NodeId): set<VolumeId> {
    set v | v in placements && placements[v].state != Unassigned && placements[v].primary == Some(id)
  }

  /** A node's load, then its id. */
  datatype Rank = Rank(score: nat, id: NodeId)

  predicate Lower(a: Rank, b: Rank) { a.score < b.score || (a.score == b.score && Before(a.id, b.id)) }

  lemma LowerTotal(a: Rank, b: Rank)
    ensures (Lower(a, b) && a != b && !Lower(b, a)) || (Lower(b, a) && a != b && !Lower(a, b)) || (a == b && !Lower(a, b))
  {
    BeforeTotal(a.id, b.id);
  }

  lemma LowerTransitive(a: Rank, b: Rank, c: Rank)
    requires Lower(a, b) && Lower(b, c)
    ensures Lower(a, c)
  {
    if a.score == b.score == c.score { BeforeTransitive(a.id, b.id, c.id); }
  }
}
