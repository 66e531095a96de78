/** The control store's placement operations (crates/slatefs-core/src/control.rs): choosing nodes by load, and
    assigning, promoting and draining volumes over durable records. */
module Fleets {
  import opened Common
  import opened Placement

  datatype Error = Missing | Unfit

  type Nodes = map<NodeId, Node>
  type Placements = map<VolumeId, Record>

  predicate Placeable(nodes: Nodes, id: NodeId) { id in nodes && nodes[id].state.Healthy? }

  function RankOf(nodes: Nodes, placements: Placements, id: NodeId): Rank {
    Rank(if id in nodes then LoadScore(nodes[id], |Assigned(placements, id)|) else 0, id)
  }

  // ----- counting assignments -----

  function CountOf(counts: map<NodeId, nat>, id: NodeId): nat { if id in counts then counts[id] else 0 }

  method AssignmentCounts(placements: Placements) returns (counts: map<NodeId, nat>)
    ensures forall id :: CountOf(counts, id) == |Assigned(placements, id)|
  {
    counts := map[];
    var todo, done: Placements := placements.Keys, map[];
    while todo != {}
      invariant todo <= placements.Keys && done == placements - todo
      invariant forall id :: CountOf(counts, id) == |Assigned(done, id)|
    {
      var v :| v in todo;
      var r := placements[v];
      ghost var before := counts;
      if r.state != Unassigned && r.primary.Some? {
        counts := counts[r.primary.value := CountOf(counts, r.primary.value) + 1];
      }
      forall id ensures CountOf(counts, id) == |Assigned(done[v := r], id)| {
        CountFor(done, v, r, id);
        assert CountOf(counts, id) == CountOf(before, id) + One(r, id);
      }
      todo, done := todo - {v}, done[v := r];
    }
    assert done == placements;
  }

  function One(r: Record, id: NodeId): nat { if r.state != Unassigned && r.primary == Some(id) then 1 else 0 }

  lemma CountFor(done: Placements, v: VolumeId, r: Record, id: NodeId)
    requires v !in done
    ensures |Assigned(done[v := r], id)| == |Assigned(done, id)| + One(r, id)
  {
    assert Assigned(done[v := r], id) == if One(r, id) == 1 then Assigned(done, id) + {v} else Assigned(done, id);
  }

  // ----- choosing nodes -----

  /** `id` is healthy and not excluded, and no other such node ranks lower. */
  ghost predicate Lowest(nodes: Nodes, placements: Placements, excluded: set<NodeId>, id: NodeId) {
    && Placeable(nodes, id) && id !in excluded
    && forall other :: Placeable(nodes, other) && other !in excluded && other != id ==>
         Lower(RankOf(nodes, placements, id), RankOf(nodes, placements, other))
  }

  method ChooseLowLoad(nodes: Nodes, placements: Placements, excluded: set<NodeId>) returns (r: Option<NodeId>)
    ensures r.Some? ==> Lowest(nodes, placements, excluded, r.value)
    ensures r.None? ==> forall id :: Placeable(nodes, id) ==> id in excluded
  {
    var counts := AssignmentCounts(placements);
    var todo := nodes.Keys;
    r := None;
    while todo != {}
      invariant todo <= nodes.Keys
      invariant r.Some? ==> Placeable(nodes, r.value) && r.value !in excluded && r.value !in todo
      invariant r.None? ==> forall id :: Placeable(nodes, id) && id !in todo ==> id in excluded
      invariant r.Some? ==> forall id :: Placeable(nodes, id) && id !in todo && id !in excluded && id != r.value ==>
        Lower(RankOf(nodes, placements, r.value), RankOf(nodes, placements, id))
    {
      var id :| id in todo;
      if Placeable(nodes, id) && id !in excluded {
        var rank := Rank(LoadScore(nodes[id], CountOf(counts, id)), id);
        if r.None? {
          r := Some(id);
        } else {
          var best := Rank(LoadScore(nodes[r.value], CountOf(counts, r.value)), r.value);
          LowerTotal(rank, best);
          if Lower(rank, best) {
            StillLowest(nodes, placements, excluded, todo, id, r.value);
            r := Some(id);
          }
        }
      }
      todo := todo - {id};
    }
  }

  lemma StillLowest(nodes: Nodes, placements: Placements, excluded: set<NodeId>, todo: set<NodeId>,
                    id: NodeId, best: NodeId)
    requires id in nodes && best in nodes && Lower(RankOf(nodes, placements, id), RankOf(nodes, placements, best))
    requires forall x :: Placeable(nodes, x) && x !in todo && x !in excluded && x != best ==>
      Lower(RankOf(nodes, placements, best), RankOf(nodes, placements, x))
    ensures forall x :: Placeable(nodes, x) && x !in todo && x !in excluded ==>
      Lower(RankOf(nodes, placements, id), RankOf(nodes, placements, x))
  {
    forall x | Placeable(nodes, x) && x !in todo && x !in excluded
      ensures Lower(RankOf(nodes, placements, id), RankOf(nodes, placements, x))
    {
      if x != best {
        LowerTransitive(RankOf(nodes, placements, id), RankOf(nodes, placements, best), RankOf(nodes, placements, x));
      }
    }
  }

  // ----- standbys -----

  ghost predicate Ascending(s: seq<Rank>) { forall i, j :: 0 <= i < j < |s| ==> Lower(s[i], s[j]) }

  function InsertRank(x: Rank, s: seq<Rank>): seq<Rank> {
    if s == [] || Lower(x, s[0]) then [x] + s else [s[0]] + InsertRank(x, s[1..])
  }

  lemma {:induction false} InsertRankSorts(x: Rank, s: seq<Rank>)
    requires Ascending(s) && x !in s
    ensures Ascending(InsertRank(x, s))
    ensures forall y :: y in InsertRank(x, s) <==> y == x || y in s
    decreases |s|
  {
    var r := InsertRank(x, s);
    if s == [] {
    } else if Lower(x, s[0]) {
      forall j | 0 <= j < |s| ensures Lower(x, s[j]) { if j > 0 { LowerTransitive(x, s[0], s[j]); } }
    } else {
      InsertRankSorts(x, s[1..]);
      LowerTotal(x, s[0]);
      assert s == [s[0]] + s[1..] && forall y :: y in s[1..] ==> Lower(s[0], y);
      forall j | 0 < j < |r| ensures Lower(s[0], r[j]) { assert r[j] in InsertRank(x, s[1..]); }
    }
  }

  /** Every healthy node but the primary, from the least to the most loaded. */
  ghost predicate Standbys(nodes: Nodes, placements: Placements, primary: NodeId, s: seq<NodeId>) {
    && (forall id :: id in s <==> Placeable(nodes, id) && id != primary)
    && forall i, j :: 0 <= i < j < |s| ==> Lower(RankOf(nodes, placements, s[i]), RankOf(nodes, placements, s[j]))
  }

  method StandbysFor(nodes: Nodes, placements: Placements, primary: NodeId) returns (s: seq<NodeId>)
    ensures Standbys(nodes, placements, primary, s) && Distinct(s)
  {
    var counts := AssignmentCounts(placements);
    var todo := nodes.Keys;
    var ranks: seq<Rank> := [];
    while todo != {}
      invariant todo <= nodes.Keys && Ascending(ranks)
      invariant forall x :: x in ranks <==>
        Placeable(nodes, x.id) && x.id != primary && x.id !in todo && x == RankOf(nodes, placements, x.id)
    {
      var id :| id in todo;
      if Placeable(nodes, id) && id != primary {
        var rank := Rank(LoadScore(nodes[id], CountOf(counts, id)), id);
        InsertRankSorts(rank, ranks);
        ranks := InsertRank(rank, ranks);
      }
      todo := todo - {id};
    }
    s := seq(|ranks|, i requires 0 <= i < |ranks| => ranks[i].id);
    RanksToStandbys(nodes, placements, primary, ranks, s);
  }

  lemma RanksToStandbys(nodes: Nodes, placements: Placements, primary: NodeId, ranks: seq<Rank>, s: seq<NodeId>)
    requires Ascending(ranks) && |s| == |ranks| && forall i :: 0 <= i < |s| ==> s[i] == ranks[i].id
    requires forall x :: x in ranks <==> Placeable(nodes, x.id) && x.id != primary && x == RankOf(nodes, placements, x.id)
    ensures Standbys(nodes, placements, primary, s) && Distinct(s)
  {
    forall id | Placeable(nodes, id) && id != primary ensures id in s {
      var x := RankOf(nodes, placements, id);
      assert x.id == id;
      assert x in ranks;
      var i :| 0 <= i < |ranks| && ranks[i] == x;
      assert s[i] == id;
    }
    forall i | 0 <= i < |s|
      ensures Placeable(nodes, s[i]) && s[i] != primary && ranks[i] == RankOf(nodes, placements, s[i])
    {
      assert ranks[i] in ranks;
    }
    forall i, j | 0 <= i < j < |s| ensures s[i] != s[j] {
      assert Lower(ranks[i], ranks[j]);
      LowerTotal(ranks[i], ranks[j]);
    }
  }

  /** `id` is a healthy standby, and none before it is healthy. */
  ghost predicate FirstAmong(nodes: Nodes, standbys: seq<NodeId>, id: NodeId) {
    exists i :: 0 <= i < |standbys| && standbys[i] == id && Placeable(nodes, id)
      && forall j :: 0 <= j < i ==> !Placeable(nodes, standbys[j])
  }

  method FirstHealthy(nodes: Nodes, standbys: seq<NodeId>) returns (r: Option<NodeId>)
    ensures r.Some? ==> r.value in standbys && FirstAmong(nodes, standbys, r.value)
    ensures r.None? ==> forall id :: id in standbys ==> !Placeable(nodes, id)
  {
    for i := 0 to |standbys|
      invariant forall j :: 0 <= j < i ==> !Placeable(nodes, standbys[j])
    {
      if Placeable(nodes, standbys[i]) {
        return Some(standbys[i]);
      }
    }
    return None;
  }

  /** The first healthy standby if there is one, or else the lowest ranked node that has not failed. */
  ghost predicate Replacement(nodes: Nodes, placements: Placements, standbys: seq<NodeId>, failed: NodeId, id: NodeId) {
    true == (
      && Placeable(nodes, id)
      && (id in standbys ==> FirstAmong(nodes, standbys, id))
      && (id !in standbys ==> Lowest(nodes, placements, {failed}, id) && forall s :: s in standbys ==> !Placeable(nodes, s)))
  }

  method ChooseReplacement(nodes: Nodes, placements: Placements, standbys: seq<NodeId>, failed: NodeId)
    returns (r: Option<NodeId>)
    requires failed !in standbys
    ensures r.Some? ==> r.value != failed && Replacement(nodes, placements, standbys, failed, r.value)
    ensures r.None? ==> forall id :: Placeable(nodes, id) ==> id == failed
  {
    r := FirstHealthy(nodes, standbys);
    if r.None? {
      r := ChooseLowLoad(nodes, placements, {failed});
    }
  }

  predicate IsPrimary(placements: Placements, v: VolumeId, id: NodeId) {
    v in placements && placements[v].primary == Some(id)
  }

  function Marked(nodes: Nodes, failed: NodeId): Nodes {
    if failed in nodes then nodes[failed := nodes[failed].(state := Unhealthy)] else nodes
  }

  /** The characters that trimming takes for white space: those with the Unicode property White_Space. */
  predicate IsSpace(c: char) {
    var u := c as int;
    || 0x9 <= u <= 0xD || u == 0x20 || u == 0x85 || u == 0xA0 || u == 0x1680 || 0x2000 <= u <= 0x200A
    || u == 0x2028 || u == 0x2029 || u == 0x202F || u == 0x205F || u == 0x3000
  }

  /** Nothing is left of the address once it is trimmed. */
  predicate Blank(address: string) { forall c :: c in address ==> IsSpace(c) }

  predicate IsWord(c: char) { 'a' <= c <= 'z' || '0' <= c <= '9' }

  /** One to 64 of `a` to `z`, `0` to `9`, `-` and `_`, of which the first is a letter or digit. */
  predicate ValidName(name: string) {
    0 < |name| <= 64 && IsWord(name[0]) && forall c :: c in name ==> IsWord(c) || c == '-' || c == '_'
  }

  // ----- the store -----

  /** move_stable_endpoints. */
  method MoveEndpoints(endpoints: seq<Endpoint>, target: Option<NodeId>) returns (moved: seq<Endpoint>)
    ensures moved == AllRetargeted(endpoints, target)
  {
    moved := endpoints;
    for i := 0 to |moved|
      invariant |moved| == |endpoints|
      invariant forall j :: 0 <= j < |moved| ==> moved[j] == if j < i then Retargeted(endpoints[j], target) else endpoints[j]
    {
      moved := moved[i := Retargeted(moved[i], target)];
    }
  }

  /** Updates the endpoint with that name or appends one. */
  method PutEndpoint(es: seq<Endpoint>, target: Option<NodeId>, name: string, protocol: nat, address: string)
    returns (r: seq<Endpoint>)
    ensures r == WithEndpoint(es, target, name, protocol, address)
  {
    for k := 0 to |es|
      invariant forall i :: 0 <= i < k ==> es[i].name != name
    {
      if es[k].name == name {
        return es[k := Endpoint(name, protocol, address, target, Bump(es[k].generation))];
      }
    }
    return es + [Endpoint(name, protocol, address, target, 1)];
  }

  function Without(s: seq<NodeId>, x: NodeId): seq<NodeId> {
    if s == [] then [] else if s[0] == x then Without(s[1..], x) else [s[0]] + Without(s[1..], x)
  }

  lemma {:induction false} WithoutAbsent(s: seq<NodeId>, x: NodeId)
    requires x !in s
    ensures Without(s, x) == s
  {
    if s != [] { WithoutAbsent(s[1..], x); }
  }

  ghost predicate Sound(placements: Placements) { forall v :: v in placements ==> RecordOk(placements[v]) }

  function RecordOf(placements: Placements, v: VolumeId): Record { if v in placements then placements[v] else NEW_RECORD }

  class ControlStore {
    var nodes: Nodes
    var volumes: set<VolumeId>
    // The volumes that are active and whose tenant is.
    var active: set<VolumeId>
    var placements: Placements

    /** Stores an allowed change of a volume's record. */
    method Store(v: VolumeId, ghost c: Change, record: Record)
      requires Sound(placements) && Allowed(RecordOf(placements, v), c) && record == Changed(RecordOf(placements, v), c)
      modifies this`placements
      ensures Sound(placements) && placements == old(placements)[v := Changed(RecordOf(old(placements), v), c)]
    {
      ChangedKeeps(RecordOf(placements, v), c);
      placements := placements[v := record];
    }

    method Assign(v: VolumeId, node: NodeId) returns (r: Result<Record, Error>)
      requires Sound(placements)
      modifies this`placements
      ensures Sound(placements)
      ensures r.Ok? <==> v in volumes && v in active && Placeable(nodes, node)
      ensures r.Err? ==> placements == old(placements)
      ensures r.Ok? ==> Standbys(nodes, old(placements), node, r.value.standbys)
      ensures r.Ok? ==> Allowed(RecordOf(old(placements), v), Own(node, r.value.standbys, None))
      ensures r.Ok? ==> r.value == Changed(RecordOf(old(placements), v), Own(node, r.value.standbys, None))
      ensures r.Ok? ==> placements == old(placements)[v := r.value]
    {
      if v !in volumes || v !in active || node !in nodes {
        return Err(Missing);
      }
      if !Placeable(nodes, node) {
        return Err(Unfit);
      }
      var record := RecordOf(placements, v);
      var standbys := StandbysFor(nodes, placements, node);
      var endpoints := MoveEndpoints(record.endpoints, Some(node));
      record := Record(Active, Some(node), standbys, endpoints, None, Bump(record.generation));
      Store(v, Own(node, standbys, None), record);
      return Ok(record);
    }

    /** The least loaded healthy node becomes the primary. */
    method AssignLowLoad(v: VolumeId) returns (r: Result<Record, Error>)
      requires Sound(placements)
      modifies this`placements
      ensures Sound(placements)
      ensures r.Ok? <==> v in volumes && v in active && exists id :: Placeable(nodes, id)
      ensures r.Ok? ==> r.value.primary.Some? && Lowest(nodes, old(placements), {}, r.value.primary.value)
      ensures r.Ok? ==> Standbys(nodes, old(placements), r.value.primary.value, r.value.standbys)
      ensures r.Ok? ==> var c := Own(r.value.primary.value, r.value.standbys, None);
        Allowed(RecordOf(old(placements), v), c) && r.value == Changed(RecordOf(old(placements), v), c)
      ensures placements == if r.Ok? then old(placements)[v := r.value] else old(placements)
    {
      var node := ChooseLowLoad(nodes, placements, {});
      if node.None? {
        return Err(Unfit);
      }
      r := Assign(v, node.value);
    }

    /** A volume that has no record yet is given to the least loaded healthy node, if there is one. */
    method Ensure(v: VolumeId) returns (r: Result<Option<Record>, Error>)
      requires Sound(placements)
      modifies this`placements
      ensures Sound(placements)
      ensures v in old(placements) ==> r == Ok(Some(old(placements)[v])) && placements == old(placements)
      ensures v !in old(placements) && (forall id :: !Placeable(nodes, id)) ==> r == Ok(None)
      ensures v !in old(placements) && (exists id :: Placeable(nodes, id)) ==>
        (r.Ok? <==> v in volumes && v in active) && (r.Ok? ==> r.value.Some?)
      ensures v !in old(placements) && r.Ok? && r.value.Some? ==> var record := r.value.value;
        && record.primary.Some? && Lowest(nodes, old(placements), {}, record.primary.value)
        && Allowed(NEW_RECORD, Own(record.primary.value, record.standbys, None))
        && record == Changed(NEW_RECORD, Own(record.primary.value, record.standbys, None))
        && placements == old(placements)[v := record]
      ensures r.Err? || r.value.None? ==> placements == old(placements)
    {
      if v in placements {
        return Ok(Some(placements[v]));
      }
      var node := ChooseLowLoad(nodes, placements, {});
      if node.None? {
        return Ok(None);
      }
      var given := Assign(v, node.value);
      return if given.Ok? then Ok(Some(given.value)) else Err(given.error);
    }

    method Delete(v: VolumeId)
      requires Sound(placements)
      modifies this`placements
      ensures Sound(placements) && placements == old(placements) - {v}
    {
      placements := placements - {v};
    }

    method SetEndpoint(v: VolumeId, name: string, protocol: nat, address: string) returns (r: Result<Record, Error>)
      requires Sound(placements)
      modifies this`placements
      ensures Sound(placements)
      ensures r.Ok? <==> v in volumes && ValidName(name) && !Blank(address)
      ensures r.Ok? ==> r.value == Changed(RecordOf(old(placements), v), Change.SetEndpoint(name, protocol, address))
      ensures placements == if r.Ok? then old(placements)[v := r.value] else old(placements)
    {
      if v !in volumes {
        return Err(Missing);
      }
      if !ValidName(name) || Blank(address) {
        return Err(Unfit);
      }
      var record := RecordOf(placements, v);
      var endpoints := PutEndpoint(record.endpoints, record.primary, name, protocol, address);
      record := record.(endpoints := endpoints);
      Store(v, Change.SetEndpoint(name, protocol, address), record);
      return Ok(record);
    }

    /** The failed primary is marked; its first healthy standby takes over, or else the least loaded node. */
    method Promote(v: VolumeId, failed: NodeId) returns (r: Result<Record, Error>)
      requires Sound(placements)
      modifies this
      ensures Sound(placements) && volumes == old(volumes) && active == old(active)
      ensures nodes == if IsPrimary(old(placements), v, failed) then Marked(old(nodes), failed) else old(nodes)
      ensures r.Ok? <==> IsPrimary(old(placements), v, failed) && exists id :: Placeable(nodes, id)
      ensures r.Err? ==> placements == old(placements)
      ensures r.Ok? ==> r.value.primary.Some? && r.value.primary.value != failed
      ensures r.Ok? ==> var c := Own(r.value.primary.value, r.value.standbys, None);
        Allowed(old(placements)[v], c) && r.value == Changed(old(placements)[v], c)
      ensures r.Ok? ==> Standbys(nodes, old(placements), r.value.primary.value, r.value.standbys)
      ensures r.Ok? ==> placements == old(placements)[v := r.value]
      ensures r.Ok? ==> Replacement(nodes, old(placements), old(placements)[v].standbys, failed, r.value.primary.value)
    {
      if v !in placements {
        return Err(Missing);
      }
      var record := placements[v];
      if record.primary != Some(failed) {
        return Err(Unfit);
      }
      nodes := Marked(nodes, failed);
      var promoted := ChooseReplacement(nodes, placements, record.standbys, failed);
      if promoted.None? {
        return Err(Unfit);
      }
      var node := promoted.value;
      var standbys := StandbysFor(nodes, placements, node);
      WithoutAbsent(standbys, failed);
      standbys := Without(standbys, failed);
      var endpoints := MoveEndpoints(record.endpoints, Some(node));
      record := Record(Active, Some(node), standbys, endpoints, None, Bump(record.generation));
      Store(v, Own(node, standbys, None), record);
      return Ok(record);
    }

    method BeginDrain(v: VolumeId, target: Option<NodeId>, now: nat) returns (r: Result<Record, Error>)
      requires Sound(placements)
      modifies this`placements
      ensures Sound(placements)
      ensures r.Ok? <==>
        && v in old(placements) && old(placements)[v].primary.Some? && target != old(placements)[v].primary
        && if target.Some? then Placeable(nodes, target.value)
           else exists id :: Placeable(nodes, id) && id != old(placements)[v].primary.value
      ensures r.Ok? ==> r.value.drain.Some? && (target.Some? ==> r.value.drain.value.to == target.value)
      ensures r.Ok? && target.None? ==>
        Lowest(nodes, old(placements), {old(placements)[v].primary.value}, r.value.drain.value.to)
      ensures r.Err? ==> placements == old(placements)
      ensures r.Ok? ==> Placeable(nodes, r.value.drain.value.to)
      ensures r.Ok? ==> var c := StartDrain(r.value.drain.value.to, now);
        Allowed(old(placements)[v], c) && r.value == Changed(old(placements)[v], c)
      ensures r.Ok? ==> Some(r.value.drain.value.to) != r.value.primary && placements == old(placements)[v := r.value]
    {
      if v !in placements {
        return Err(Missing);
      }
      var record := placements[v];
      if record.primary.None? {
        return Err(Unfit);
      }
      var to := target;
      if target.Some? {
        if target.value !in nodes {
          return Err(Missing);
        }
        if !Placeable(nodes, target.value) {
          return Err(Unfit);
        }
      } else {
        to := ChooseLowLoad(nodes, placements, {record.primary.value});
        if to.None? {
          return Err(Unfit);
        }
      }
      if record.primary == to {
        return Err(Unfit);
      }
      var drain := DrainRecord(record.primary.value, to.value, now, None);
      record := record.(state := Draining, drain := Some(drain));
      Store(v, StartDrain(to.value, now), record);
      assert Placeable(nodes, to.value) && to.value != old(placements)[v].primary.value;
      assert target != old(placements)[v].primary;
      return Ok(record);
    }

    /** The drain's target takes over and its source becomes a standby. A completed drain may be completed again. */
    method CompleteDrain(v: VolumeId, now: nat) returns (r: Result<Record, Error>)
      requires Sound(placements)
      modifies this`placements
      ensures Sound(placements)
      ensures r.Err? ==> placements == old(placements)
      ensures r.Ok? <==> var record := RecordOf(old(placements), v);
        v in old(placements) && record.drain.Some? && Placeable(nodes, record.drain.value.to)
      ensures r.Ok? ==> var d := old(placements)[v].drain.value;
        && d.from in r.value.standbys && (forall id :: Placeable(nodes, id) && id != d.to ==> id in r.value.standbys)
        && Allowed(old(placements)[v], Own(d.to, r.value.standbys, Some(d.(completed := Some(now)))))
        && r.value == Changed(old(placements)[v], Own(d.to, r.value.standbys, Some(d.(completed := Some(now)))))
        && placements == old(placements)[v := r.value]
    {
      if v !in placements {
        return Err(Missing);
      }
      var record := placements[v];
      if record.drain.None? {
        return Err(Unfit);
      }
      var drain := record.drain.value;
      if !Placeable(nodes, drain.to) {
        return Err(Unfit);
      }
      var standbys := StandbysFor(nodes, placements, drain.to);
      if drain.from !in standbys {
        standbys := standbys + [drain.from];
      }
      var done := drain.(completed := Some(now));
      var endpoints := MoveEndpoints(record.endpoints, Some(drain.to));
      record := Record(Active, Some(drain.to), standbys, endpoints, Some(done), Bump(record.generation));
      Store(v, Own(drain.to, standbys, Some(done)), record);
      return Ok(record);
    }
  }
}
