/** Runs of the control store (crates/slatefs-core/src/control.rs): whatever its operations, refusals, changes of nodes
    and volumes, and deletions, the record stored for a volume goes through allowed changes only. */
module FleetRuns {
  import opened Common
  import opened Placement
  import opened Fleets

  /** The operations of the store, and what happens around it. */
  datatype Op =
    | Assign(v: VolumeId, node: NodeId)
    | AssignLowLoad(v: VolumeId)
    | Ensure(v: VolumeId)
    | SetEndpoint(v: VolumeId, name: string, protocol: nat, address: string)
    | Promote(v: VolumeId, failed: NodeId)
    | BeginDrain(v: VolumeId, target: Option<NodeId>, now: nat)
    | CompleteDrain(v: VolumeId, now: nat)
    | Delete(v: VolumeId)
    | NewNodes(nodes: Nodes)
    | NewVolumes(volumes: set<VolumeId>, active: set<VolumeId>)

  /** What an operation did to the stored records. */
  datatype Step = Nothing | Stored(v: VolumeId, change: Change) | Deleted(v: VolumeId)

  /** The store as a value. */
  datatype Fleet = Fleet(nodes: Nodes, volumes: set<VolumeId>, active: set<VolumeId>, placements: Placements)

  ghost predicate Follows(before: Placements, step: Step, after: Placements) {
    match step
    case Nothing => after == before
    case Stored(v, change) =>
      Allowed(RecordOf(before, v), change) && after == before[v := Changed(RecordOf(before, v), change)]
    case Deleted(v) => after == before - {v}
  }

  ghost predicate AnyHealthy(nodes: Nodes) { exists id :: Placeable(nodes, id) }

  /** Exactly when the operation stores something. */
  ghost predicate Stores(f: Fleet, op: Op) {
    match op
    case Assign(v, node) => v in f.volumes && v in f.active && Placeable(f.nodes, node)
    case AssignLowLoad(v) => v in f.volumes && v in f.active && AnyHealthy(f.nodes)
    case Ensure(v) => v !in f.placements && v in f.volumes && v in f.active && AnyHealthy(f.nodes)
    case SetEndpoint(v, name, _, address) => v in f.volumes && ValidName(name) && !Blank(address)
    case Promote(v, failed) => IsPrimary(f.placements, v, failed) && AnyHealthy(Marked(f.nodes, failed))
    case BeginDrain(v, target, _) =>
      && v in f.placements && f.placements[v].primary.Some? && target != f.placements[v].primary
      && if target.Some? then Placeable(f.nodes, target.value)
         else exists id :: Placeable(f.nodes, id) && id != f.placements[v].primary.value
    case CompleteDrain(v, _) =>
      v in f.placements && f.placements[v].drain.Some? && Placeable(f.nodes, f.placements[v].drain.value.to)
    case _ => false
  }

  /** The change is of the kind the operation makes. */
  predicate Makes(f: Fleet, op: Op, change: Change) {
    match op
    case Assign(_, node) => change.Own? && change.node == node && change.drain.None?
    case AssignLowLoad(_) => change.Own? && change.drain.None?
    case Ensure(_) => change.Own? && change.drain.None?
    case SetEndpoint(_, name, protocol, address) => change == Change.SetEndpoint(name, protocol, address)
    case Promote(_, failed) => change.Own? && change.node != failed && change.drain.None?
    case BeginDrain(_, target, now) =>
      change.StartDrain? && change.now == now && (target.Some? ==> change.to == target.value)
    case CompleteDrain(v, now) =>
      && v in f.placements && f.placements[v].drain.Some? && var drain := f.placements[v].drain.value;
        change.Own? && change.node == drain.to && change.drain == Some(drain.(completed := Some(now)))
    case _ => false
  }

  /** Nodes change only from outside, save that a promotion marks the failed primary. */
  function NodesAfter(f: Fleet, op: Op): Nodes {
    match op
    case NewNodes(nodes) => nodes
    case Promote(v, failed) => if IsPrimary(f.placements, v, failed) then Marked(f.nodes, failed) else f.nodes
    case _ => f.nodes
  }

  /** One operation. */
  ghost predicate Takes(f: Fleet, op: Op, step: Step, f': Fleet) {
    true == (
      && Follows(f.placements, step, f'.placements)
      && f'.nodes == NodesAfter(f, op)
      && f'.volumes == (if op.NewVolumes? then op.volumes else f.volumes)
      && f'.active == (if op.NewVolumes? then op.active else f.active)
      && (step.Stored? <==> Stores(f, op)) && (step.Stored? ==> step.v == op.v && Makes(f, op, step.change))
      && (step.Deleted? <==> op.Delete?) && (step.Deleted? ==> step.v == op.v))
  }

  method Perform(s: ControlStore, op: Op) returns (ghost step: Step)
    requires Sound(s.placements)
    modifies s
    ensures Sound(s.placements)
    ensures Takes(old(Fleet(s.nodes, s.volumes, s.active, s.placements)), op, step,
                  Fleet(s.nodes, s.volumes, s.active, s.placements))
  {
    if op.Assign? || op.AssignLowLoad? || op.Ensure? {
      step := PerformAssign(s, op);
    } else if op.Promote? || op.BeginDrain? || op.CompleteDrain? {
      step := PerformMove(s, op);
    } else {
      step := PerformOther(s, op);
    }
  }

  method PerformAssign(s: ControlStore, op: Op) returns (ghost step: Step)
    requires Sound(s.placements) && (op.Assign? || op.AssignLowLoad? || op.Ensure?)
    modifies s
    ensures Sound(s.placements)
    ensures Takes(old(Fleet(s.nodes, s.volumes, s.active, s.placements)), op, step,
                  Fleet(s.nodes, s.volumes, s.active, s.placements))
  {
    step := Nothing;
    match op {
      case Assign(v, node) =>
        var r := s.Assign(v, node);
        if r.Ok? { step := Stored(v, Own(node, r.value.standbys, None)); }
      case AssignLowLoad(v) =>
        var r := s.AssignLowLoad(v);
        if r.Ok? { step := Stored(v, Own(r.value.primary.value, r.value.standbys, None)); }
      case Ensure(v) =>
        var new_ := v !in s.placements;
        var r := s.Ensure(v);
        if new_ && r.Ok? && r.value.Some? {
          step := Stored(v, Own(r.value.value.primary.value, r.value.value.standbys, None));
        }
    }
  }

  method PerformMove(s: ControlStore, op: Op) returns (ghost step: Step)
    requires Sound(s.placements) && (op.Promote? || op.BeginDrain? || op.CompleteDrain?)
    modifies s
    ensures Sound(s.placements)
    ensures Takes(old(Fleet(s.nodes, s.volumes, s.active, s.placements)), op, step,
                  Fleet(s.nodes, s.volumes, s.active, s.placements))
  {
    step := Nothing;
    match op {
      case Promote(v, failed) =>
        var r := s.Promote(v, failed);
        if r.Ok? { step := Stored(v, Own(r.value.primary.value, r.value.standbys, None)); }
      case BeginDrain(v, target, now) =>
        var r := s.BeginDrain(v, target, now);
        if r.Ok? { step := Stored(v, StartDrain(r.value.drain.value.to, now)); }
      case CompleteDrain(v, now) =>
        ghost var before := s.placements;
        var r := s.CompleteDrain(v, now);
        if r.Ok? {
          ghost var drain := before[v].drain.value;
          step := Stored(v, Own(drain.to, r.value.standbys, Some(drain.(completed := Some(now)))));
        }
    }
  }

  method PerformOther(s: ControlStore, op: Op) returns (ghost step: Step)
    requires Sound(s.placements) && (op.SetEndpoint? || op.Delete? || op.NewNodes? || op.NewVolumes?)
    modifies s
    ensures Sound(s.placements)
    ensures Takes(old(Fleet(s.nodes, s.volumes, s.active, s.placements)), op, step,
                  Fleet(s.nodes, s.volumes, s.active, s.placements))
  {
    step := Nothing;
    match op {
      case SetEndpoint(v, name, protocol, address) =>
        var r := s.SetEndpoint(v, name, protocol, address);
        if r.Ok? { step := Stored(v, Change.SetEndpoint(name, protocol, address)); }
      case Delete(v) =>
        s.Delete(v);
        step := Deleted(v);
      case NewNodes(nodes) => s.nodes := nodes;
      case NewVolumes(volumes, active) => s.volumes, s.active := volumes, active;
    }
  }

  // ----- the history of one record -----

  ghost predicate IsRun(fleets: seq<Fleet>, ops: seq<Op>, steps: seq<Step>) {
    && |ops| == |steps| && |fleets| == |steps| + 1 && Sound(fleets[0].placements)
    && forall i :: 0 <= i < |steps| ==> Takes(fleets[i], ops[i], steps[i], fleets[i + 1])
  }

  /** The record of `v` is not deleted between moments `i` and `j`. */
  ghost predicate Lives(steps: seq<Step>, v: VolumeId, i: nat, j: nat)
    requires i <= j <= |steps|
  {
    forall n :: i <= n < j ==> steps[n] != Deleted(v)
  }

  /** How often `v` was given to a node between moments `i` and `j`. */
  function Given(steps: seq<Step>, v: VolumeId, i: nat, j: nat): nat
    requires i <= j <= |steps|
  {
    if i == j then 0
    else
      var step := steps[j - 1];
      Given(steps, v, i, j - 1) + if step.Stored? && step.v == v && step.change.Own? then 1 else 0
  }

  lemma FollowsSound(before: Placements, step: Step, after: Placements)
    requires Sound(before) && Follows(before, step, after)
    ensures Sound(after)
  {
    if step.Stored? { ChangedKeeps(RecordOf(before, step.v), step.change); }
  }

  lemma {:induction false} RunSound(fleets: seq<Fleet>, ops: seq<Op>, steps: seq<Step>, n: nat)
    requires IsRun(fleets, ops, steps) && n < |fleets|
    ensures Sound(fleets[n].placements)
  {
    if n > 0 {
      RunSound(fleets, ops, steps, n - 1);
      FollowsSound(fleets[n - 1].placements, steps[n - 1], fleets[n].placements);
    }
  }

  /** As long as it is not deleted, the record of a volume goes through a run of allowed changes. */
  lemma {:induction false} History(fleets: seq<Fleet>, ops: seq<Op>, steps: seq<Step>, v: VolumeId, i: nat, j: nat)
    returns (records: seq<Record>, changes: seq<Change>)
    requires IsRun(fleets, ops, steps) && i <= j <= |steps| && Lives(steps, v, i, j)
    ensures Run(records, changes) && records[0] == RecordOf(fleets[i].placements, v)
    ensures records[|changes|] == RecordOf(fleets[j].placements, v) && Owns(changes) == Given(steps, v, i, j)
    decreases j
  {
    if i == j {
      RunSound(fleets, ops, steps, i);
      records, changes := [RecordOf(fleets[i].placements, v)], [];
    } else {
      records, changes := History(fleets, ops, steps, v, i, j - 1);
      var step := steps[j - 1];
      assert Follows(fleets[j - 1].placements, step, fleets[j].placements) && step != Deleted(v);
      if step.Stored? && step.v == v {
        RunLonger(records, changes, step.change);
        OwnsLonger(changes, step.change);
        records, changes := records + [Changed(records[|changes|], step.change)], changes + [step.change];
      }
    }
  }

  lemma RunLonger(records: seq<Record>, changes: seq<Change>, c: Change)
    requires Run(records, changes) && Allowed(records[|changes|], c)
    ensures Run(records + [Changed(records[|changes|], c)], changes + [c])
  {
    var records', changes', last := records + [Changed(records[|changes|], c)], changes + [c], |changes|;
    forall i | 0 <= i < |changes'|
      ensures Allowed(records'[i], changes'[i]) && records'[i + 1] == Changed(records'[i], changes'[i])
    {
      if i < last { assert Allowed(records[i], changes[i]) && records[i + 1] == Changed(records[i], changes[i]); }
    }
  }

  lemma OwnsLonger(changes: seq<Change>, c: Change)
    ensures Owns(changes + [c]) == Owns(changes) + if c.Own? then 1 else 0
  {
    assert (changes + [c])[..|changes|] == changes;
  }

  /** At any two moments of a run between which the record was not deleted: an equal generation below saturation means
      the same primary, with all endpoints on it, and the generation has risen by the number of times the volume was
      given to a node. */
  ghost predicate Named(fleets: seq<Fleet>, steps: seq<Step>, v: VolumeId, i: nat, j: nat)
    requires |fleets| == |steps| + 1 && i <= j <= |steps|
  {
    var a, b := RecordOf(fleets[i].placements, v), RecordOf(fleets[j].placements, v);
    Lives(steps, v, i, j) && b.generation < MAX_GENERATION ==>
      && b.generation == a.generation + Given(steps, v, i, j)
      && (a.generation == b.generation ==>
            a.primary == b.primary && forall k :: 0 <= k < |b.endpoints| ==> b.endpoints[k].target == a.primary)
  }

  lemma RunNames(fleets: seq<Fleet>, ops: seq<Op>, steps: seq<Step>, v: VolumeId, i: nat, j: nat)
    requires IsRun(fleets, ops, steps) && i <= j <= |steps|
    ensures Named(fleets, steps, v, i, j)
  {
    var b := RecordOf(fleets[j].placements, v);
    if Lives(steps, v, i, j) && b.generation < MAX_GENERATION {
      var records, changes := History(fleets, ops, steps, v, i, j);
      assert changes[..|changes|] == changes;
      GenerationCounts(records, changes, |changes|);
      if records[0].generation == b.generation { GenerationNamesPrimary(records, changes, 0, |changes|); }
    }
  }

  /** Every run of the store. */
  method PerformAll(s: ControlStore, ops: seq<Op>) returns (ghost fleets: seq<Fleet>, ghost steps: seq<Step>)
    requires Sound(s.placements)
    modifies s
    ensures Sound(s.placements) && IsRun(fleets, ops, steps)
    ensures fleets[0] == old(Fleet(s.nodes, s.volumes, s.active, s.placements))
    ensures fleets[|ops|] == Fleet(s.nodes, s.volumes, s.active, s.placements)
    ensures forall v, i: nat, j: nat :: i <= j <= |ops| ==> Named(fleets, steps, v, i, j)
  {
    fleets, steps := [Fleet(s.nodes, s.volumes, s.active, s.placements)], [];
    for n := 0 to |ops|
      invariant |steps| == n && IsRun(fleets, ops[..n], steps) && Sound(s.placements)
      invariant fleets[0] == old(Fleet(s.nodes, s.volumes, s.active, s.placements))
      invariant fleets[n] == Fleet(s.nodes, s.volumes, s.active, s.placements)
    {
      ghost var step := Perform(s, ops[n]);
      fleets, steps := fleets + [Fleet(s.nodes, s.volumes, s.active, s.placements)], steps + [step];
    }
    assert ops[..|ops|] == ops;
    forall v, i: nat, j: nat | i <= j <= |ops| ensures Named(fleets, steps, v, i, j) {
      RunNames(fleets, ops, steps, v, i, j);
    }
  }
}
