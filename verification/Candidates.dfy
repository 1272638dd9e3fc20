/** The tensor-parallel loop of candidate generation, and what it relies on from the planner. */
module Candidates {
  import opened Wrappers
  import opened Sequences
  import opened Hardware
  import opened GpuScores
  import opened GpuPlan
  import opened GpuPlanTheorems
  import opened GpuExactness
  import opened GpuPlanner

  datatype CandidateError = ConfigurationError | NoViablePlanRaised

  datatype Layout = Layout(tp: nat, groups: seq<seq<int>>)

  /** `--tp` and `--replicas`. */
  datatype PlanConstraints = PlanConstraints(tensorParallelSize: Option<nat>, replicaCount: Option<nat>)

  /** `[d for d in range(1, n + 1) if n % d == 0]`. */
  function DivisorsUpTo(n: nat, d: nat): (r: seq<nat>)
    ensures forall x :: x in r <==> 1 <= x <= d && n % x == 0
    ensures Increasing(r)
  {
    if d == 0 then []
    else
      var before := DivisorsUpTo(n, d - 1);
      assert forall k :: 0 <= k < |before| ==> before[k] in before;
      before + if n % d == 0 then [d] else []
  }

  function SmallestNode(snap: HardwareSnapshot, ids: seq<int>, nodes: seq<NodeId>): (r: nat)
    requires nodes != []
    ensures forall v :: v in nodes ==> r <= |OnNode(snap, ids, v)|
    ensures exists v :: v in nodes && r == |OnNode(snap, ids, v)|
  {
    var size := |OnNode(snap, ids, nodes[0])|;
    if |nodes| == 1 then size
    else
      var rest := SmallestNode(snap, ids, nodes[1..]);
      assert nodes == [nodes[0]] + nodes[1..];
      if size <= rest then size else rest
  }

  /** The indices of the selected GPUs, in snapshot order. */
  function Indices(gpus: seq<GPUDevice>): (r: seq<int>)
    ensures |r| == |gpus|
    ensures forall i :: 0 <= i < |gpus| ==> r[i] == gpus[i].index
  {
    seq(|gpus|, i requires 0 <= i < |gpus| => gpus[i].index)
  }

  /** The layout's groups are the planner's; they fill the machines, or number exactly what was asked for. */
  ghost predicate GoodLayout(snap: HardwareSnapshot, ids: seq<int>, wanted: Option<nat>, l: Layout)
    requires Distinct(ids)
  {
    && l.tp >= 1
    && Plan(snap, l.tp, |l.groups|, ids, false) == Ok(l.groups)
    && |l.groups| == (if wanted.Some? then wanted.value else MaxReplicas(snap, l.tp, ids))
    && Family(l.groups, l.tp, |l.groups|, ids)
    && AllIncreasing(l.groups)
    && Placed(snap, l.groups, Nodes(snap, Sorted(ids)))
  }

  /** The model's attention heads split evenly. */
  predicate HeadsSplit(heads: Option<nat>, tp: nat) {
    tp >= 1 && (heads.Some? ==> heads.value % tp == 0)
  }

  ghost predicate GoodLayouts(
    snap: HardwareSnapshot, ids: seq<int>, wanted: Option<nat>, heads: Option<nat>, layouts: seq<Layout>)
    requires Distinct(ids)
  {
    forall i :: 0 <= i < |layouts| ==> GoodLayout(snap, ids, wanted, layouts[i]) && HeadsSplit(heads, layouts[i].tp)
  }

  lemma {:induction false} AppendLayout(
    snap: HardwareSnapshot, ids: seq<int>, wanted: Option<nat>, heads: Option<nat>, layouts: seq<Layout>, l: Layout)
    requires Distinct(ids) && GoodLayouts(snap, ids, wanted, heads, layouts)
    requires GoodLayout(snap, ids, wanted, l) && HeadsSplit(heads, l.tp)
    ensures GoodLayouts(snap, ids, wanted, heads, layouts + [l])
  {
    var more := layouts + [l];
    forall i | 0 <= i < |more|
      ensures GoodLayout(snap, ids, wanted, more[i]) && HeadsSplit(heads, more[i].tp)
    {
      if i < |layouts| {
        assert more[i] == layouts[i];
      }
    }
  }

  predicate Divides(tp: nat, n: nat) {
    1 <= tp <= n && n % tp == 0
  }

  /**
   * The tensor-parallel sizes to try: every divisor of the smallest machine, ascending, or the one
   * forced; a forced size that is none of them leaves nothing to try if only a cluster can hold it,
   * and is an error otherwise.
   */
  function TpValues(gpusPerNode: nat, isCluster: bool, forced: Option<nat>): (r: Result<seq<nat>, CandidateError>)
    ensures forced.None? ==>
      r.Ok? && Increasing(r.value) && forall tp :: tp in r.value <==> Divides(tp, gpusPerNode)
    ensures forced.Some? && Divides(forced.value, gpusPerNode) ==> r == Ok([forced.value])
    ensures forced.Some? && forced.value > gpusPerNode && isCluster ==> r == Ok([])
    ensures r.Err? <==>
      forced.Some? && !Divides(forced.value, gpusPerNode) && !(forced.value > gpusPerNode && isCluster)
    ensures r != Err(NoViablePlanRaised)
  {
    var values := DivisorsUpTo(gpusPerNode, gpusPerNode);
    if forced.None? then Ok(values)
    else if forced.value in values then Ok([forced.value])
    else if forced.value > gpusPerNode && isCluster then Ok([])
    else Err(ConfigurationError)
  }

  /** The sizes that split the model's heads. */
  function Admitted(heads: Option<nat>, values: seq<nat>): (r: seq<nat>)
    ensures forall tp :: tp in r <==> tp in values && HeadsSplit(heads, tp)
  {
    if values == [] then []
    else (if HeadsSplit(heads, values[0]) then [values[0]] else []) + Admitted(heads, values[1..])
  }

  /** They are tried from the smallest up. */
  lemma {:induction false} AdmittedAscends(heads: Option<nat>, values: seq<nat>)
    requires Increasing(values)
    ensures Increasing(Admitted(heads, values))
  {
    hide HeadsSplit;
    if values != [] {
      assert values == [values[0]] + values[1..];
      var rest := Admitted(heads, values[1..]);
      AdmittedAscends(heads, values[1..]);
      forall k | 0 <= k < |rest|
        ensures values[0] < rest[k]
      {
        assert rest[k] in rest && rest[k] in values[1..];
      }
    }
  }

  lemma {:induction false} AdmittedMore(heads: Option<nat>, values: seq<nat>, tp: nat)
    ensures Admitted(heads, values + [tp]) == Admitted(heads, values) + if HeadsSplit(heads, tp) then [tp] else []
  {
    if values == [] {
      assert values + [tp] == [tp] && [tp][1..] == [];
    } else {
      assert (values + [tp])[1..] == values[1..] + [tp];
      AdmittedMore(heads, values[1..], tp);
    }
  }

  function Sizes(layouts: seq<Layout>): (r: seq<nat>)
    ensures |r| == |layouts|
    ensures forall i :: 0 <= i < |layouts| ==> r[i] == layouts[i].tp
  {
    seq(|layouts|, i requires 0 <= i < |layouts| => layouts[i].tp)
  }

  /** More replicas are wanted than fit at one of the sizes. */
  ghost predicate TooMany(snap: HardwareSnapshot, ids: seq<int>, wanted: Option<nat>, sizes: seq<nat>) {
    wanted.Some? && exists tp :: tp in sizes && tp >= 1 && wanted.value > MaxReplicas(snap, tp, ids)
  }

  /** One size: as many replicas as fit, or the requested number if it fits. */
  method PlanLayout(
    planner: GPUGroupPlanner, tp: nat, wanted: Option<nat>, ids: seq<int>, nodes: seq<NodeId>, byNode: map<NodeId, seq<int>>)
    returns (r: Result<Layout, CandidateError>)
    requires planner.Valid() && planner.snapshot.LinkCountsNonNegative() && tp >= 1 && Distinct(ids)
    requires nodes == Nodes(planner.snapshot, ids)
    requires forall v :: v in nodes ==> v in byNode && byNode[v] == OnNode(planner.snapshot, ids, v)
    modifies planner`scoreCache
    ensures planner.Valid()
    ensures r.Ok? ==> r.value.tp == tp && GoodLayout(planner.snapshot, ids, wanted, r.value)
    ensures r.Err? ==> r.error == ConfigurationError
    ensures r.Err? <==> wanted.Some? && wanted.value > MaxReplicas(planner.snapshot, tp, ids)
  {
    var maxReplicas := SumShares(planner.snapshot, tp, ids, nodes, byNode);
    var replicas := maxReplicas;
    if wanted.Some? {
      if wanted.value > maxReplicas {
        return Err(ConfigurationError);
      }
      replicas := wanted.value;
    }
    SortedIncreasing(ids);
    MaxReplicasOrderFree(planner.snapshot, tp, ids, Sorted(ids));
    PlanSucceeds(planner.snapshot, tp, replicas, ids, false);
    var groups := planner.PlanGroups(tp, replicas, ids, false);
    if groups.Err? {
      return Err(NoViablePlanRaised);
    }
    r := Ok(Layout(tp, groups.value));
  }

  /** A layout for each admitted size among `values`, none of which wants too many replicas. */
  ghost predicate LaidOut(
    snap: HardwareSnapshot, ids: seq<int>, wanted: Option<nat>, heads: Option<nat>, values: seq<nat>, layouts: seq<Layout>)
    requires Distinct(ids)
  {
    && Sizes(layouts) == Admitted(heads, values)
    && GoodLayouts(snap, ids, wanted, heads, layouts)
    && !TooMany(snap, ids, wanted, Admitted(heads, values))
  }

  lemma {:induction false} LaidOutMeans(
    snap: HardwareSnapshot, ids: seq<int>, wanted: Option<nat>, heads: Option<nat>, values: seq<nat>, layouts: seq<Layout>)
    requires Distinct(ids) && LaidOut(snap, ids, wanted, heads, values, layouts)
    ensures Sizes(layouts) == Admitted(heads, values) && GoodLayouts(snap, ids, wanted, heads, layouts)
    ensures !TooMany(snap, ids, wanted, Admitted(heads, values))
  {
  }

  lemma {:induction false} NothingLaidOut(
    snap: HardwareSnapshot, ids: seq<int>, wanted: Option<nat>, heads: Option<nat>)
    requires Distinct(ids)
    ensures LaidOut(snap, ids, wanted, heads, [], [])
  {
  }

  lemma {:induction false} SizeSkipped(
    snap: HardwareSnapshot, ids: seq<int>, wanted: Option<nat>, heads: Option<nat>, values: seq<nat>, i: nat,
    layouts: seq<Layout>)
    requires Distinct(ids) && i < |values| && LaidOut(snap, ids, wanted, heads, values[..i], layouts)
    requires !HeadsSplit(heads, values[i])
    ensures LaidOut(snap, ids, wanted, heads, values[..i + 1], layouts)
  {
    assert values[..i + 1] == values[..i] + [values[i]];
    AdmittedMore(heads, values[..i], values[i]);
    assert Admitted(heads, values[..i]) + [] == Admitted(heads, values[..i]);
  }

  lemma {:induction false} SizeLaidOut(
    snap: HardwareSnapshot, ids: seq<int>, wanted: Option<nat>, heads: Option<nat>, values: seq<nat>, i: nat,
    layouts: seq<Layout>, l: Layout)
    requires Distinct(ids) && i < |values| && LaidOut(snap, ids, wanted, heads, values[..i], layouts)
    requires HeadsSplit(heads, values[i]) && l.tp == values[i] && GoodLayout(snap, ids, wanted, l)
    requires wanted.None? || wanted.value <= MaxReplicas(snap, l.tp, ids)
    ensures LaidOut(snap, ids, wanted, heads, values[..i + 1], layouts + [l])
  {
    hide GoodLayout, GoodLayouts, MaxReplicas;
    assert values[..i + 1] == values[..i] + [values[i]];
    AdmittedMore(heads, values[..i], values[i]);
    AppendLayout(snap, ids, wanted, heads, layouts, l);
    assert Sizes(layouts + [l]) == Sizes(layouts) + [l.tp];
  }

  lemma {:induction false} SizeRefused(
    snap: HardwareSnapshot, ids: seq<int>, wanted: Option<nat>, heads: Option<nat>, values: seq<nat>, i: nat)
    requires i < |values| && HeadsSplit(heads, values[i])
    requires wanted.Some? && wanted.value > MaxReplicas(snap, values[i], ids)
    ensures TooMany(snap, ids, wanted, Admitted(heads, values))
  {
    assert values[i] in values && values[i] in Admitted(heads, values);
  }

  lemma {:induction false} SomeNode(snap: HardwareSnapshot)
    requires snap.gpus != []
    ensures Nodes(snap, Indices(snap.gpus)) != []
  {
    var ids := Indices(snap.gpus);
    assert ids[0] in ids && snap.NodeOf(ids[0]) in Nodes(snap, ids);
  }

  /** The sizes tried for these GPUs. */
  function TpSizes(snap: HardwareSnapshot, isCluster: bool, constraints: PlanConstraints)
    : Result<seq<nat>, CandidateError>
    requires snap.gpus != []
  {
    var ids := Indices(snap.gpus);
    SomeNode(snap);
    TpValues(SmallestNode(snap, ids, Nodes(snap, ids)), isCluster, constraints.tensorParallelSize)
  }

  /** The sizes in turn, until one cannot hold the replicas asked for. */
  method LayOutSizes(
    planner: GPUGroupPlanner, values: seq<nat>, heads: Option<nat>, wanted: Option<nat>, ids: seq<int>,
    nodes: seq<NodeId>, byNode: map<NodeId, seq<int>>)
    returns (r: Result<seq<Layout>, CandidateError>)
    requires planner.Valid() && planner.snapshot.LinkCountsNonNegative() && Distinct(ids)
    requires nodes == Nodes(planner.snapshot, ids)
    requires forall v :: v in nodes ==> v in byNode && byNode[v] == OnNode(planner.snapshot, ids, v)
    modifies planner`scoreCache
    ensures planner.Valid()
    ensures r.Err? ==> r.error == ConfigurationError && TooMany(planner.snapshot, ids, wanted, Admitted(heads, values))
    ensures r.Ok? ==> LaidOut(planner.snapshot, ids, wanted, heads, values, r.value)
  {
    hide GoodLayouts, GoodLayout, Sizes, Admitted, LaidOut, TooMany, MaxReplicas, Nodes, OnNode;
    var layouts: seq<Layout> := [];
    NothingLaidOut(planner.snapshot, ids, wanted, heads);
    assert values[..0] == [];
    for i := 0 to |values|
      invariant planner.Valid() && LaidOut(planner.snapshot, ids, wanted, heads, values[..i], layouts)
    {
      if !HeadsSplit(heads, values[i]) {
        SizeSkipped(planner.snapshot, ids, wanted, heads, values, i, layouts);
        continue;
      }
      var layout := PlanLayout(planner, values[i], wanted, ids, nodes, byNode);
      if layout.Err? {
        SizeRefused(planner.snapshot, ids, wanted, heads, values, i);
        return Err(layout.error);
      }
      SizeLaidOut(planner.snapshot, ids, wanted, heads, values, i, layouts, layout.value);
      layouts := layouts + [layout.value];
    }
    assert values[..|values|] == values;
    r := Ok(layouts);
  }

  /**
   * For every admissible tensor-parallel size, the topology the planner assigns. The planner is
   * asked only for counts it can serve, so its error never surfaces here; a replica count that
   * cannot be served by some size is reported as a configuration error first.
   */
  method GenerateLayouts(planner: GPUGroupPlanner, isCluster: bool, heads: Option<nat>, constraints: PlanConstraints)
    returns (r: Result<seq<Layout>, CandidateError>)
    requires planner.Valid() && planner.snapshot.LinkCountsNonNegative()
    requires planner.snapshot.gpus != [] && Distinct(Indices(planner.snapshot.gpus))
    modifies planner`scoreCache
    ensures planner.Valid()
    ensures r != Err(NoViablePlanRaised)
    ensures var ids, sizes := Indices(planner.snapshot.gpus), TpSizes(planner.snapshot, isCluster, constraints);
      && (r.Err? <==>
            || sizes.Err?
            || TooMany(planner.snapshot, ids, constraints.replicaCount, Admitted(heads, sizes.value)))
      && (r.Ok? ==>
            && Sizes(r.value) == Admitted(heads, sizes.value)
            && GoodLayouts(planner.snapshot, ids, constraints.replicaCount, heads, r.value))
  {
    hide GoodLayouts, SmallestNode, TpValues, Sizes, Admitted, LaidOut, TooMany, Nodes, OnNode, Indices;
    var ids := Indices(planner.snapshot.gpus);
    var nodes, byNode := planner.GroupByNode(ids);
    SomeNode(planner.snapshot);
    var gpusPerNode := SmallestNode(planner.snapshot, ids, nodes);
    var tpValues := TpValues(gpusPerNode, isCluster, constraints.tensorParallelSize);
    if tpValues.Err? {
      return Err(tpValues.error);
    }
    r := LayOutSizes(planner, tpValues.value, heads, constraints.replicaCount, ids, nodes, byNode);
    if r.Ok? {
      LaidOutMeans(planner.snapshot, ids, constraints.replicaCount, heads, tpValues.value, r.value);
    }
  }

  /** Every machine is searched. */
  predicate AllSearched(gpus: seq<GPUDevice>, tp: nat, ids: seq<int>) {
    forall v :: v in Nodes(Bare(gpus), ids) ==> Searchable(tp, |OnNode(Bare(gpus), ids, v)|)
  }

  /**
   * Unless a replica count is forced, a layout is optimal under every topology exactly when groups
   * are single GPUs, no group fits, or every machine is searched.
   */
  lemma {:induction false} DefaultLayoutExact(gpus: seq<GPUDevice>, l: Layout)
    requires Distinct(Indices(gpus)) && GoodLayout(Bare(gpus), Indices(gpus), None, l)
    ensures var ids := Indices(gpus);
            AlwaysBest(gpus, l.tp, |l.groups|, ids) <==>
            || l.tp == 1
            || l.groups == []
            || AllSearched(gpus, l.tp, ids)
  {
    hide AlwaysBest, Searchable, MaxReplicas, GoodLayout, Nodes, OnNode, Sorted, Bare, Indices, Distinct;
    var ids := Indices(gpus);
    assert Bare(gpus).LinkCountsNonNegative() by { BareLinkCounts(gpus); }
    DefaultCount(Bare(gpus), ids, l);
    OptimalExactly(gpus, l.tp, |l.groups|, ids);
    SameMachines(Bare(gpus), ids, Sorted(ids));
    if l.groups == [] {
      assert |l.groups| == 0;
    }
    assert AllSearched(gpus, l.tp, ids) <==> AllSearched(gpus, l.tp, Sorted(ids));
  }

  lemma {:induction false} BareLinkCounts(gpus: seq<GPUDevice>)
    ensures Bare(gpus).LinkCountsNonNegative()
  {
  }

  lemma {:induction false} DefaultCount(snap: HardwareSnapshot, ids: seq<int>, l: Layout)
    requires Distinct(ids) && GoodLayout(snap, ids, None, l) && snap.LinkCountsNonNegative()
    ensures l.tp >= 1 && |l.groups| == MaxReplicas(snap, l.tp, Sorted(ids)) && Distinct(Sorted(ids))
  {
    hide Plan, MaxReplicas, Family, Placed;
    SortedIncreasing(ids);
    MaxReplicasOrderFree(snap, l.tp, ids, Sorted(ids));
  }

  lemma {:induction false} SameMachines(snap: HardwareSnapshot, a: seq<int>, b: seq<int>)
    requires Distinct(a) && Distinct(b) && forall x :: x in a <==> x in b
    ensures forall v :: v in Nodes(snap, a) <==> v in Nodes(snap, b)
    ensures forall v :: |OnNode(snap, a, v)| == |OnNode(snap, b, v)|
  {
    forall v
      ensures v in Nodes(snap, a) <==> v in Nodes(snap, b)
      ensures |OnNode(snap, a, v)| == |OnNode(snap, b, v)|
    {
      OnNodeDistinct(snap, a, v);
      OnNodeDistinct(snap, b, v);
      SameSize(OnNode(snap, a, v), OnNode(snap, b, v));
    }
  }

  lemma {:induction false} SameSize(a: seq<int>, b: seq<int>)
    requires Distinct(a) && Distinct(b) && forall x :: x in a <==> x in b
    ensures |a| == |b|
  {
    SortedIncreasing(a);
    SortedIncreasing(b);
    IncreasingSame(Sorted(a), Sorted(b));
  }

  /** `sum(n // tp for n in node_sizes)`. */
  method SumShares(snap: HardwareSnapshot, tp: nat, ids: seq<int>, nodes: seq<NodeId>, byNode: map<NodeId, seq<int>>)
    returns (total: nat)
    requires tp >= 1 && nodes == Nodes(snap, ids)
    requires forall v :: v in nodes ==> v in byNode && byNode[v] == OnNode(snap, ids, v)
    ensures total == MaxReplicas(snap, tp, ids)
  {
    total := 0;
    for i := 0 to |nodes|
      invariant total + Capacity(snap, tp, ids, nodes[i..]) == MaxReplicas(snap, tp, ids)
    {
      total := total + |byNode[nodes[i]]| / tp;
      assert nodes[i..][1..] == nodes[i + 1..];
    }
  }
}
