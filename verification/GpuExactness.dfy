/** Exactly when `plan` is optimal: which requests are planned optimally whatever the topology. */
module GpuExactness {
  import opened Wrappers
  import opened Sequences
  import opened Hardware
  import opened GpuScores
  import opened GpuOptimality
  import opened GpuGreedy
  import opened GpuPlan
  import opened GpuPlanTheorems
  import opened GpuWiring
  import opened GpuClusters
  import opened GpuBait

  /** No family that respects machines scores more than the plan within machines. */
  ghost predicate BestPlan(snap: HardwareSnapshot, tp: nat, n: nat, gpuIds: seq<int>)
    requires tp >= 1 && Distinct(gpuIds)
  {
    var r := Plan(snap, tp, n, gpuIds, false);
    && r.Ok?
    && forall f :: Family(f, tp, n, gpuIds) && Placed(snap, f, Nodes(snap, Sorted(gpuIds))) ==>
         PartitionScore(snap, f) <= PartitionScore(snap, r.value)
  }

  /** The plan is optimal however the GPUs of these machines are wired. */
  ghost predicate AlwaysBest(gpus: seq<GPUDevice>, tp: nat, n: nat, gpuIds: seq<int>)
    requires tp >= 1 && Distinct(gpuIds)
  {
    forall snap: HardwareSnapshot :: snap.gpus == gpus && snap.LinkCountsNonNegative() ==> BestPlan(snap, tp, n, gpuIds)
  }

  /** The GPUs without any topology: enough to say which machine each sits in. */
  function Bare(gpus: seq<GPUDevice>): HardwareSnapshot {
    HardwareSnapshot(gpus, GPUTopology([], false))
  }

  /** What a caller can check: trivial sizes, or the full count on machines that are searched. */
  predicate Exact(gpus: seq<GPUDevice>, tp: nat, n: nat, ids: seq<int>)
    requires tp >= 1
  {
    var nodes := Nodes(Bare(gpus), ids);
    || tp == 1
    || n == 0
    || ((|nodes| <= 1 || n == MaxReplicas(Bare(gpus), tp, ids))
        && forall v :: v in nodes ==> Searchable(tp, |OnNode(Bare(gpus), ids, v)|))
  }

  // ------------------------------------------------------------------ the layout is the GPUs'

  lemma {:induction false} SameOnNode(a: HardwareSnapshot, b: HardwareSnapshot, ids: seq<int>, v: NodeId)
    requires a.gpus == b.gpus
    ensures OnNode(a, ids, v) == OnNode(b, ids, v)
  {
    if ids != [] {
      SameOnNode(a, b, ids[..|ids| - 1], v);
    }
  }

  lemma {:induction false} SameNodes(a: HardwareSnapshot, b: HardwareSnapshot, ids: seq<int>)
    requires a.gpus == b.gpus
    ensures Nodes(a, ids) == Nodes(b, ids)
  {
    if ids != [] {
      SameNodes(a, b, ids[..|ids| - 1]);
    }
  }

  lemma {:induction false} SameCapacity(
    a: HardwareSnapshot, b: HardwareSnapshot, tp: nat, ids: seq<int>, nodes: seq<NodeId>)
    requires a.gpus == b.gpus && tp >= 1
    ensures Capacity(a, tp, ids, nodes) == Capacity(b, tp, ids, nodes)
  {
    if nodes != [] {
      SameOnNode(a, b, ids, nodes[0]);
      SameCapacity(a, b, tp, ids, nodes[1..]);
    }
  }

  lemma {:induction false} SameMaxReplicas(a: HardwareSnapshot, b: HardwareSnapshot, tp: nat, ids: seq<int>)
    requires a.gpus == b.gpus && tp >= 1
    ensures MaxReplicas(a, tp, ids) == MaxReplicas(b, tp, ids)
  {
    SameNodes(a, b, ids);
    SameCapacity(a, b, tp, ids, Nodes(a, ids));
  }

  // ------------------------------------------------------------------ optimal under the condition

  lemma {:induction false} EmptyBest(snap: HardwareSnapshot, tp: nat, gpuIds: seq<int>)
    requires tp >= 1 && Distinct(gpuIds) && snap.LinkCountsNonNegative()
    ensures BestPlan(snap, tp, 0, gpuIds)
  {
    PlanSucceeds(snap, tp, 0, gpuIds, false);
    forall f | Family(f, tp, 0, gpuIds)
      ensures PartitionScore(snap, f) == 0
    {
    }
  }

  lemma {:induction false} ExactGoodNodes(snap: HardwareSnapshot, tp: nat, n: nat, ids: seq<int>)
    requires tp >= 2 && n >= 1 && Exact(snap.gpus, tp, n, ids)
    ensures GoodNodes(snap, tp, ids, Nodes(snap, ids))
    ensures |Nodes(snap, ids)| <= 1 || n == MaxReplicas(snap, tp, ids)
  {
    var bare := Bare(snap.gpus);
    SameNodes(snap, bare, ids);
    SameMaxReplicas(snap, bare, tp, ids);
    forall v | v in Nodes(snap, ids)
      ensures GoodPool(snap, tp, OnNode(snap, ids, v))
    {
      SameOnNode(snap, bare, ids, v);
    }
  }

  lemma {:induction false} ExactIsBest(snap: HardwareSnapshot, tp: nat, n: nat, gpuIds: seq<int>)
    requires tp >= 1 && Distinct(gpuIds) && snap.LinkCountsNonNegative()
    requires var ids := Sorted(gpuIds); n <= MaxReplicas(snap, tp, ids) && Exact(snap.gpus, tp, n, ids)
    ensures BestPlan(snap, tp, n, gpuIds)
  {
    hide PlanPool, GoodNodes, Exact, Placed, Family;
    var ids := Sorted(gpuIds);
    PlanSucceeds(snap, tp, n, gpuIds, false);
    if n == 0 {
      EmptyBest(snap, tp, gpuIds);
      return;
    }
    forall f | Family(f, tp, n, gpuIds) && Placed(snap, f, Nodes(snap, ids))
      ensures PartitionScore(snap, f) <= PartitionScore(snap, Plan(snap, tp, n, gpuIds, false).value)
    {
      if tp == 1 {
        PoolOptimal(snap, tp, n, gpuIds, f);
      } else {
        ExactGoodNodes(snap, tp, n, ids);
        if |Nodes(snap, ids)| <= 1 {
          SortedIncreasing(gpuIds);
          MaxReplicasExact(snap, tp, n, ids);
          OneNodeBest(snap, tp, n, gpuIds);
        } else {
          PlanOptimalWhenFull(snap, tp, gpuIds, f);
        }
      }
    }
  }

  // ------------------------------------------------------------------ machine by machine

  lemma {:induction false} FillConcat(snap: HardwareSnapshot, tp: nat, ids: seq<int>, a: seq<NodeId>, b: seq<NodeId>)
    requires tp >= 1 && Distinct(ids) && FillNodes(snap, tp, ids, a).Ok? && FillNodes(snap, tp, ids, b).Ok?
    ensures FillNodes(snap, tp, ids, a + b)
         == Ok(FillNodes(snap, tp, ids, a).value + FillNodes(snap, tp, ids, b).value)
  {
    hide PlanPool, Share, OnNode;
    if a == [] {
      assert a + b == b;
      assert [] + FillNodes(snap, tp, ids, b).value == FillNodes(snap, tp, ids, b).value;
    } else {
      assert (a + b)[0] == a[0] && (a + b)[1..] == a[1..] + b;
      OnNodeDistinct(snap, ids, a[0]);
      FillConcat(snap, tp, ids, a[1..], b);
      var rest, last := FillNodes(snap, tp, ids, a[1..]).value, FillNodes(snap, tp, ids, b).value;
      if Share(snap, tp, ids, a[0]) > 0 {
        var here := PlanPool(snap, tp, Share(snap, tp, ids, a[0]), OnNode(snap, ids, a[0])).value;
        assert here + rest + last == here + (rest + last);
      }
    }
  }

  /** The groups of one machine stand between those of the machines before and after it. */
  lemma {:induction false} FillAround(snap: HardwareSnapshot, tp: nat, ids: seq<int>, nodes: seq<NodeId>, k: nat)
    returns (before: seq<seq<int>>, after: seq<seq<int>>)
    requires tp >= 1 && Distinct(ids) && Distinct(nodes) && snap.LinkCountsNonNegative() && k < |nodes|
    requires Share(snap, tp, ids, nodes[k]) > 0
    ensures Distinct(OnNode(snap, ids, nodes[k]))
    ensures var here := PlanPool(snap, tp, Share(snap, tp, ids, nodes[k]), OnNode(snap, ids, nodes[k]));
            here.Ok? && FillNodes(snap, tp, ids, nodes) == Ok(before + here.value + after)
    ensures |after| == Capacity(snap, tp, ids, nodes[k + 1..])
    ensures Placed(snap, before, nodes[..k]) && Placed(snap, after, nodes[k + 1..])
    ensures FillNodes(snap, tp, ids, nodes[..k]) == Ok(before) && FillNodes(snap, tp, ids, nodes[k + 1..]) == Ok(after)
  {
    hide PlanPool, Share, OnNode, Placed;
    var v, first, last := nodes[k], nodes[..k], nodes[k + 1..];
    assert nodes == first + ([v] + last);
    FillSound(snap, tp, ids, first);
    FillSound(snap, tp, ids, last);
    PoolPlaced(snap, tp, Share(snap, tp, ids, v), ids, v, nodes);
    assert ([v] + last)[1..] == last;
    before, after := FillNodes(snap, tp, ids, first).value, FillNodes(snap, tp, ids, last).value;
    var here := PlanPool(snap, tp, Share(snap, tp, ids, v), OnNode(snap, ids, v)).value;
    assert FillNodes(snap, tp, ids, [v] + last) == Ok(here + after);
    FillConcat(snap, tp, ids, first, [v] + last);
    assert before + (here + after) == before + here + after;
  }

  lemma {:induction false} SortNodesIndex(nodes: seq<NodeId>, v: NodeId) returns (k: nat)
    requires v in nodes
    ensures k < |SortNodes(nodes)| && SortNodes(nodes)[k] == v
  {
    assert v in SortNodes(nodes);
    k :| 0 <= k < |SortNodes(nodes)| && SortNodes(nodes)[k] == v;
  }

  /** A better choice on one machine makes a better choice overall. */
  lemma {:induction false} Replaced(
    snap: HardwareSnapshot, tp: nat, ids: seq<int>, v: NodeId, nodes: seq<NodeId>,
    before: seq<seq<int>>, here: seq<seq<int>>, after: seq<seq<int>>, better: seq<seq<int>>)
    requires tp >= 1 && Family(before + here + after, tp, |before| + |here| + |after|, ids)
    requires Placed(snap, before + here + after, nodes) && v in nodes
    requires |better| == |here| && Family(better, tp, |here|, OnNode(snap, ids, v))
    requires forall g :: g in before || g in after ==> g != [] && snap.NodeOf(g[0]) != v
    ensures Family(before + better + after, tp, |before| + |here| + |after|, ids)
    ensures Placed(snap, before + better + after, nodes)
  {
    hide OnNode;
    var was, r := before + here + after, before + better + after;
    var b, m := |before|, |before| + |here|;
    forall i | 0 <= i < |r|
      ensures GroupOf(r[i], tp, ids) && OneNode(snap, r[i]) && snap.NodeOf(r[i][0]) in nodes
    {
      if b <= i < m {
        BetterGroup(snap, tp, ids, v, better, i - b);
      } else {
        assert r[i] == was[i] && GroupOf(was[i], tp, ids) && was[i] in was;
      }
    }
    forall i, j | 0 <= i < j < |r|
      ensures Disjoint(r[i], r[j])
    {
      if b <= i < m && b <= j < m {
        assert Disjoint(better[i - b], better[j - b]);
      } else if b <= i < m {
        BetterGroup(snap, tp, ids, v, better, i - b);
        assert r[j] == was[j] && was[j] in was && r[j] == after[j - m] && r[j] in after;
      } else if b <= j < m {
        BetterGroup(snap, tp, ids, v, better, j - b);
        assert r[i] == was[i] && was[i] in was && r[i] == before[i] && r[i] in before;
      } else {
        assert r[i] == was[i] && r[j] == was[j] && Disjoint(was[i], was[j]);
      }
    }
  }

  lemma {:induction false} BetterGroup(
    snap: HardwareSnapshot, tp: nat, ids: seq<int>, v: NodeId, better: seq<seq<int>>, i: nat)
    requires tp >= 1 && Family(better, tp, |better|, OnNode(snap, ids, v)) && i < |better|
    ensures GroupOf(better[i], tp, ids) && OneNode(snap, better[i])
    ensures snap.NodeOf(better[i][0]) == v && forall x :: x in better[i] ==> snap.NodeOf(x) == v
  {
    assert GroupOf(better[i], tp, OnNode(snap, ids, v)) && better[i][0] in better[i];
  }

  // ------------------------------------------------------------------ a large machine

  lemma {:induction false} FullFill(snap: HardwareSnapshot, tp: nat, gpuIds: seq<int>)
    returns (ids: seq<int>, nodes: seq<NodeId>, r: seq<seq<int>>)
    requires tp >= 2 && Distinct(gpuIds) && snap.LinkCountsNonNegative()
    requires |Nodes(snap, Sorted(gpuIds))| > 1
    ensures ids == Sorted(gpuIds) && Increasing(ids) && Distinct(ids)
    ensures nodes == SortNodes(Nodes(snap, ids)) && Distinct(nodes)
    ensures FillNodes(snap, tp, ids, nodes) == Ok(r)
    ensures |r| == MaxReplicas(snap, tp, ids)
    ensures Family(r, tp, |r|, ids) && AllIncreasing(r) && Placed(snap, r, nodes)
  {
    hide PlanPool, FillNodes, Nodes, SortNodes, Sorted, Capacity, Share, AllIncreasing, Placed;
    ids := Sorted(gpuIds);
    SortedIncreasing(gpuIds);
    nodes := SortNodes(Nodes(snap, ids));
    NodesDistinct(snap, ids);
    SortNodesDistinct(Nodes(snap, ids));
    SortNodesCapacity(snap, tp, ids, Nodes(snap, ids));
    FillSound(snap, tp, ids, nodes);
    r := FillNodes(snap, tp, ids, nodes).value;
    FamilyLength(r, tp, MaxReplicas(snap, tp, ids), ids);
  }

  lemma {:induction false} PrefixPlan(snap: HardwareSnapshot, tp: nat, n: nat, gpuIds: seq<int>, r: seq<seq<int>>)
    requires tp >= 2 && Distinct(gpuIds) && Distinct(Sorted(gpuIds))
    requires var ids := Sorted(gpuIds);
             && |Nodes(snap, ids)| > 1
             && FillNodes(snap, tp, ids, SortNodes(Nodes(snap, ids))) == Ok(r)
             && Family(r, tp, |r|, ids)
    requires n <= |r|
    ensures Plan(snap, tp, n, gpuIds, false) == Ok(r[..n])
  {
    hide FillNodes, Nodes, SortNodes, PlanPool, Sorted;
    PrefixFamily(r, tp, |r|, n, Sorted(gpuIds));
    FamilySize(r[..n], tp, n, Sorted(gpuIds));
  }

  lemma {:induction false} NotBest(snap: HardwareSnapshot, tp: nat, n: nat, gpuIds: seq<int>, f: seq<seq<int>>)
    requires tp >= 1 && Distinct(gpuIds) && Plan(snap, tp, n, gpuIds, false).Ok?
    requires Family(f, tp, n, Sorted(gpuIds)) && Placed(snap, f, Nodes(snap, Sorted(gpuIds)))
    requires PartitionScore(snap, Plan(snap, tp, n, gpuIds, false).value) < PartitionScore(snap, f)
    ensures !BestPlan(snap, tp, n, gpuIds)
  {
    RenameIds(f, tp, n, Sorted(gpuIds), gpuIds);
  }

  /** A machine that is neither searched nor used as a whole makes some topology defeat the plan. */
  lemma {:induction false} LargeNodeBeaten(gpus: seq<GPUDevice>, tp: nat, gpuIds: seq<int>, v: NodeId)
    returns (snap: HardwareSnapshot)
    requires tp >= 2 && Distinct(gpuIds)
    requires var ids, bare := Sorted(gpuIds), Bare(gpus);
             && |Nodes(bare, ids)| > 1
             && v in Nodes(bare, ids)
             && !Searchable(tp, |OnNode(bare, ids, v)|)
    ensures snap.gpus == gpus && snap.LinkCountsNonNegative()
    ensures !BestPlan(snap, tp, MaxReplicas(snap, tp, Sorted(gpuIds)), gpuIds)
  {
    hide Beaten, Placed, Family, PlanPool, Plan, MaxReplicas, PartitionScore;
    var ids, bare := Sorted(gpuIds), Bare(gpus);
    var mine := OnNode(bare, ids, v);
    var per := |mine| / tp;
    SortedIncreasing(gpuIds);
    OnNodeIncreasing(bare, ids, v);
    var better;
    ShareOfLarge(tp, |mine|);
    snap, better := LargePoolBeaten(gpus, tp, per, mine);
    SameNodes(snap, bare, ids);
    SameOnNode(snap, bare, ids, v);
    ReplacedPlan(snap, tp, gpuIds, v, better);
  }

  lemma {:induction false} ShareOfLarge(tp: nat, size: nat)
    requires 1 <= tp <= size
    ensures size / tp >= 1 && tp * (size / tp) <= size
  {
  }

  lemma {:induction false} OnNodeIncreasing(snap: HardwareSnapshot, ids: seq<int>, v: NodeId)
    requires Increasing(ids)
    ensures Increasing(OnNode(snap, ids, v))
  {
    if ids != [] {
      OnNodeIncreasing(snap, ids[..|ids| - 1], v);
      var before, last := OnNode(snap, ids[..|ids| - 1], v), ids[|ids| - 1];
      forall k | 0 <= k < |before|
        ensures before[k] < last
      {
        assert before[k] in before;
        assert before[k] in ids[..|ids| - 1];
      }
    }
  }

  lemma {:induction false} ReplacedPlan(
    snap: HardwareSnapshot, tp: nat, gpuIds: seq<int>, v: NodeId, better: seq<seq<int>>)
    requires tp >= 2 && Distinct(gpuIds) && snap.LinkCountsNonNegative()
    requires var ids := Sorted(gpuIds);
             && |Nodes(snap, ids)| > 1
             && v in Nodes(snap, ids)
             && Share(snap, tp, ids, v) > 0
             && Distinct(OnNode(snap, ids, v))
             && Beaten(snap, tp, Share(snap, tp, ids, v), OnNode(snap, ids, v), better)
    ensures !BestPlan(snap, tp, MaxReplicas(snap, tp, Sorted(gpuIds)), gpuIds)
  {
    hide PlanPool, OnNode, Plan, MaxReplicas, PartitionScore, Placed, Family, Share;
    hide FillNodes, Nodes, SortNodes, Sorted, Increasing, Distinct, BestPlan, AllIncreasing;
    var ids, nodes, r := FullFill(snap, tp, gpuIds);
    var n, per := MaxReplicas(snap, tp, ids), Share(snap, tp, ids, v);
    var k := SortNodesIndex(Nodes(snap, ids), v);
    var before, after := FillAround(snap, tp, ids, nodes, k);
    var here := PlanPool(snap, tp, per, OnNode(snap, ids, v)).value;
    PoolSound(snap, tp, per, OnNode(snap, ids, v));
    FamilyLength(here, tp, per, OnNode(snap, ids, v));
    FamilyLength(better, tp, per, OnNode(snap, ids, v));
    OtherNodes(snap, nodes, k, before, after);
    Replaced(snap, tp, ids, v, nodes, before, here, after, better);
    var f := before + better + after;
    AroundScore(snap, before, here, after);
    AroundScore(snap, before, better, after);
    PrefixPlan(snap, tp, n, gpuIds, r);
    assert r[..n] == r;
    PlacedSame(snap, f, nodes, Nodes(snap, ids));
    NotBest(snap, tp, n, gpuIds, f);
  }

  lemma {:induction false} AroundScore(
    snap: HardwareSnapshot, before: seq<seq<int>>, here: seq<seq<int>>, after: seq<seq<int>>)
    ensures PartitionScore(snap, before + here + after)
         == PartitionScore(snap, before) + PartitionScore(snap, here) + PartitionScore(snap, after)
  {
    PartitionScoreConcat(snap, before + here, after);
    PartitionScoreConcat(snap, before, here);
  }

  lemma {:induction false} PlacedSame(snap: HardwareSnapshot, f: seq<seq<int>>, nodes: seq<NodeId>, same: seq<NodeId>)
    requires Placed(snap, f, nodes) && forall v :: v in nodes ==> v in same
    ensures Placed(snap, f, same)
  {
  }

  lemma {:induction false} OtherNodes(
    snap: HardwareSnapshot, nodes: seq<NodeId>, k: nat, before: seq<seq<int>>, after: seq<seq<int>>)
    requires k < |nodes| && Distinct(nodes)
    requires Placed(snap, before, nodes[..k]) && Placed(snap, after, nodes[k + 1..])
    ensures forall g :: g in before || g in after ==> g != [] && snap.NodeOf(g[0]) != nodes[k]
  {
    forall v | v in nodes[..k] || v in nodes[k + 1..]
      ensures v != nodes[k]
    {
      if v in nodes[..k] {
        var i :| 0 <= i < k && nodes[i] == v;
      } else {
        var i :| 0 <= i < |nodes[k + 1..]| && nodes[k + 1..][i] == v;
        assert nodes[k + 1 + i] == v;
      }
    }
  }

  // ------------------------------------------------------------------ fewer groups than fit

  lemma {:induction false} LastShared(
    snap: HardwareSnapshot, tp: nat, ids: seq<int>, nodes: seq<NodeId>) returns (k: nat)
    requires tp >= 1 && Capacity(snap, tp, ids, nodes) > 0
    ensures k < |nodes| && Share(snap, tp, ids, nodes[k]) > 0 && Capacity(snap, tp, ids, nodes[k + 1..]) == 0
  {
    if Capacity(snap, tp, ids, nodes[1..]) > 0 {
      k := LastShared(snap, tp, ids, nodes[1..]);
      assert nodes[1..][k + 1..] == nodes[k + 2..];
      k := k + 1;
    } else {
      k := 0;
    }
  }

  /** A search keeps the cluster together, because splitting it costs points. */
  lemma {:induction false} SearchKeepsCluster(snap: HardwareSnapshot, tp: nat, n: nat, ids: seq<int>, cluster: seq<int>)
    returns (i: nat)
    requires Scores(snap, ids, cluster, None) && OnOneMachine(snap, ids) && snap.LinkCountsNonNegative()
    requires Increasing(ids) && Distinct(ids) && Increasing(cluster) && Within(cluster, ids) && |cluster| == tp >= 2
    requires n >= 1 && tp * n <= |ids| && Searchable(tp, |ids|)
    ensures var here := PlanPool(snap, tp, n, ids);
            here.Ok? && i < |here.value| && Overlap(here.value[i], cluster) >= tp
  {
    hide Scores, PlanPool, PartitionScore, Family, Canonical, Groups, PairwiseDisjoint, IslandPool;
    PoolSound(snap, tp, n, ids);
    GoodPoolBest(snap, tp, n, ids);
    var here := PlanPool(snap, tp, n, ids).value;
    var f := KeepTogether(snap, ids, cluster, None, tp, n);
    CanonicalIncreasing(here);
    FamilyGroups(snap, here, tp, n, ids);
    FamilyLength(here, tp, n, ids);
    ClusterScore(snap, ids, cluster, None, here, tp);
    NobodyBites(here, None);
    IncreasingDistinct(cluster);
    if Splits(here, cluster, tp) {
      SplitLoses(here, cluster, tp);
    }
    var g :| g in here && Overlap(g, cluster) >= tp;
    i :| i < |here| && here[i] == g;
  }

  // ---- the greedy pass keeps it together too

  lemma {:induction false} ClusterSeed(snap: HardwareSnapshot, ids: seq<int>, cluster: seq<int>)
    requires Scores(snap, ids, cluster, None) && OnOneMachine(snap, ids)
    requires Distinct(ids) && Distinct(cluster) && Within(cluster, ids) && |cluster| >= 2
    ensures ids != [] && Seed(snap, ids) in cluster
  {
    var x := cluster[0];
    assert x in cluster;
    assert x in ids;
    ClusterConnectivity(snap, ids, cluster, None, x);
    ClusterConnectivity(snap, ids, cluster, None, Seed(snap, ids));
  }

  lemma {:induction false} ClusterNext(
    snap: HardwareSnapshot, ids: seq<int>, cluster: seq<int>, group: seq<int>, remaining: seq<int>)
    requires Scores(snap, ids, cluster, None) && OnOneMachine(snap, ids) && Distinct(cluster)
    requires Apart(group, remaining) && Within(group, cluster) && Within(cluster, ids) && Within(remaining, ids)
    requires 1 <= |group| < |cluster| && forall x :: x in cluster ==> x in group || x in remaining
    ensures remaining != [] && Next(snap, group, remaining) in cluster
  {
    WholeCount(group, cluster);
    CountRest(group, cluster);
    var y := Without(cluster, group)[0];
    assert y in Without(cluster, group);
    assert y in remaining;
    forall c | c in remaining
      ensures Affinity(snap, c, group) == |group| + if c in cluster then GAP * |group| else 0
    {
      ClusterAffinity(snap, ids, cluster, None, c, group);
    }
  }

  lemma {:induction false} ClusterGrows(
    snap: HardwareSnapshot, ids: seq<int>, cluster: seq<int>, tp: nat, group: seq<int>, remaining: seq<int>)
    requires Scores(snap, ids, cluster, None) && OnOneMachine(snap, ids) && Distinct(cluster)
    requires Apart(group, remaining) && Within(group, cluster) && Within(cluster, ids) && Within(remaining, ids)
    requires 1 <= |group| <= |cluster| == tp && tp <= |group| + |remaining|
    requires forall x :: x in cluster ==> x in group || x in remaining
    ensures Within(Grow(snap, tp, group, remaining).0, cluster)
    decreases tp - |group|
  {
    hide Scores, Next;
    if |group| < tp {
      ClusterNext(snap, ids, cluster, group, remaining);
      var x := Next(snap, group, remaining);
      MoveAcross(group, remaining, x);
      ClusterGrows(snap, ids, cluster, tp, group + [x], Remove(remaining, x));
    }
  }

  lemma {:induction false} GreedyKeepsCluster(snap: HardwareSnapshot, tp: nat, n: nat, ids: seq<int>, cluster: seq<int>)
    requires Scores(snap, ids, cluster, None) && OnOneMachine(snap, ids)
    requires Distinct(ids) && Distinct(cluster) && Within(cluster, ids) && |cluster| == tp >= 2
    requires n >= 1 && tp * n <= |ids|
    ensures Within(Greedy(snap, tp, n, ids)[0], cluster)
  {
    hide Scores, Seed;
    Affordable(tp, n, |ids|);
    ClusterSeed(snap, ids, cluster);
    var seed := Seed(snap, ids);
    MoveAcross([], ids, seed);
    assert [] + [seed] == [seed];
    ClusterGrows(snap, ids, cluster, tp, [seed], Remove(ids, seed));
  }

  lemma {:induction false} InCanonicalForm(f: seq<seq<int>>, i: nat)
    requires NonEmptyGroups(f) && i < |f|
    ensures Sorted(f[i]) in CanonicalForm(f)
  {
    assert SortGroups(f)[i] in SortGroups(f);
  }

  lemma {:induction false} GrowthKeepsCluster(snap: HardwareSnapshot, tp: nat, n: nat, ids: seq<int>, cluster: seq<int>)
    returns (i: nat)
    requires Scores(snap, ids, cluster, None) && OnOneMachine(snap, ids) && snap.LinkCountsNonNegative()
    requires Increasing(ids) && Distinct(ids) && Increasing(cluster) && Within(cluster, ids) && |cluster| == tp >= 2
    requires n >= 1 && tp * n <= |ids| && !Searchable(tp, |ids|)
    ensures var here := PlanPool(snap, tp, n, ids);
            here.Ok? && i < |here.value| && Overlap(here.value[i], cluster) >= tp
  {
    hide Scores, Greedy, CanonicalForm, Overlap, Increasing, NonEmptyGroups, SortGroups;
    IncreasingDistinct(cluster);
    SortedFixedIds(ids);
    GreedyKeepsCluster(snap, tp, n, ids, cluster);
    GreedyNonEmpty(snap, tp, n, ids);
    GreedyFamily(snap, tp, n, ids);
    var r := Greedy(snap, tp, n, ids);
    var g := Sorted(r[0]);
    assert GroupOf(r[0], tp, ids);
    InCanonicalForm(r, 0);
    WholeCount(g, cluster);
    var here := CanonicalForm(r);
    i :| i < |here| && here[i] == g;
  }

  lemma {:induction false} SortedFixedIds(ids: seq<int>)
    requires Increasing(ids)
    ensures Sorted(ids) == ids
  {
    SortedFixed(ids);
  }

  // ---- and it comes last, where the truncation falls

  lemma {:induction false} AllCounted(g: seq<int>, cluster: seq<int>)
    requires Overlap(g, cluster) == |g|
    ensures Within(g, cluster)
  {
    if g != [] {
      assert g == [g[0]] + g[1..];
      AllCounted(g[1..], cluster);
    }
  }

  lemma {:induction false} SomeCounted(g: seq<int>, cluster: seq<int>, x: int)
    requires x in g && x in cluster
    ensures Overlap(g, cluster) >= 1
  {
    if g[0] != x {
      assert g == [g[0]] + g[1..];
      SomeCounted(g[1..], cluster, x);
    }
  }

  predicate LastOf(cluster: seq<int>, tp: nat, ids: seq<int>) {
    tp <= |ids| && cluster == ids[|ids| - tp..]
  }

  lemma {:induction false} LastOfFacts(cluster: seq<int>, tp: nat, ids: seq<int>, x: int, y: int)
    requires Increasing(ids) && LastOf(cluster, tp, ids)
    ensures Increasing(cluster) && Distinct(cluster) && Within(cluster, ids) && |cluster| == tp
    ensures x in cluster && y in ids && x < y ==> y in cluster
  {
    if x in cluster && y in ids && x < y {
      var i :| 0 <= i < |cluster| && cluster[i] == x;
      var j :| 0 <= j < |ids| && ids[j] == y;
      assert ids[|ids| - tp + i] == x && j > |ids| - tp + i;
      assert cluster[j - (|ids| - tp)] == y;
    }
  }

  /** The group that holds the cluster is the pool's last. */
  lemma {:induction false} ClusterComesLast(
    f: seq<seq<int>>, tp: nat, n: nat, ids: seq<int>, cluster: seq<int>, i: nat)
    requires tp >= 1 && Family(f, tp, n, ids) && Canonical(f) && Increasing(ids) && LastOf(cluster, tp, ids)
    requires i < |f| && Overlap(f[i], cluster) >= tp
    ensures Overlap(f[|f| - 1], cluster) == tp
  {
    var last := |f| - 1;
    assert GroupOf(f[i], tp, ids) && GroupOf(f[last], tp, ids);
    var x, y := f[i][0], f[last][0];
    assert x in f[i] && y in f[last];
    AllCounted(f[i], cluster);
    LastOfFacts(cluster, tp, ids, x, y);
    if i != last {
      OtherMembers(f, tp, n, ids, cluster, i, last);
      assert x < y && y in cluster;
      SomeCounted(f[last], cluster, y);
    }
  }

  /** One group with all of the cluster leaves none for another. */
  lemma {:induction false} OtherMembers(
    f: seq<seq<int>>, tp: nat, n: nat, ids: seq<int>, cluster: seq<int>, i: nat, j: nat)
    requires Family(f, tp, n, ids) && Distinct(cluster) && |cluster| == tp
    requires i < |f| && j < |f| && i != j && Overlap(f[i], cluster) >= tp
    ensures Overlap(f[j], cluster) == 0
  {
    forall g | g in f
      ensures Distinct(g)
    {
      FamilyMember(f, tp, n, ids, g);
    }
    SumCountBound(f, cluster);
    TwoMembers(f, cluster, i, j);
  }

  lemma {:induction false} PoolEndsInCluster(snap: HardwareSnapshot, tp: nat, n: nat, ids: seq<int>, cluster: seq<int>)
    requires Scores(snap, ids, cluster, None) && OnOneMachine(snap, ids) && snap.LinkCountsNonNegative()
    requires Increasing(ids) && Distinct(ids) && LastOf(cluster, tp, ids) && tp >= 2
    requires n >= 1 && tp * n <= |ids|
    ensures var here := PlanPool(snap, tp, n, ids);
            here.Ok? && |here.value| == n && Overlap(here.value[n - 1], cluster) == tp
  {
    hide PlanPool, Scores, Family, Canonical, Searchable, LastOf, OnOneMachine;
    LastOfFacts(cluster, tp, ids, 0, 0);
    PoolSound(snap, tp, n, ids);
    var i;
    if Searchable(tp, |ids|) {
      i := SearchKeepsCluster(snap, tp, n, ids, cluster);
    } else {
      i := GrowthKeepsCluster(snap, tp, n, ids, cluster);
    }
    var here := PlanPool(snap, tp, n, ids).value;
    FamilyLength(here, tp, n, ids);
    ClusterComesLast(here, tp, n, ids, cluster, i);
  }

  // ---- what the truncation costs

  lemma {:induction false} NoPairs(f: seq<seq<int>>, cluster: seq<int>)
    requires forall g :: g in f ==> Overlap(g, cluster) == 0
    ensures SumPairs(f, cluster) == 0
  {
    if f != [] {
      assert f[0] in f;
      NoPairs(f[1..], cluster);
    }
  }

  /** The group cut off, with as many others as are asked for. */
  function WithLast(r: seq<seq<int>>, n: nat): seq<seq<int>>
    requires 1 <= n < |r|
  {
    [r[|r| - 1]] + r[..n - 1]
  }

  lemma {:induction false} WithLastFamily(
    snap: HardwareSnapshot, r: seq<seq<int>>, tp: nat, n: nat, ids: seq<int>, nodes: seq<NodeId>)
    requires 1 <= n < |r| && Family(r, tp, |r|, ids) && AllIncreasing(r) && Placed(snap, r, nodes)
    ensures Family(WithLast(r, n), tp, n, ids) && Placed(snap, WithLast(r, n), nodes)
    ensures Groups(snap, WithLast(r, n), tp, ids) && Groups(snap, r[..n], tp, ids)
  {
    var f := WithLast(r, n);
    forall i | 0 <= i < |f|
      ensures GroupOf(f[i], tp, ids) && f[i] in r
    {
      assert f[i] == if i == 0 then r[|r| - 1] else r[i - 1];
    }
    forall i, j | 0 <= i < j < |f|
      ensures Disjoint(f[i], f[j])
    {
      assert f[j] == r[j - 1];
      if i == 0 {
        assert Disjoint(r[j - 1], r[|r| - 1]);
      } else {
        assert f[i] == r[i - 1] && Disjoint(r[i - 1], r[j - 1]);
      }
    }
    forall g | g in f || g in r[..n]
      ensures GroupOf(g, tp, ids) && Increasing(g) && OneNode(snap, g)
    {
      assert g in r;
      FamilyMember(r, tp, |r|, ids, g);
    }
  }

  lemma {:induction false} TruncationCosts(
    snap: HardwareSnapshot, r: seq<seq<int>>, tp: nat, n: nat, ids: seq<int>, nodes: seq<NodeId>, cluster: seq<int>)
    requires tp >= 2 && 1 <= n < |r| && Family(r, tp, |r|, ids) && AllIncreasing(r) && Placed(snap, r, nodes)
    requires Scores(snap, ids, cluster, None) && Distinct(cluster) && |cluster| == tp
    requires Overlap(r[|r| - 1], cluster) == tp
    ensures PartitionScore(snap, r[..n]) < PartitionScore(snap, WithLast(r, n))
  {
    hide Scores, PartitionScore, Groups, Family, Placed, AllIncreasing, Times;
    WithLastFamily(snap, r, tp, n, ids, nodes);
    ClusterScore(snap, ids, cluster, None, r[..n], tp);
    ClusterScore(snap, ids, cluster, None, WithLast(r, n), tp);
    NobodyBites(r[..n], None);
    NobodyBites(WithLast(r, n), None);
    forall g | g in r[..n]
      ensures Overlap(g, cluster) == 0
    {
      var j :| 0 <= j < n && r[..n][j] == g;
      OtherMembers(r, tp, |r|, ids, cluster, |r| - 1, j);
    }
    NoPairs(r[..n], cluster);
    assert SumPairs(WithLast(r, n), cluster) >= Pairs(tp) && Pairs(tp) >= 1;
  }

  /** Asked for fewer groups than fit on several machines, some topology makes the plan drop the best one. */
  lemma {:induction false} TruncationBeaten(gpus: seq<GPUDevice>, tp: nat, n: nat, gpuIds: seq<int>)
    returns (snap: HardwareSnapshot)
    requires tp >= 2 && Distinct(gpuIds)
    requires var ids, bare := Sorted(gpuIds), Bare(gpus);
             |Nodes(bare, ids)| > 1 && 1 <= n < MaxReplicas(bare, tp, ids)
    ensures snap.gpus == gpus && snap.LinkCountsNonNegative()
    ensures !BestPlan(snap, tp, n, gpuIds)
  {
    hide Scores, Placed, Family, PlanPool, Plan, PartitionScore, Nodes, SortNodes, OnNode, Capacity, FillNodes;
    hide BestPlan, Sorted, Wired;
    var ids, bare := Sorted(gpuIds), Bare(gpus);
    SortedIncreasing(gpuIds);
    var listed := SortNodes(Nodes(bare, ids));
    SortNodesCapacity(bare, tp, ids, Nodes(bare, ids));
    var k := LastShared(bare, tp, ids, listed);
    var cluster := LastGroup(bare, tp, ids, listed[k]);
    snap := ClusterTopology(gpus, ids, cluster);
    SameNodes(snap, bare, ids);
    SameMaxReplicas(snap, bare, tp, ids);
    SameOnNode(snap, bare, ids, listed[k]);
    SameCapacity(snap, bare, tp, ids, listed[k + 1..]);
    TruncatedPlan(snap, tp, n, gpuIds, k, cluster);
  }

  lemma {:induction false} LastGroup(
    snap: HardwareSnapshot, tp: nat, ids: seq<int>, v: NodeId) returns (cluster: seq<int>)
    requires tp >= 1 && Increasing(ids) && Share(snap, tp, ids, v) > 0
    ensures LastOf(cluster, tp, OnNode(snap, ids, v))
  {
    var mine := OnNode(snap, ids, v);
    MultipleApart(Share(snap, tp, ids, v), tp);
    cluster := mine[|mine| - tp..];
  }

  lemma {:induction false} ClusterTopology(gpus: seq<GPUDevice>, ids: seq<int>, cluster: seq<int>)
    returns (snap: HardwareSnapshot)
    requires Increasing(ids)
    ensures snap.gpus == gpus && snap.LinkCountsNonNegative() && Scores(snap, ids, cluster, None)
  {
    snap := Wired(gpus, ids, Clustered(cluster, None));
    WiredLinkCounts(gpus, ids, Clustered(cluster, None));
    ClusteredScores(gpus, ids, cluster, None);
  }

  lemma {:induction false} ScoresWithin(snap: HardwareSnapshot, ids: seq<int>, cluster: seq<int>, some: seq<int>)
    requires Scores(snap, ids, cluster, None) && Within(some, ids)
    ensures Scores(snap, some, cluster, None)
  {
  }

  lemma {:induction false} TruncatedPlan(
    snap: HardwareSnapshot, tp: nat, n: nat, gpuIds: seq<int>, k: nat, cluster: seq<int>)
    requires tp >= 2 && Distinct(gpuIds) && snap.LinkCountsNonNegative()
    requires var ids := Sorted(gpuIds);
             var nodes := SortNodes(Nodes(snap, ids));
             && |Nodes(snap, ids)| > 1 && 1 <= n < MaxReplicas(snap, tp, ids)
             && k < |nodes| && Share(snap, tp, ids, nodes[k]) > 0 && Capacity(snap, tp, ids, nodes[k + 1..]) == 0
             && LastOf(cluster, tp, OnNode(snap, ids, nodes[k])) && Scores(snap, ids, cluster, None)
    ensures !BestPlan(snap, tp, n, gpuIds)
  {
    hide Scores, Placed, Family, PlanPool, Plan, PartitionScore, Nodes, SortNodes, OnNode, Capacity, FillNodes;
    hide BestPlan, Sorted, Share, MaxReplicas, LastOf, WithLast, AllIncreasing, Overlap;
    var ids, nodes, r := FullFill(snap, tp, gpuIds);
    var before, after := FillAround(snap, tp, ids, nodes, k);
    var mine, per := OnNode(snap, ids, nodes[k]), Share(snap, tp, ids, nodes[k]);
    OnNodeIncreasing(snap, ids, nodes[k]);
    LastOfFacts(cluster, tp, mine, 0, 0);
    ScoresWithin(snap, ids, cluster, mine);
    PoolEndsInCluster(snap, tp, per, mine, cluster);
    var here := PlanPool(snap, tp, per, mine).value;
    assert r[|r| - 1] == here[per - 1];
    TruncationCosts(snap, r, tp, n, ids, nodes, cluster);
    WithLastFamily(snap, r, tp, n, ids, nodes);
    PrefixPlan(snap, tp, n, gpuIds, r);
    PlacedSame(snap, WithLast(r, n), nodes, Nodes(snap, ids));
    NotBest(snap, tp, n, gpuIds, WithLast(r, n));
  }

  // ------------------------------------------------------------------ the exact condition

  /** One machine that is not searched: the pool is the plan. */
  lemma {:induction false} OneMachineBeaten(gpus: seq<GPUDevice>, tp: nat, n: nat, gpuIds: seq<int>)
    returns (snap: HardwareSnapshot)
    requires tp >= 2 && n >= 1 && Distinct(gpuIds)
    requires var ids, bare := Sorted(gpuIds), Bare(gpus);
             && |Nodes(bare, ids)| <= 1
             && n <= MaxReplicas(bare, tp, ids)
             && !Searchable(tp, |ids|)
    ensures snap.gpus == gpus && snap.LinkCountsNonNegative()
    ensures !BestPlan(snap, tp, n, gpuIds)
  {
    hide PlanPool, PartitionScore, Family;
    var ids, bare := Sorted(gpuIds), Bare(gpus);
    SortedIncreasing(gpuIds);
    MaxReplicasExact(bare, tp, n, ids);
    forall a, b | a in ids && b in ids
      ensures LookupNode(gpus, a) == LookupNode(gpus, b)
    {
      SameNode(bare, ids, a, b);
    }
    var f;
    snap, f := LargePoolBeaten(gpus, tp, n, ids);
    SameNodes(snap, bare, ids);
    PoolOfSorted(snap, tp, n, gpuIds);
    TriviallyPlaced(snap, f, tp, n, ids);
    NotBest(snap, tp, n, gpuIds, f);
  }

  /**
   * For given GPUs, `plan` is optimal under every topology exactly when groups are single GPUs, no
   * group is asked for, or every machine is searched (at most eight GPUs, or no more than one
   * group's) and, on several machines, all the groups that fit are asked for.
   */
  lemma {:induction false} OptimalExactly(gpus: seq<GPUDevice>, tp: nat, n: nat, gpuIds: seq<int>)
    requires tp >= 1 && Distinct(gpuIds) && n <= MaxReplicas(Bare(gpus), tp, Sorted(gpuIds))
    ensures AlwaysBest(gpus, tp, n, gpuIds) <==> Exact(gpus, tp, n, Sorted(gpuIds))
  {
    hide BestPlan, MaxReplicas, Sorted, Nodes, OnNode;
    var ids, bare := Sorted(gpuIds), Bare(gpus);
    var nodes := Nodes(bare, ids);
    if Exact(gpus, tp, n, ids) {
      forall snap: HardwareSnapshot | snap.gpus == gpus && snap.LinkCountsNonNegative()
        ensures BestPlan(snap, tp, n, gpuIds)
      {
        SameMaxReplicas(snap, bare, tp, ids);
        ExactIsBest(snap, tp, n, gpuIds);
      }
    } else {
      var snap := SomeBeaten(gpus, tp, n, gpuIds);
      assert !BestPlan(snap, tp, n, gpuIds);
    }
  }

  lemma {:induction false} SomeBeaten(gpus: seq<GPUDevice>, tp: nat, n: nat, gpuIds: seq<int>)
    returns (snap: HardwareSnapshot)
    requires tp >= 1 && Distinct(gpuIds) && n <= MaxReplicas(Bare(gpus), tp, Sorted(gpuIds))
    requires !Exact(gpus, tp, n, Sorted(gpuIds))
    ensures snap.gpus == gpus && snap.LinkCountsNonNegative()
    ensures !BestPlan(snap, tp, n, gpuIds)
  {
    hide BestPlan, MaxReplicas, Sorted, Nodes, OnNode, Searchable;
    var ids, bare := Sorted(gpuIds), Bare(gpus);
    var nodes := Nodes(bare, ids);
    if |nodes| > 1 && n != MaxReplicas(bare, tp, ids) {
      snap := TruncationBeaten(gpus, tp, n, gpuIds);
    } else {
      var v :| v in nodes && !Searchable(tp, |OnNode(bare, ids, v)|);
      if |nodes| > 1 {
        snap := LargeNodeBeaten(gpus, tp, gpuIds, v);
        SameMaxReplicas(snap, bare, tp, ids);
      } else {
        OnlyNode(bare, ids, v);
        snap := OneMachineBeaten(gpus, tp, n, gpuIds);
      }
    }
  }

  lemma {:induction false} OnlyNode(snap: HardwareSnapshot, ids: seq<int>, v: NodeId)
    requires |Nodes(snap, ids)| <= 1 && v in Nodes(snap, ids)
    ensures OnNode(snap, ids, v) == ids
  {
    forall i | i in ids
      ensures snap.NodeOf(i) == v
    {
      assert snap.NodeOf(i) in Nodes(snap, ids);
    }
    AllOnOneNode(snap, ids, v);
  }

  // ------------------------------------------------------------------ ties

  /** On these GPUs the plan of this pool is, however they are wired, the least of the best families. */
  ghost predicate AlwaysLeast(gpus: seq<GPUDevice>, tp: nat, n: nat, ids: seq<int>)
    requires tp >= 1 && Distinct(ids)
  {
    forall snap: HardwareSnapshot :: snap.gpus == gpus && snap.LinkCountsNonNegative() ==>
      BestPool(snap, tp, n, ids) && LeastPool(snap, tp, n, ids)
  }

  /**
   * "Ties are broken by lowest GPU indices": on one machine the plan is the least of the best
   * families under every topology exactly when no group is asked for or the machine is searched.
   */
  lemma {:induction false} LeastExactly(gpus: seq<GPUDevice>, tp: nat, n: nat, ids: seq<int>)
    requires tp >= 1 && Increasing(ids) && Distinct(ids) && tp * n <= |ids|
    requires forall a, b :: a in ids && b in ids ==> LookupNode(gpus, a) == LookupNode(gpus, b)
    ensures AlwaysLeast(gpus, tp, n, ids) <==> n == 0 || Searchable(tp, |ids|)
  {
    hide BestPool, LeastPool, Increasing;
    if n == 0 || Searchable(tp, |ids|) {
      forall snap: HardwareSnapshot | snap.gpus == gpus && snap.LinkCountsNonNegative()
        ensures BestPool(snap, tp, n, ids) && LeastPool(snap, tp, n, ids)
      {
        if n == 0 {
          NothingToPlan(snap, tp, ids);
        } else {
          GoodPoolBest(snap, tp, n, ids);
          SearchedPoolLeast(snap, tp, n, ids);
        }
      }
    } else {
      var snap, f := LargePoolBeaten(gpus, tp, n, ids);
      BeatenIsNotBest(snap, tp, n, ids, f);
    }
  }

  lemma {:induction false} NothingToPlan(snap: HardwareSnapshot, tp: nat, ids: seq<int>)
    requires tp >= 1 && Distinct(ids) && snap.LinkCountsNonNegative()
    ensures BestPool(snap, tp, 0, ids) && LeastPool(snap, tp, 0, ids)
  {
    PoolSound(snap, tp, 0, ids);
  }

  lemma {:induction false} BeatenIsNotBest(snap: HardwareSnapshot, tp: nat, n: nat, ids: seq<int>, f: seq<seq<int>>)
    requires tp >= 1 && Distinct(ids) && Beaten(snap, tp, n, ids, f)
    ensures !BestPool(snap, tp, n, ids)
  {
  }
}
