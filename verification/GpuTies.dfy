/** Ties over several machines: the full plan, put in order, is the least of the best families. */
module GpuTies {
  import opened Wrappers
  import opened Sequences
  import opened Hardware
  import opened GpuScores
  import opened GpuSearch
  import opened GpuPlan
  import opened GpuPlanTheorems
  import opened GpuBait
  import opened GpuExactness

  // ------------------------------------------------------------------ the groups of one machine

  lemma {:induction false} AtConcat(snap: HardwareSnapshot, f: seq<seq<int>>, g: seq<seq<int>>, v: NodeId)
    requires NonEmptyGroups(f) && NonEmptyGroups(g)
    ensures NonEmptyGroups(f + g) && At(snap, f + g, v) == At(snap, f, v) + At(snap, g, v)
  {
    hide HardwareSnapshot.NodeOf;
    if f == [] {
      assert f + g == g;
    } else {
      assert (f + g)[1..] == f[1..] + g;
      AtConcat(snap, f[1..], g, v);
    }
  }

  lemma {:induction false} AtAll(snap: HardwareSnapshot, f: seq<seq<int>>, v: NodeId)
    requires NonEmptyGroups(f) && forall g :: g in f ==> snap.NodeOf(g[0]) == v
    ensures At(snap, f, v) == f
  {
    if f != [] {
      assert f[0] in f;
      AtAll(snap, f[1..], v);
    }
  }

  lemma {:induction false} AtNone(snap: HardwareSnapshot, f: seq<seq<int>>, v: NodeId)
    requires NonEmptyGroups(f) && forall g :: g in f ==> snap.NodeOf(g[0]) != v
    ensures At(snap, f, v) == []
  {
    if f != [] {
      assert f[0] in f;
      AtNone(snap, f[1..], v);
    }
  }

  lemma {:induction false} AtInserted(snap: HardwareSnapshot, g: seq<int>, f: seq<seq<int>>, v: NodeId)
    requires g != [] && Canonical(f)
    ensures At(snap, InsertByHead(g, f), v)
         == if snap.NodeOf(g[0]) == v then InsertByHead(g, At(snap, f, v)) else At(snap, f, v)
  {
    if f != [] && g[0] > f[0][0] {
      AtInserted(snap, g, f[1..], v);
    } else if At(snap, f, v) != [] {
      var h := At(snap, f, v)[0];
      assert h in At(snap, f, v);
      assert h in f;
      HeadLeast(f, h);
    }
  }

  lemma {:induction false} HeadLeast(f: seq<seq<int>>, h: seq<int>)
    requires Canonical(f) && h in f
    ensures f[0][0] <= h[0] && (h[0] == f[0][0] ==> h == f[0])
  {
    var i :| 0 <= i < |f| && f[i] == h;
  }

  lemma {:induction false} AtSorted(snap: HardwareSnapshot, f: seq<seq<int>>, v: NodeId)
    requires NonEmptyGroups(f) && PairwiseDisjoint(f) && forall i :: 0 <= i < |f| ==> Increasing(f[i])
    ensures At(snap, SortByHead(f), v) == SortByHead(At(snap, f, v))
  {
    if f != [] {
      FirstApart(f);
      AtSorted(snap, f[1..], v);
      SortByHeadCanonical(f[1..]);
      AtInserted(snap, f[0], SortByHead(f[1..]), v);
    }
  }

  lemma {:induction false} NothingCanonical()
    ensures Canonical([])
  {
  }

  lemma {:induction false} AtCanonical(snap: HardwareSnapshot, f: seq<seq<int>>, v: NodeId)
    requires Canonical(f)
    ensures Canonical(At(snap, f, v))
  {
    hide Canonical;
    CanonicalParts(f);
    if f == [] {
      NothingCanonical();
    } else {
      var rest := At(snap, f[1..], v);
      AtCanonical(snap, f[1..], v);
      forall k | 0 <= k < |rest|
        ensures f[0][0] < rest[k][0]
      {
        assert rest[k] in rest;
      }
      ConsCanonical(f[0], rest);
    }
  }

  /** The first group of an ordered family, and the rest of it. */
  lemma {:induction false} CanonicalParts(f: seq<seq<int>>)
    requires Canonical(f)
    ensures NonEmptyGroups(f)
    ensures f != [] ==> Canonical(f[1..]) && Increasing(f[0]) && forall g :: g in f[1..] ==> g != [] && f[0][0] < g[0]
  {
    if f != [] {
      var rest := f[1..];
      assert forall i :: 0 <= i < |rest| ==> rest[i] == f[i + 1];
    }
  }

  /** Sorting an ascending family by heads leaves each machine's ordered groups as they are. */
  lemma {:induction false} AtOrdered(snap: HardwareSnapshot, f: seq<seq<int>>, v: NodeId, here: seq<seq<int>>)
    requires NonEmptyGroups(f) && PairwiseDisjoint(f) && AllIncreasing(f)
    requires At(snap, f, v) == here && Canonical(here)
    ensures At(snap, CanonicalForm(f), v) == here
  {
    forall i | 0 <= i < |f|
      ensures Sorted(f[i]) == f[i] && Increasing(f[i])
    {
      assert f[i] in f;
      SortedFixed(f[i]);
    }
    assert SortGroups(f) == f;
    AtSorted(snap, f, v);
    SortByHeadFixed(here);
  }

  // ------------------------------------------------------------------ less on every machine is less

  /** On every machine `a` has as many groups as `b`, the same or lexicographically less. */
  ghost predicate LessEverywhere(snap: HardwareSnapshot, a: seq<seq<int>>, b: seq<seq<int>>)
    requires NonEmptyGroups(a) && NonEmptyGroups(b)
  {
    forall v :: |At(snap, a, v)| == |At(snap, b, v)| && LessOrSame(At(snap, a, v), At(snap, b, v))
  }

  predicate LessOrSame(a: seq<seq<int>>, b: seq<seq<int>>) {
    a == b || ListLess(a, b)
  }

  /** Merging machines by their groups' heads keeps the order. */
  lemma {:induction false} MergedLess(snap: HardwareSnapshot, a: seq<seq<int>>, b: seq<seq<int>>)
    requires Canonical(a) && Canonical(b) && |a| == |b| && LessEverywhere(snap, a, b)
    ensures LessOrSame(a, b)
  {
    if a != [] {
      if a[0] == b[0] {
        TailLess(snap, a, b);
        MergedLess(snap, a[1..], b[1..]);
        assert a == [a[0]] + a[1..] && b == [b[0]] + b[1..];
      } else {
        FirstLess(snap, a, b);
      }
    }
  }

  lemma {:induction false} TailLess(snap: HardwareSnapshot, a: seq<seq<int>>, b: seq<seq<int>>)
    requires Canonical(a) && Canonical(b) && a != [] && b != [] && a[0] == b[0] && LessEverywhere(snap, a, b)
    ensures LessEverywhere(snap, a[1..], b[1..])
  {
    forall v
      ensures |At(snap, a[1..], v)| == |At(snap, b[1..], v)| && LessOrSame(At(snap, a[1..], v), At(snap, b[1..], v))
    {
      var x, y := At(snap, a, v), At(snap, b, v);
      assert |x| == |y| && LessOrSame(x, y);
      if snap.NodeOf(a[0][0]) == v {
        assert x[1..] == At(snap, a[1..], v) && y[1..] == At(snap, b[1..], v);
        NotLess(a[0]);
      }
    }
  }

  lemma {:induction false} NotLess(s: seq<int>)
    ensures !SeqLess(s, s)
  {
    if s != [] {
      NotLess(s[1..]);
    }
  }

  /** Where two orders first differ, the group of the lesser one is less. */
  lemma {:induction false} FirstLess(snap: HardwareSnapshot, a: seq<seq<int>>, b: seq<seq<int>>)
    requires Canonical(a) && Canonical(b) && a != [] && b != [] && a[0] != b[0] && LessEverywhere(snap, a, b)
    ensures SeqLess(a[0], b[0])
  {
    var v := snap.NodeOf(b[0][0]);
    var x, y := At(snap, a, v), At(snap, b, v);
    assert |x| == |y| && LessOrSame(x, y) && y[0] == b[0];
    assert x[0] in x;
    assert x[0] in a;
    HeadLeast(a, x[0]);
    assert x[0] == b[0] || SeqLess(x[0], b[0]);
  }

  // ------------------------------------------------------------------ every machine is planned best

  lemma {:induction false} CapacityConcat(snap: HardwareSnapshot, tp: nat, ids: seq<int>, a: seq<NodeId>, b: seq<NodeId>)
    requires tp >= 1
    ensures Capacity(snap, tp, ids, a + b) == Capacity(snap, tp, ids, a) + Capacity(snap, tp, ids, b)
  {
    if a == [] {
      assert a + b == b;
    } else {
      assert (a + b)[1..] == a[1..] + b;
      CapacityConcat(snap, tp, ids, a[1..], b);
    }
  }

  /** The other machines. */
  function OtherThan(nodes: seq<NodeId>, k: nat): (r: seq<NodeId>)
    requires k < |nodes|
  {
    nodes[..k] + nodes[k + 1..]
  }

  lemma {:induction false} OtherMachines(nodes: seq<NodeId>, k: nat)
    requires k < |nodes| && Distinct(nodes)
    ensures Distinct(OtherThan(nodes, k))
    ensures forall v :: v in OtherThan(nodes, k) <==> v in nodes && v != nodes[k]
  {
    var r := OtherThan(nodes, k);
    assert forall i :: 0 <= i < |r| ==> r[i] == if i < k then nodes[i] else nodes[i + 1];
    forall v | v in nodes && v != nodes[k]
      ensures v in r
    {
      var i :| 0 <= i < |nodes| && nodes[i] == v;
      assert r[if i < k then i else i - 1] == v;
    }
  }

  lemma {:induction false} OtherCapacity(snap: HardwareSnapshot, tp: nat, ids: seq<int>, nodes: seq<NodeId>, k: nat)
    requires tp >= 1 && k < |nodes|
    ensures Capacity(snap, tp, ids, nodes)
         == Share(snap, tp, ids, nodes[k]) + Capacity(snap, tp, ids, OtherThan(nodes, k))
  {
    var a, b := nodes[..k], nodes[k + 1..];
    assert nodes == a + ([nodes[k]] + b) && ([nodes[k]] + b)[1..] == b;
    CapacityConcat(snap, tp, ids, a, [nodes[k]] + b);
    CapacityConcat(snap, tp, ids, a, b);
  }

  /** A family that respects machines and is as large as fits fills each of them. */
  lemma {:induction false} FullEverywhere(
    snap: HardwareSnapshot, f: seq<seq<int>>, tp: nat, ids: seq<int>, nodes: seq<NodeId>, k: nat)
    requires tp >= 1 && Distinct(ids) && Distinct(nodes) && k < |nodes|
    requires Family(f, tp, |f|, ids) && NonEmptyGroups(f) && Placed(snap, f, nodes)
    requires |f| == Capacity(snap, tp, ids, nodes)
    ensures var v, rest := nodes[k], OtherThan(nodes, k);
            var off := Off(snap, f, v);
            && |At(snap, f, v)| == Share(snap, tp, ids, v)
            && |off| == Capacity(snap, tp, ids, rest)
            && Family(off, tp, |off|, ids) && Placed(snap, off, rest)
  {
    hide Family, OnNode, Share, Capacity;
    var v, rest := nodes[k], OtherThan(nodes, k);
    var off := Off(snap, f, v);
    OtherMachines(nodes, k);
    OffIsFamily(snap, f, tp, ids, v);
    AtBound(snap, f, tp, ids, nodes, v);
    PlacedBound(snap, off, tp, ids, rest);
    SplitScore(snap, f, v);
    OtherCapacity(snap, tp, ids, nodes, k);
  }

  lemma {:induction false} OffIsFamily(snap: HardwareSnapshot, f: seq<seq<int>>, tp: nat, ids: seq<int>, v: NodeId)
    requires tp >= 1 && Family(f, tp, |f|, ids) && NonEmptyGroups(f)
    ensures var off := Off(snap, f, v); Family(off, tp, |off|, ids)
  {
    var off := Off(snap, f, v);
    SplitDisjoint(snap, f, v);
    forall g | g in off
      ensures GroupOf(g, tp, ids)
    {
      FamilyMember(f, tp, |f|, ids, g);
    }
    FamilyFromMembers(off, tp, ids);
  }

  /** Every machine is searched. */
  predicate Searched(snap: HardwareSnapshot, tp: nat, ids: seq<int>, nodes: seq<NodeId>) {
    forall v :: v in nodes ==> Searchable(tp, |OnNode(snap, ids, v)|)
  }

  /** As good as the full plan in all, hence on each machine. */
  lemma {:induction false} BestEverywhere(
    snap: HardwareSnapshot, f: seq<seq<int>>, tp: nat, ids: seq<int>, nodes: seq<NodeId>, r: seq<seq<int>>, k: nat)
    requires tp >= 1 && Distinct(ids) && Distinct(nodes) && k < |nodes| && snap.LinkCountsNonNegative()
    requires Family(f, tp, |f|, ids) && NonEmptyGroups(f) && Placed(snap, f, nodes)
    requires |f| == Capacity(snap, tp, ids, nodes) && Searched(snap, tp, ids, nodes)
    requires FillNodes(snap, tp, ids, nodes) == Ok(r) && PartitionScore(snap, f) == PartitionScore(snap, r)
    requires Share(snap, tp, ids, nodes[k]) > 0
    ensures Distinct(OnNode(snap, ids, nodes[k]))
    ensures var v := nodes[k];
            var here := PlanPool(snap, tp, Share(snap, tp, ids, v), OnNode(snap, ids, v));
            && here.Ok?
            && Family(At(snap, f, v), tp, Share(snap, tp, ids, v), OnNode(snap, ids, v))
            && PartitionScore(snap, At(snap, f, v)) == PartitionScore(snap, here.value)
  {
    hide Family, OnNode, Share, Capacity, PlanPool, FillNodes, Placed, At, Off, NonEmptyGroups, PartitionScore;
    var v, rest := nodes[k], OtherThan(nodes, k);
    var before, after := FillAround(snap, tp, ids, nodes, k);
    FullEverywhere(snap, f, tp, ids, nodes, k);
    OtherMachines(nodes, k);
    FillConcat(snap, tp, ids, nodes[..k], nodes[k + 1..]);
    SearchedIsGood(snap, tp, ids, nodes, rest);
    FillOptimal(snap, Off(snap, f, v), tp, ids, rest);
    var here := PlanPool(snap, tp, Share(snap, tp, ids, v), OnNode(snap, ids, v)).value;
    AtFamily(snap, f, tp, ids, nodes, v);
    PoolIsBest(snap, tp, ids, nodes, v, At(snap, f, v));
    SplitScore(snap, f, v);
    AroundScore(snap, before, here, after);
    PartitionScoreConcat(snap, before, after);
  }

  lemma {:induction false} SearchedIsGood(
    snap: HardwareSnapshot, tp: nat, ids: seq<int>, nodes: seq<NodeId>, rest: seq<NodeId>)
    requires tp >= 1 && Searched(snap, tp, ids, nodes) && forall v :: v in rest ==> v in nodes
    ensures GoodNodes(snap, tp, ids, rest)
  {
  }

  lemma {:induction false} PoolIsBest(
    snap: HardwareSnapshot, tp: nat, ids: seq<int>, nodes: seq<NodeId>, v: NodeId, at: seq<seq<int>>)
    requires tp >= 1 && Distinct(ids) && Searched(snap, tp, ids, nodes) && v in nodes && snap.LinkCountsNonNegative()
    requires Distinct(OnNode(snap, ids, v)) && Family(at, tp, Share(snap, tp, ids, v), OnNode(snap, ids, v))
    ensures var here := PlanPool(snap, tp, Share(snap, tp, ids, v), OnNode(snap, ids, v));
            here.Ok? && PartitionScore(snap, at) <= PartitionScore(snap, here.value)
  {
    hide PlanPool, IslandPool, PartitionScore, Family;
    GoodPoolBest(snap, tp, Share(snap, tp, ids, v), OnNode(snap, ids, v));
  }

  // ------------------------------------------------------------------ the full plan is least

  /** The full plan's groups on one machine are its pool's. */
  lemma {:induction false} PlannedAt(
    snap: HardwareSnapshot, tp: nat, ids: seq<int>, nodes: seq<NodeId>, r: seq<seq<int>>, k: nat)
    requires tp >= 1 && Distinct(ids) && Distinct(nodes) && k < |nodes| && snap.LinkCountsNonNegative()
    requires FillNodes(snap, tp, ids, nodes) == Ok(r) && NonEmptyGroups(r)
    requires Share(snap, tp, ids, nodes[k]) > 0
    ensures Distinct(OnNode(snap, ids, nodes[k]))
    ensures var v := nodes[k];
            var here := PlanPool(snap, tp, Share(snap, tp, ids, v), OnNode(snap, ids, v));
            here.Ok? && Canonical(here.value) && At(snap, r, v) == here.value
  {
    hide Family, OnNode, Share, PlanPool, FillNodes, At;
    var v := nodes[k];
    var before, after := FillAround(snap, tp, ids, nodes, k);
    PoolPlaced(snap, tp, Share(snap, tp, ids, v), ids, v, nodes);
    var here := PlanPool(snap, tp, Share(snap, tp, ids, v), OnNode(snap, ids, v)).value;
    OtherNodes(snap, nodes, k, before, after);
    AllNonEmpty(before);
    AllNonEmpty(after);
    AtNone(snap, before, v);
    AtNone(snap, after, v);
    AtAll(snap, here, v);
    AtConcat(snap, before, here, v);
    AtConcat(snap, before + here, after, v);
    assert [] + here + [] == here;
  }

  lemma {:induction false} AllNonEmpty(f: seq<seq<int>>)
    requires forall g :: g in f ==> g != []
    ensures NonEmptyGroups(f)
  {
    assert forall i :: 0 <= i < |f| ==> f[i] in f;
  }

  lemma {:induction false} LessAt(
    snap: HardwareSnapshot, f: seq<seq<int>>, tp: nat, ids: seq<int>, nodes: seq<NodeId>, r: seq<seq<int>>, v: NodeId)
    requires tp >= 1 && Increasing(ids) && Distinct(ids) && Distinct(nodes) && snap.LinkCountsNonNegative()
    requires Partition(f, tp, |f|, ids) && Placed(snap, f, nodes)
    requires |f| == Capacity(snap, tp, ids, nodes) && Searched(snap, tp, ids, nodes)
    requires FillNodes(snap, tp, ids, nodes) == Ok(r) && PartitionScore(snap, f) == PartitionScore(snap, r)
    requires Family(r, tp, |f|, ids) && NonEmptyGroups(r) && AllIncreasing(r) && Placed(snap, r, nodes)
    ensures |At(snap, CanonicalForm(r), v)| == |At(snap, f, v)|
    ensures LessOrSame(At(snap, CanonicalForm(r), v), At(snap, f, v))
  {
    hide Family, OnNode, Share, PlanPool, FillNodes, At, Capacity, Canonical, ListLess, PartitionScore, Increasing;
    hide Placed, AllIncreasing, Searched, CanonicalForm, NonEmptyGroups, PairwiseDisjoint, Searchable, Distinct;
    PartitionParts(f, tp, |f|, ids);
    FamilyApart(r, tp, |f|, ids);
    if v in nodes && Share(snap, tp, ids, v) > 0 {
      var k :| 0 <= k < |nodes| && nodes[k] == v;
      PlannedAt(snap, tp, ids, nodes, r, k);
      BestEverywhere(snap, f, tp, ids, nodes, r, k);
      AtOrdered(snap, r, v, At(snap, r, v));
      AtCanonical(snap, f, v);
      LeastAt(snap, tp, ids, nodes, v, At(snap, f, v));
    } else {
      NoneAt(snap, f, tp, ids, nodes, v);
      NoneAt(snap, r, tp, ids, nodes, v);
      NothingCanonical();
      AtOrdered(snap, r, v, []);
    }
  }

  lemma {:induction false} PartitionParts(f: seq<seq<int>>, tp: nat, n: nat, ids: seq<int>)
    requires Partition(f, tp, n, ids)
    ensures Family(f, tp, n, ids) && Canonical(f) && NonEmptyGroups(f)
  {
  }

  lemma {:induction false} FamilyApart(f: seq<seq<int>>, tp: nat, n: nat, ids: seq<int>)
    requires Family(f, tp, n, ids)
    ensures PairwiseDisjoint(f) && |f| == n
  {
  }

  lemma {:induction false} NoneAt(
    snap: HardwareSnapshot, f: seq<seq<int>>, tp: nat, ids: seq<int>, nodes: seq<NodeId>, v: NodeId)
    requires tp >= 1 && Distinct(ids) && Family(f, tp, |f|, ids) && NonEmptyGroups(f) && Placed(snap, f, nodes)
    requires v !in nodes || Share(snap, tp, ids, v) == 0
    ensures At(snap, f, v) == []
  {
    if v in nodes {
      AtBound(snap, f, tp, ids, nodes, v);
    } else {
      AtNone(snap, f, v);
    }
  }

  lemma {:induction false} LeastAt(
    snap: HardwareSnapshot, tp: nat, ids: seq<int>, nodes: seq<NodeId>, v: NodeId, at: seq<seq<int>>)
    requires tp >= 1 && Increasing(ids) && Searched(snap, tp, ids, nodes) && v in nodes && snap.LinkCountsNonNegative()
    requires Distinct(OnNode(snap, ids, v)) && Family(at, tp, Share(snap, tp, ids, v), OnNode(snap, ids, v))
    requires Canonical(at) && PlanPool(snap, tp, Share(snap, tp, ids, v), OnNode(snap, ids, v)).Ok?
    requires PartitionScore(snap, at)
          == PartitionScore(snap, PlanPool(snap, tp, Share(snap, tp, ids, v), OnNode(snap, ids, v)).value)
    ensures var here := PlanPool(snap, tp, Share(snap, tp, ids, v), OnNode(snap, ids, v)).value;
            |here| == |at| && LessOrSame(here, at)
  {
    hide PlanPool, PartitionScore, ListLess, Increasing, Family, Canonical;
    OnNodeIncreasing(snap, ids, v);
    var n, mine := Share(snap, tp, ids, v), OnNode(snap, ids, v);
    PoolSound(snap, tp, n, mine);
    FamilyLength(at, tp, n, mine);
    FamilyLength(PlanPool(snap, tp, n, mine).value, tp, n, mine);
    IsPartition(at, tp, n, mine);
    SearchedPoolLeast(snap, tp, n, mine);
  }

  /** At the maximum count, machine by machine, nothing as good is less. */
  lemma {:induction false} FilledIsLeast(
    snap: HardwareSnapshot, f: seq<seq<int>>, tp: nat, ids: seq<int>, nodes: seq<NodeId>, r: seq<seq<int>>)
    requires tp >= 1 && Increasing(ids) && Distinct(ids) && Distinct(nodes) && snap.LinkCountsNonNegative()
    requires Partition(f, tp, |f|, ids) && Placed(snap, f, nodes)
    requires |f| == Capacity(snap, tp, ids, nodes) && Searched(snap, tp, ids, nodes)
    requires FillNodes(snap, tp, ids, nodes) == Ok(r) && PartitionScore(snap, f) == PartitionScore(snap, r)
    requires Family(r, tp, |f|, ids) && NonEmptyGroups(r) && AllIncreasing(r) && Placed(snap, r, nodes)
    ensures LessOrSame(CanonicalForm(r), f)
  {
    hide Family, FillNodes, At, Capacity, Canonical, PartitionScore, Increasing, Placed, Searched, CanonicalForm;
    PartitionParts(f, tp, |f|, ids);
    CanonicalFormFamily(r, tp, |f|, ids);
    FamilyLength(r, tp, |f|, ids);
    forall v
      ensures |At(snap, CanonicalForm(r), v)| == |At(snap, f, v)|
      ensures LessOrSame(At(snap, CanonicalForm(r), v), At(snap, f, v))
    {
      LessAt(snap, f, tp, ids, nodes, r, v);
    }
    MergedLess(snap, CanonicalForm(r), f);
  }

  /**
   * At the maximum replica count on machines that are searched, the plan put in order is the
   * lexicographically least of the best families that respect machines.
   */
  lemma {:induction false} PlanLeastWhenFull(snap: HardwareSnapshot, tp: nat, gpuIds: seq<int>, f: seq<seq<int>>)
    requires tp >= 1 && Distinct(gpuIds) && snap.LinkCountsNonNegative()
    requires var ids := Sorted(gpuIds);
             var plan := Plan(snap, tp, MaxReplicas(snap, tp, ids), gpuIds, false);
             && Searched(snap, tp, ids, Nodes(snap, ids))
             && Partition(f, tp, MaxReplicas(snap, tp, ids), ids)
             && Placed(snap, f, Nodes(snap, ids))
             && plan.Ok? && PartitionScore(snap, f) == PartitionScore(snap, plan.value)
    ensures var r := Plan(snap, tp, MaxReplicas(snap, tp, Sorted(gpuIds)), gpuIds, false).value;
            NonEmptyGroups(r) && (f == CanonicalForm(r) || ListLess(CanonicalForm(r), f))
  {
    hide PlanPool, Sorted, Nodes, FillNodes, Placed, Partition, PartitionScore, CanonicalForm, Searched, Increasing;
    hide Family, MaxReplicas, ListLess, NonEmptyGroups;
    var ids := Sorted(gpuIds);
    var n := MaxReplicas(snap, tp, ids);
    SortedIncreasing(gpuIds);
    if tp == 1 || |Nodes(snap, ids)| <= 1 {
      OnePoolLeast(snap, tp, n, gpuIds, f);
    } else {
      FullPlan(snap, tp, gpuIds);
      FilledPlanLeast(snap, tp, ids, f, Plan(snap, tp, n, gpuIds, false).value);
    }
  }

  lemma {:induction false} FilledPlanLeast(snap: HardwareSnapshot, tp: nat, ids: seq<int>, f: seq<seq<int>>, r: seq<seq<int>>)
    requires tp >= 1 && Increasing(ids) && Distinct(ids) && snap.LinkCountsNonNegative()
    requires Searched(snap, tp, ids, Nodes(snap, ids)) && Placed(snap, f, Nodes(snap, ids))
    requires Partition(f, tp, MaxReplicas(snap, tp, ids), ids)
    requires FillNodes(snap, tp, ids, SortNodes(Nodes(snap, ids))) == Ok(r)
    requires PartitionScore(snap, f) == PartitionScore(snap, r)
    ensures NonEmptyGroups(r) && LessOrSame(CanonicalForm(r), f)
  {
    hide FillNodes, PartitionScore, CanonicalForm, Nodes, SortNodes, Capacity, Family, Canonical, Increasing, OnNode;
    var nodes, n := SortNodes(Nodes(snap, ids)), MaxReplicas(snap, tp, ids);
    NodesDistinct(snap, ids);
    SortNodesDistinct(Nodes(snap, ids));
    SortNodesCapacity(snap, tp, ids, Nodes(snap, ids));
    FillSound(snap, tp, ids, nodes);
    PartitionParts(f, tp, n, ids);
    FamilyLength(f, tp, n, ids);
    FamilyNonEmpty(r, tp, n, ids);
    assert Searched(snap, tp, ids, nodes);
    PlacedSame(snap, f, Nodes(snap, ids), nodes);
    FilledIsLeast(snap, f, tp, ids, nodes, r);
  }

  lemma {:induction false} OnePoolLeast(snap: HardwareSnapshot, tp: nat, n: nat, gpuIds: seq<int>, f: seq<seq<int>>)
    requires tp >= 1 && Distinct(gpuIds) && snap.LinkCountsNonNegative()
    requires var ids := Sorted(gpuIds);
             && (tp == 1 || |Nodes(snap, ids)| <= 1)
             && Searched(snap, tp, ids, Nodes(snap, ids))
             && Partition(f, tp, n, ids)
             && Plan(snap, tp, n, gpuIds, false).Ok?
             && PartitionScore(snap, f) == PartitionScore(snap, Plan(snap, tp, n, gpuIds, false).value)
    ensures var r := Plan(snap, tp, n, gpuIds, false).value; NonEmptyGroups(r) && LessOrSame(CanonicalForm(r), f)
  {
    hide PlanPool, Sorted, PartitionScore, Increasing, OnNode, Partition, CanonicalForm, Family, ListLess;
    var ids := Sorted(gpuIds);
    SortedIncreasing(gpuIds);
    PoolOfSorted(snap, tp, n, gpuIds);
    PoolSound(snap, tp, n, ids);
    var r := PlanPool(snap, tp, n, ids).value;
    SearchedPool(snap, tp, ids);
    SearchedPoolLeast(snap, tp, n, ids);
    CanonicalFormFixed(r);
  }

  lemma {:induction false} SearchedPool(snap: HardwareSnapshot, tp: nat, ids: seq<int>)
    requires tp >= 1 && Searched(snap, tp, ids, Nodes(snap, ids)) && (tp == 1 || |Nodes(snap, ids)| <= 1)
    ensures Searchable(tp, |ids|)
  {
    if tp != 1 && ids != [] {
      var v := snap.NodeOf(ids[0]);
      assert ids[0] in ids && v in Nodes(snap, ids);
      OnlyNode(snap, ids, v);
    }
  }
}
