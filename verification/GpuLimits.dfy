/** Where the planner's optimality stops: concrete topologies on which a stronger claim is false. */
module GpuLimits {
  import opened Wrappers
  import opened Sequences
  import opened Hardware
  import opened GpuScores
  import opened GpuSearch
  import opened GpuGreedy
  import opened GpuPlan
  import opened GpuPlanTheorems
  import opened GpuWiring
  import opened GpuClusters
  import opened GpuBait

  // ------------------------------------------------------------------ fewer replicas than fit

  /** Two machines of two GPUs: a slow pair on "a", an NVLink pair on "b". */
  function TwoMachines(): HardwareSnapshot {
    HardwareSnapshot(
      [GPUDevice(0, Some("a")), GPUDevice(1, Some("a")), GPUDevice(2, Some("b")), GPUDevice(3, Some("b"))],
      GPUTopology(
        [TopologyEdge(0, 1, "PHB", false, None), TopologyEdge(2, 3, "NV", true, Some(4))], true))
  }

  lemma {:induction false} TwoMachinesNodes()
    ensures var s := TwoMachines();
            s.NodeOf(0) == s.NodeOf(1) == Some("a") && s.NodeOf(2) == s.NodeOf(3) == Some("b")
  {
    var g := TwoMachines().gpus;
    assert g[..3][..2] == g[..2] && g[..3][..2][..1] == g[..1];
    assert g[..3][2] == g[2] && g[..2][1] == g[1] && g[..1][0] == g[0];
    assert LookupNode(g[..1], 0) == Some("a");
    assert LookupNode(g[..2], 1) == Some("a");
    assert LookupNode(g[..2], 0) == Some("a");
    assert LookupNode(g[..3], 2) == Some("b");
  }

  lemma {:induction false} PairGroupScore(snap: HardwareSnapshot, a: int, b: int)
    requires a < b
    ensures PartitionScore(snap, [[a, b]]) == PairScore(snap, a, b)
  {
    SortedFixed([a, b]);
    assert [a, b][1..] == [b];
    assert [b][1..] == [];
    assert PairSum(snap, [b]) == 0;
    assert Affinity(snap, a, [b]) == PairScore(snap, a, b);
    assert [[a, b]][1..] == [];
    assert PartitionScore(snap, []) == 0;
  }

  lemma {:induction false} TwoMachinesScores()
    ensures PartitionScore(TwoMachines(), [[0, 1]]) == 20
    ensures PartitionScore(TwoMachines(), [[2, 3]]) == 104
  {
    TwoMachinesNodes();
    PairGroupScore(TwoMachines(), 0, 1);
    PairGroupScore(TwoMachines(), 2, 3);
    var e := TwoMachines().topology.edges;
    assert FindEdge(e, 0, 1) == Some(e[0]);
    assert FindEdge(e[1..], 2, 3) == Some(e[1]);
  }

  lemma {:induction false} TwoMachinesGrouping()
    ensures var s := TwoMachines();
            && Nodes(s, [0, 1, 2, 3]) == [Some("a"), Some("b")]
            && OnNode(s, [0, 1, 2, 3], Some("a")) == [0, 1]
  {
    hide TwoMachines, Nodes, OnNode, HardwareSnapshot.NodeOf;
    var s := TwoMachines();
    TwoMachinesNodes();
    NoGPUs(s, Some("a"));
    OneMore(s, [], 0, [0], Some("a"));
    assert Nodes(s, [0]) == [Some("a")] && OnNode(s, [0], Some("a")) == [0];
    OneMore(s, [0], 1, [0, 1], Some("a"));
    OneMore(s, [0, 1], 2, [0, 1, 2], Some("a"));
    assert Nodes(s, [0, 1, 2]) == [Some("a"), Some("b")] && OnNode(s, [0, 1, 2], Some("a")) == [0, 1];
    OneMore(s, [0, 1, 2], 3, [0, 1, 2, 3], Some("a"));
  }

  lemma {:induction false} NoGPUs(snap: HardwareSnapshot, v: NodeId)
    ensures Nodes(snap, []) == [] && OnNode(snap, [], v) == []
  {
  }

  lemma {:induction false} OneMore(snap: HardwareSnapshot, ids: seq<int>, i: int, more: seq<int>, v: NodeId)
    requires more == ids + [i]
    ensures var w := snap.NodeOf(i);
            && Nodes(snap, more) == (if w in Nodes(snap, ids) then Nodes(snap, ids) else Nodes(snap, ids) + [w])
            && OnNode(snap, more, v) == if w == v then OnNode(snap, ids, v) + [i] else OnNode(snap, ids, v)
  {
    assert more[..|more| - 1] == ids && more[|more| - 1] == i;
  }

  lemma {:induction false} TwoMachinesOrder()
    ensures SortNodes([Some("a"), Some("b")]) == [Some("a"), Some("b")]
  {
    var b := [Some("b")];
    assert b[1..] == [];
    assert SortNodes(b) == b;
    assert [Some("a"), Some("b")][1..] == b;
  }

  lemma {:induction false} OnlyPair(f: seq<seq<int>>)
    requires Family(f, 2, 1, [0, 1]) && Canonical(f)
    ensures f == [[0, 1]]
  {
    assert GroupOf(f[0], 2, [0, 1]);
    assert f[0][0] in f[0] && f[0][1] in f[0];
    assert f[0] == [0, 1];
  }

  lemma {:induction false} TwoMachinesLinks()
    ensures TwoMachines().LinkCountsNonNegative()
  {
  }

  lemma {:induction false} TwoMachinesFirst()
    ensures PlanPool(TwoMachines(), 2, 1, [0, 1]) == Ok([[0, 1]])
  {
    TwoMachinesLinks();
    PoolSound(TwoMachines(), 2, 1, [0, 1]);
    OnlyPair(PlanPool(TwoMachines(), 2, 1, [0, 1]).value);
  }

  /** Asked for one group, `plan` returns the first machine's when that machine holds exactly one. */
  lemma {:induction false} FirstMachineWins(
    snap: HardwareSnapshot, ids: seq<int>, nodes: seq<NodeId>, here: seq<seq<int>>)
    requires Increasing(ids) && 2 <= |ids| && snap.LinkCountsNonNegative()
    requires |Nodes(snap, ids)| > 1 && nodes == SortNodes(Nodes(snap, ids)) && |nodes| > 0
    requires Share(snap, 2, ids, nodes[0]) == 1 && Distinct(OnNode(snap, ids, nodes[0]))
    requires PlanPool(snap, 2, 1, OnNode(snap, ids, nodes[0])) == Ok(here) && |here| == 1
    ensures Plan(snap, 2, 1, ids, false) == Ok(here)
  {
    hide PlanPool, OnNode, Nodes, SortNodes, Sorted, Share, Placed, Family;
    SortedFixed(ids);
    NodesDistinct(snap, ids);
    SortNodesDistinct(Nodes(snap, ids));
    FillSound(snap, 2, ids, nodes[1..]);
    var rest := FillNodes(snap, 2, ids, nodes[1..]).value;
    assert FillNodes(snap, 2, ids, nodes) == Ok(here + rest);
    assert (here + rest)[..1] == here;
    assert PlanPerNode(snap, 2, 1, ids) == Ok(here);
  }

  lemma {:induction false} FourIds(ids: seq<int>)
    requires ids == [0, 1, 2, 3]
    ensures Increasing(ids) && Distinct(ids)
  {
    assert forall i :: 0 <= i < |ids| ==> ids[i] == i;
  }

  lemma {:induction false} TwoMachinesPlan(s: HardwareSnapshot, ids: seq<int>)
    requires s == TwoMachines() && ids == [0, 1, 2, 3]
    ensures Distinct(ids) && Plan(s, 2, 1, ids, false) == Ok([[0, 1]])
  {
    hide Plan, PlanPool, Nodes, OnNode, SortNodes, Share;
    TwoMachinesLinks();
    TwoMachinesGrouping();
    TwoMachinesOrder();
    TwoMachinesFirst();
    FourIds(ids);
    var nodes := SortNodes(Nodes(s, ids));
    assert OnNode(s, ids, nodes[0]) == [0, 1];
    FirstMachineWins(s, ids, nodes, [[0, 1]]);
  }

  lemma {:induction false} OtherPair(s: HardwareSnapshot, ids: seq<int>, better: seq<seq<int>>)
    requires s == TwoMachines() && ids == [0, 1, 2, 3] && better == [[2, 3]]
    ensures Family(better, 2, 1, ids) && Placed(s, better, Nodes(s, ids))
  {
    TwoMachinesNodes();
    TwoMachinesGrouping();
    assert GroupOf(better[0], 2, ids);
  }

  /**
   * Asked for fewer groups than fit, `plan` keeps the first machine's groups: here it returns the
   * slow pair although the other machine holds an NVLink pair. Optimality needs the full count.
   */
  lemma {:induction false} TruncationLosesOptimality(s: HardwareSnapshot, ids: seq<int>, better: seq<seq<int>>)
    requires s == TwoMachines() && ids == [0, 1, 2, 3] && better == [[2, 3]]
    ensures Family(better, 2, 1, ids) && Placed(s, better, Nodes(s, ids))
    ensures Distinct(ids) && Plan(s, 2, 1, ids, false).Ok?
    ensures PartitionScore(s, Plan(s, 2, 1, ids, false).value) < PartitionScore(s, better)
  {
    FourIds(ids);
    TwoMachinesPlan(s, ids);
    TwoMachinesScores();
    OtherPair(s, ids, better);
  }

  // ------------------------------------------------------------------ no islands

  /** One machine of ten GPUs whose topology is not known: nearby indices count as better connected. */
  function TenGPUs(): HardwareSnapshot {
    HardwareSnapshot(seq(10, i => GPUDevice(i, None)), GPUTopology([], false))
  }

  lemma {:induction false} LookupNowhere(gpus: seq<GPUDevice>, i: int)
    requires forall k :: 0 <= k < |gpus| ==> gpus[k].nodeId == None
    ensures LookupNode(gpus, i) == None
  {
    if gpus != [] && gpus[|gpus| - 1].index != i {
      LookupNowhere(gpus[..|gpus| - 1], i);
    }
  }

  function Near(a: int, b: int): int {
    var distance := if a < b then b - a else a - b;
    if 8 - distance > 1 then 8 - distance else 1
  }

  lemma {:induction false} TenScore(a: int, b: int)
    ensures PairScore(TenGPUs(), a, b) == Near(a, b)
  {
    LookupNowhere(TenGPUs().gpus, a);
    LookupNowhere(TenGPUs().gpus, b);
  }

  function Range(n: nat): (r: seq<int>)
    ensures |r| == n && forall i :: 0 <= i < n ==> r[i] == i
  {
    seq(n, i => i)
  }

  /** `sum(near(c, j) for j in range(n) if j != c)`. */
  function NearSum(c: int, n: nat): int {
    if n == 0 then 0 else NearSum(c, n - 1) + if c == n - 1 then 0 else Near(c, n - 1)
  }

  lemma {:induction false} AffinityLast(snap: HardwareSnapshot, c: int, s: seq<int>, x: int)
    ensures Affinity(snap, c, s + [x]) == Affinity(snap, c, s) + PairScore(snap, c, x)
  {
    if s == [] {
      assert s + [x] == [x] && [x][1..] == [];
    } else {
      assert (s + [x])[1..] == s[1..] + [x];
      AffinityLast(snap, c, s[1..], x);
    }
  }

  lemma {:induction false} WithoutLast(s: seq<int>, x: int, gone: seq<int>)
    ensures Without(s + [x], gone) == Without(s, gone) + if x in gone then [] else [x]
  {
    if s == [] {
      assert s + [x] == [x] && [x][1..] == [];
    } else {
      assert (s + [x])[1..] == s[1..] + [x];
      WithoutLast(s[1..], x, gone);
    }
  }

  lemma {:induction false} TenConnectivity(c: int, n: nat)
    ensures Connectivity(TenGPUs(), c, Range(n)) == NearSum(c, n)
  {
    hide TenGPUs, Near, PairScore, Connectivity, Range;
    if n == 0 {
      NothingConnected(TenGPUs(), c, Range(0));
    } else {
      var x := n - 1;
      RangeLast(n);
      TenConnectivity(c, x);
      ConnectivityLast(TenGPUs(), c, Range(x), x);
      TenScore(c, x);
    }
  }

  lemma {:induction false} RangeLast(n: nat)
    requires n > 0
    ensures Range(n) == Range(n - 1) + [n - 1]
  {
  }

  lemma {:induction false} NothingConnected(snap: HardwareSnapshot, c: int, s: seq<int>)
    requires s == []
    ensures Connectivity(snap, c, s) == 0
  {
  }

  lemma {:induction false} ConnectivityLast(snap: HardwareSnapshot, c: int, s: seq<int>, x: int)
    ensures Connectivity(snap, c, s + [x]) == Connectivity(snap, c, s) + if x == c then 0 else PairScore(snap, c, x)
  {
    hide Without, Affinity, PairScore;
    var rest := Without(s, [c]);
    WithoutLast(s, x, [c]);
    if x == c {
      assert rest + [] == rest;
    } else {
      AffinityLast(snap, c, rest, x);
    }
  }

  lemma {:induction false} MiddleIsBest(c: int)
    requires 0 <= c < 10
    ensures NearSum(c, 10) < NearSum(4, 10) || (NearSum(c, 10) == NearSum(4, 10) && 4 <= c)
  {
    assert NearSum(0, 10) == 30 && NearSum(1, 10) == 36 && NearSum(2, 10) == 41 && NearSum(3, 10) == 45;
    assert NearSum(4, 10) == 47 && NearSum(5, 10) == 47;
    assert NearSum(6, 10) == 45 && NearSum(7, 10) == 41 && NearSum(8, 10) == 36 && NearSum(9, 10) == 30;
  }

  lemma {:induction false} RangeFacts(n: nat)
    ensures Increasing(Range(n)) && Distinct(Range(n)) && forall x :: x in Range(n) <==> 0 <= x < n
  {
    forall x | 0 <= x < n
      ensures x in Range(n)
    {
      assert Range(n)[x] == x;
    }
  }

  lemma {:induction false} TenSeed()
    ensures Range(10) != [] && Seed(TenGPUs(), Range(10)) == 4
  {
    var s, ids := TenGPUs(), Range(10);
    RangeFacts(10);
    forall c | c in ids
      ensures Connectivity(s, c, ids) < Connectivity(s, 4, ids) || (Connectivity(s, c, ids) == Connectivity(s, 4, ids) && 4 <= c)
    {
      TenConnectivity(c, 10);
      TenConnectivity(4, 10);
      MiddleIsBest(c);
    }
    BestUnique(ids, i => Connectivity(s, i, ids), 4);
  }

  lemma {:induction false} TenNext(remaining: seq<int>)
    requires 3 in remaining && 4 !in remaining
    ensures Next(TenGPUs(), [4], remaining) == 3
  {
    hide TenGPUs, Next, PairScore, Affinity;
    var s := TenGPUs();
    TenTie(3);
    forall c | c in remaining
      ensures Affinity(s, c, [4]) < Affinity(s, 3, [4]) || (Affinity(s, c, [4]) == Affinity(s, 3, [4]) && 3 <= c)
    {
      TenTie(c);
    }
    NextUnique(s, [4], remaining, 3);
  }

  lemma {:induction false} TenTie(c: int)
    ensures Affinity(TenGPUs(), c, [4]) == Near(c, 4)
  {
    SingleAffinity(TenGPUs(), c, 4);
    TenScore(c, 4);
  }

  lemma {:induction false} NextUnique(snap: HardwareSnapshot, group: seq<int>, remaining: seq<int>, r: int)
    requires r in remaining
    requires forall c :: c in remaining ==>
      Affinity(snap, c, group) < Affinity(snap, r, group) || (Affinity(snap, c, group) == Affinity(snap, r, group) && r <= c)
    ensures Next(snap, group, remaining) == r
  {
    hide Affinity;
    BestUnique(remaining, c => Affinity(snap, c, group), r);
  }

  /** The greedy pass takes the two in the middle, which leaves three GPUs on the left. */
  lemma {:induction false} TenGreedy()
    ensures var r := Greedy(TenGPUs(), 2, 5, Range(10)); 3 in r[0] && 4 in r[0]
  {
    hide Seed, Next, TenGPUs, Range;
    RangeFacts(10);
    TenSeed();
    RemoveDistinct(Range(10), 4);
    TenNext(Remove(Range(10), 4));
    FirstPicks(TenGPUs(), 2, Range(10), 4, 3);
  }

  // ---- three GPUs cannot be paired up among themselves

  lemma {:induction false} TenPairScore(g: seq<int>)
    requires Increasing(g) && |g| == 2
    ensures GroupScore(TenGPUs(), g) == Near(g[0], g[1])
  {
    SortedPairScore(TenGPUs(), g);
    TenScore(g[0], g[1]);
  }

  /** One of the two is on the left of the middle pair, the other on its right. */
  predicate Straddles(g: seq<int>) {
    |g| == 2 && g[0] <= 2 && 5 <= g[1]
  }

  lemma {:induction false} StraddlingCosts(f: seq<seq<int>>)
    requires forall g :: g in f ==> Increasing(g) && |g| == 2
    ensures PartitionScore(TenGPUs(), f) <= 7 * |f|
    ensures (exists g :: g in f && Straddles(g)) ==> PartitionScore(TenGPUs(), f) <= 7 * |f| - 2
  {
    if f != [] {
      assert f[0] in f;
      TenPairScore(f[0]);
      StraddlingCosts(f[1..]);
      assert forall g :: g in f ==> g == f[0] || g in f[1..];
    }
  }

  lemma {:induction false} EvenCount(f: seq<seq<int>>, side: seq<int>)
    requires forall g :: g in f ==> |g| == 2 && Overlap(g, side) != 1
    ensures SumCount(f, side) % 2 == 0
  {
    if f != [] {
      assert f[0] in f;
      EvenCount(f[1..], side);
    }
  }

  lemma {:induction false} TwoSides(g: seq<int>, left: seq<int>, right: seq<int>)
    requires forall x :: x in g ==> (x in left) != (x in right)
    ensures Overlap(g, left) + Overlap(g, right) == |g|
  {
    if g != [] {
      var x := g[0];
      assert x in g;
      TwoSides(g[1..], left, right);
    }
  }

  lemma {:induction false} SumSides(f: seq<seq<int>>, left: seq<int>, right: seq<int>)
    requires forall g :: g in f ==> |g| == 2
    requires forall g, x :: g in f && x in g ==> (x in left) != (x in right)
    ensures SumCount(f, left) + SumCount(f, right) == 2 * |f|
  {
    if f != [] {
      assert f[0] in f;
      TwoSides(f[0], left, right);
      SumSides(f[1..], left, right);
    }
  }

  /** Five pairs of ten GPUs leave nobody out: all three on the left are in some pair. */
  lemma {:induction false} LeftAllUsed(f: seq<seq<int>>)
    requires Family(f, 2, 5, Range(10))
    ensures SumCount(f, [0, 1, 2]) == 3
  {
    var left, right := [0, 1, 2], [3, 4, 5, 6, 7, 8, 9];
    RangeFacts(10);
    forall g | g in f
      ensures |g| == 2 && Distinct(g)
    {
      FamilyMember(f, 2, 5, Range(10), g);
    }
    forall g, x | g in f && x in g
      ensures (x in left) != (x in right)
    {
      FamilyMember(f, 2, 5, Range(10), g);
      assert 0 <= x < 10;
    }
    SumCountBound(f, left);
    SumCountBound(f, right);
    SumSides(f, left, right);
  }

  /** Once the middle two are paired, some pair reaches over them. */
  lemma {:induction false} SomeStraddle(f: seq<seq<int>>) returns (g: seq<int>)
    requires Family(f, 2, 5, Range(10)) && AllIncreasing(f) && 3 in f[0] && 4 in f[0]
    ensures g in f && Straddles(g)
  {
    var left := [0, 1, 2];
    LeftAllUsed(f);
    forall h | h in f
      ensures |h| == 2
    {
      FamilyMember(f, 2, 5, Range(10), h);
    }
    if forall h :: h in f ==> Overlap(h, left) != 1 {
      EvenCount(f, left);
    }
    g :| g in f && Overlap(g, left) == 1;
    StraddlerFound(f, g);
  }

  lemma {:induction false} StraddlerFound(f: seq<seq<int>>, g: seq<int>)
    requires Family(f, 2, 5, Range(10)) && AllIncreasing(f) && 3 in f[0] && 4 in f[0]
    requires g in f && Overlap(g, [0, 1, 2]) == 1
    ensures Straddles(g)
  {
    var j :| 0 <= j < |f| && f[j] == g;
    RangeFacts(10);
    assert GroupOf(f[0], 2, Range(10)) && GroupOf(g, 2, Range(10)) && g[0] in g && g[1] in g;
    assert f[0] == [f[0][0], f[0][1]] && g == [g[0], g[1]];
    PairCount(g[0], g[1], [0, 1, 2]);
    PairCount(f[0][0], f[0][1], [0, 1, 2]);
    if j > 0 {
      OtherGroup(f, 0, j, 3);
      OtherGroup(f, 0, j, 4);
    }
  }

  lemma {:induction false} PairCount(a: int, b: int, side: seq<int>)
    ensures Overlap([a, b], side) == (if a in side then 1 else 0) + if b in side then 1 else 0
  {
    assert [a, b][1..] == [b] && [b][1..] == [];
  }

  // ---- neighbours do better

  function Neighbours(k: nat): seq<seq<int>> {
    if k == 0 then [] else Neighbours(k - 1) + [[2 * k - 2, 2 * k - 1]]
  }

  lemma {:induction false} NeighboursScore(k: nat)
    ensures |Neighbours(k)| == k && PartitionScore(TenGPUs(), Neighbours(k)) == 7 * k
  {
    hide TenGPUs, GroupScore;
    if k > 0 {
      var g := [2 * k - 2, 2 * k - 1];
      NeighboursScore(k - 1);
      TenPairScore(g);
      PartitionScoreConcat(TenGPUs(), Neighbours(k - 1), [g]);
      assert PartitionScore(TenGPUs(), [g]) == 7 by {
        assert [g][1..] == [] && PartitionScore(TenGPUs(), []) == 0;
      }
    }
  }

  /** Pairs of GPUs below `m`. */
  predicate PairsBelow(f: seq<seq<int>>, m: int) {
    forall g :: g in f ==> |g| == 2 && Distinct(g) && forall x :: x in g ==> 0 <= x < m
  }

  lemma {:induction false} NeighboursApart(k: nat)
    ensures PairsBelow(Neighbours(k), 2 * k) && PairwiseDisjoint(Neighbours(k))
  {
    hide PairsBelow, PairwiseDisjoint;
    if k == 0 {
      NoneApart(0);
    } else {
      NeighboursApart(k - 1);
      PairApart(Neighbours(k - 1), 2 * k - 2);
    }
  }

  lemma {:induction false} NoneApart(m: int)
    ensures PairsBelow([], m) && PairwiseDisjoint([])
  {
  }

  lemma {:induction false} PairApart(before: seq<seq<int>>, m: nat)
    requires PairsBelow(before, m) && PairwiseDisjoint(before)
    ensures PairsBelow(before + [[m, m + 1]], m + 2) && PairwiseDisjoint(before + [[m, m + 1]])
  {
    assert forall i :: 0 <= i < |before| ==> before[i] in before;
  }

  lemma {:induction false} OneUnnamedNode(ids: seq<int>)
    ensures |Nodes(TenGPUs(), ids)| <= 1
  {
    if ids != [] {
      OneUnnamedNode(ids[..|ids| - 1]);
      LookupNowhere(TenGPUs().gpus, ids[|ids| - 1]);
      forall v | v in Nodes(TenGPUs(), ids)
        ensures v == None
      {
        var i :| i in ids && TenGPUs().NodeOf(i) == v;
        LookupNowhere(TenGPUs().gpus, i);
      }
      var before := Nodes(TenGPUs(), ids[..|ids| - 1]);
      if before != [] {
        assert before[0] in before && before[0] in Nodes(TenGPUs(), ids);
      }
    }
  }

  lemma {:induction false} PlanIsPool(snap: HardwareSnapshot, tp: nat, n: nat, gpuIds: seq<int>)
    requires tp >= 1 && Distinct(gpuIds) && |Nodes(snap, Sorted(gpuIds))| <= 1
    ensures Plan(snap, tp, n, gpuIds, false) == PlanPool(snap, tp, n, gpuIds)
  {
  }

  lemma {:induction false} TenPlan()
    ensures Distinct(Range(10)) && Plan(TenGPUs(), 2, 5, Range(10), false).Ok?
    ensures PartitionScore(TenGPUs(), Plan(TenGPUs(), 2, 5, Range(10), false).value)
         == PartitionScore(TenGPUs(), Greedy(TenGPUs(), 2, 5, Range(10)))
  {
    hide Plan, PlanPool, TenGPUs, Range, Nodes, Sorted, PartitionScore, Greedy;
    RangeFacts(10);
    SortedFixed(Range(10));
    OneUnnamedNode(Range(10));
    assert |Range(10)| == 10;
    PlanIsPool(TenGPUs(), 2, 5, Range(10));
    CanonicalGreedy(TenGPUs(), 2, 5, Range(10));
  }

  /**
   * Ten GPUs of one machine without topology, in pairs: the plan takes the middle two first and
   * strands an odd number on the left; pairing neighbours scores more.
   */
  lemma {:induction false} GreedyCanLose(s: HardwareSnapshot, ids: seq<int>, better: seq<seq<int>>)
    requires s == TenGPUs() && ids == Range(10) && better == Neighbours(5)
    ensures Family(better, 2, 5, ids) && Distinct(ids) && Plan(s, 2, 5, ids, false).Ok?
    ensures PartitionScore(s, Plan(s, 2, 5, ids, false).value) < PartitionScore(s, better)
  {
    hide Plan, PartitionScore, TenGPUs, Greedy, Neighbours;
    RangeFacts(10);
    TenPlan();
    TenGreedy();
    var r := Greedy(s, 2, 5, ids);
    GreedyGroups(s, 2, 5, ids);
    var g := SomeStraddle(r);
    forall h | h in r
      ensures |h| == 2
    {
      FamilyMember(r, 2, 5, ids, h);
    }
    StraddlingCosts(r);
    NeighboursScore(5);
    NeighboursApart(5);
    FamilyFromMembers(better, 2, ids);
  }

  // ------------------------------------------------------------------ ties

  /** The island of a GPU: 0..3, or 4..11. */
  function TwoIslands(): int -> int {
    x => if x < 4 then 0 else 1
  }

  function IslandLink(): (int, int) -> Relationship {
    (a, b) => if TwoIslands()(a) == TwoIslands()(b) then PIX else UNKNOWN
  }

  /** One machine of twelve GPUs: four on one switch, eight on another. */
  function TwelveGPUs(): HardwareSnapshot {
    Wired(seq(12, i => GPUDevice(i, None)), Range(12), IslandLink())
  }

  lemma {:induction false} TwelveTogether(a: int)
    ensures TwelveGPUs().NodeOf(a) == None
  {
    LookupNowhere(TwelveGPUs().gpus, a);
  }

  lemma {:induction false} TwelveIslands()
    ensures Islands(TwelveGPUs(), Range(12), TwoIslands(), 40, 1)
  {
    hide TwelveGPUs, TwoIslands, Range, PairScore;
    var s, ids := TwelveGPUs(), Range(12);
    forall a, b | a in ids && b in ids && a != b
      ensures PairScore(s, a, b) == if TwoIslands()(a) == TwoIslands()(b) then 40 else 1
    {
      TwelvePairScore(a, b);
    }
  }

  lemma {:induction false} TwelvePairScore(a: int, b: int)
    requires a in Range(12) && b in Range(12) && a != b
    ensures PairScore(TwelveGPUs(), a, b) == if TwoIslands()(a) == TwoIslands()(b) then 40 else 1
  {
    hide Range, PairScore, LookupNode;
    RangeFacts(12);
    TwelveTogether(a);
    TwelveTogether(b);
    WiredScore(TwelveGPUs().gpus, Range(12), IslandLink(), a, b);
  }

  lemma {:induction false} CountLast(s: seq<int>, x: int, island: int -> int, k: int)
    ensures CountIn(s + [x], island, k) == CountIn(s, island, k) + if island(x) == k then 1 else 0
  {
    if s == [] {
      assert s + [x] == [x] && [x][1..] == [];
    } else {
      assert (s + [x])[1..] == s[1..] + [x];
      CountLast(s[1..], x, island, k);
    }
  }

  /** How many of the first `n` GPUs sit on each island. */
  lemma {:induction false} IslandSizes(n: nat, k: int)
    ensures CountIn(Range(n), TwoIslands(), k)
         == if k == 0 then (if n < 4 then n else 4) else if k == 1 then (if n < 4 then 0 else n - 4) else 0
  {
    if n > 0 {
      assert Range(n) == Range(n - 1) + [n - 1];
      IslandSizes(n - 1, k);
      CountLast(Range(n - 1), n - 1, TwoIslands(), k);
    }
  }

  /** Each GPU's tie to others: 40 inside its island, 1 across. */
  lemma {:induction false} IslandAffinity(c: int, s: seq<int>)
    requires c in Range(12) && Within(s, Range(12)) && c !in s
    ensures Affinity(TwelveGPUs(), c, s) == |s| + 39 * CountIn(s, TwoIslands(), TwoIslands()(c))
  {
    hide TwelveGPUs, TwoIslands, Range, PairScore;
    if s != [] {
      var x := s[0];
      assert x in s;
      TwelvePairScore(c, x);
      IslandAffinity(c, s[1..]);
    }
  }

  lemma {:induction false} CountWithoutOne(s: seq<int>, x: int, island: int -> int, k: int)
    requires Distinct(s) && x in s
    ensures CountIn(Without(s, [x]), island, k) == CountIn(s, island, k) - if island(x) == k then 1 else 0
  {
    assert s == [s[0]] + s[1..] && s[0] !in s[1..];
    if s[0] == x {
      NothingGone(s[1..], [x]);
    } else {
      CountWithoutOne(s[1..], x, island, k);
    }
  }

  lemma {:induction false} TwelveConnectivity(c: int)
    requires 0 <= c < 12
    ensures Connectivity(TwelveGPUs(), c, Range(12)) == 11 + 39 * if c < 4 then 3 else 7
  {
    var ids, k := Range(12), TwoIslands()(c);
    RangeFacts(12);
    IslandSizes(12, k);
    hide TwelveGPUs, Range;
    assert |ids| == 12;
    WithoutOne(ids, c, []);
    IslandAffinity(c, Without(ids, [c]));
    CountWithoutOne(ids, c, TwoIslands(), k);
  }

  /** The greedy pass begins on the larger island. */
  lemma {:induction false} TwelveSeed()
    ensures Range(12) != [] && 4 <= Seed(TwelveGPUs(), Range(12)) < 12
  {
    RangeFacts(12);
    hide TwelveGPUs, Range, Connectivity;
    var s, ids := TwelveGPUs(), Range(12);
    assert 4 in ids;
    var seed := Seed(s, ids);
    assert seed in ids;
    TwelveConnectivity(4);
    TwelveConnectivity(seed);
    SeedIsBest(s, ids, 4);
  }

  lemma {:induction false} SeedIsBest(snap: HardwareSnapshot, ids: seq<int>, c: int)
    requires c in ids
    ensures Connectivity(snap, c, ids) <= Connectivity(snap, Seed(snap, ids), ids)
  {
    hide Connectivity;
  }

  lemma {:induction false} SeedInGroup(snap: HardwareSnapshot, tp: nat, ids: seq<int>)
    requires 1 <= tp <= |ids|
    ensures Seed(snap, ids) in Sorted(FirstGroup(snap, tp, ids).0)
  {
    hide Seed, Sorted;
    var seed := Seed(snap, ids);
    GrowKeeps(snap, tp, [seed], Remove(ids, seed));
    assert seed in [seed];
  }

  lemma {:induction false} TwelveWhole()
    ensures Distinct(Range(12)) && |Range(12)| == 12
    ensures Islands(TwelveGPUs(), Range(12), TwoIslands(), 40, 1) && WholeIslands(Range(12), TwoIslands(), 4)
  {
    hide Islands, Range, TwelveGPUs, TwoIslands, CountIn;
    RangeFacts(12);
    TwelveIslands();
    forall k
      ensures CountIn(Range(12), TwoIslands(), k) % 4 == 0
    {
      IslandSizes(12, k);
    }
  }

  /** So the one group it makes holds no GPU of the smaller island. */
  lemma {:induction false} TwelveGreedy()
    ensures |Range(12)| == 12
    ensures var r := Greedy(TwelveGPUs(), 4, 1, Range(12));
            |r| == 1 && forall x :: x in r[0] ==> x >= 4
  {
    hide TwelveGPUs, Range, Islands, WholeIslands, Seed, FirstGroup, Sorted, KeepsIslands, SameIsland, Greedy;
    hide TwoIslands;
    var s, ids := TwelveGPUs(), Range(12);
    TwelveWhole();
    TwelveSeed();
    RangeFacts(12);
    GreedyKeepsIslands(s, ids, TwoIslands(), 40, 1, 4, 1, ids);
    SeedInGroup(s, 4, ids);
    GreedyHead(s, 4, ids);
    HighIsland(Greedy(s, 4, 1, ids), Seed(s, ids));
  }

  lemma {:induction false} GreedyHead(snap: HardwareSnapshot, tp: nat, ids: seq<int>)
    requires 1 <= tp <= |ids|
    ensures Greedy(snap, tp, 1, ids)[0] == Sorted(FirstGroup(snap, tp, ids).0)
  {
    hide FirstGroup, Sorted;
  }

  /** A group within one island that has a member on the larger lies there altogether. */
  lemma {:induction false} HighIsland(f: seq<seq<int>>, x: int)
    requires |f| == 1 && KeepsIslands(f, TwoIslands()) && x in f[0] && x >= 4
    ensures forall y :: y in f[0] ==> y >= 4
  {
    assert SameIsland(f[0], TwoIslands());
  }

  lemma {:induction false} LowGroup()
    ensures GroupOf([0, 1, 2, 3], 4, Range(12)) && Increasing([0, 1, 2, 3]) && SameIsland([0, 1, 2, 3], TwoIslands())
  {
    RangeFacts(12);
  }

  lemma {:induction false} OneGroupFamily(f: seq<seq<int>>, tp: nat, ids: seq<int>)
    requires |f| == 1 && tp >= 1 && GroupOf(f[0], tp, ids) && Increasing(f[0])
    ensures Family(f, tp, 1, ids) && Canonical(f) && AllIncreasing(f)
  {
    assert f[0] != [];
  }

  /** The plan and the group of the smaller island are both best families. */
  lemma {:induction false} TwelveScores(f: seq<seq<int>>)
    requires Family(f, 4, 1, Range(12)) && Distinct(Range(12)) && |Range(12)| == 12
    ensures PartitionScore(TwelveGPUs(), f) <= PartitionScore(TwelveGPUs(), Greedy(TwelveGPUs(), 4, 1, Range(12)))
    ensures KeepsIslands(f, TwoIslands()) ==>
      PartitionScore(TwelveGPUs(), f) == PartitionScore(TwelveGPUs(), Greedy(TwelveGPUs(), 4, 1, Range(12)))
  {
    hide TwelveGPUs, Range, Islands, WholeIslands, PartitionScore, KeepsIslands, GroupOf, Greedy;
    var s, ids := TwelveGPUs(), Range(12);
    TwelveWhole();
    GreedyOptimalOnIslands(s, ids, TwoIslands(), 40, 1, 4, 1);
    if KeepsIslands(f, TwoIslands()) {
      FamilyExact(s, ids, TwoIslands(), 40, 1, 4, f);
      FamilyExact(s, ids, TwoIslands(), 40, 1, 4, Greedy(s, 4, 1, ids));
    }
  }

  /** A single greedy group is the plan as it stands. */
  lemma {:induction false} OneGroupPlanned(snap: HardwareSnapshot, tp: nat, ids: seq<int>)
    requires tp >= 2 && Increasing(ids) && Distinct(ids) && |ids| > EXHAUSTIVE_MAX_GPUS && tp <= |ids|
    ensures var r := Greedy(snap, tp, 1, ids);
            PlanPool(snap, tp, 1, ids) == Ok(r) && Family(r, tp, 1, ids) && AllIncreasing(r)
  {
    hide Greedy, CanonicalForm, Canonical, Exhaustive, Singles, Sorted, Family, AllIncreasing;
    SortedFixed(ids);
    var r := Greedy(snap, tp, 1, ids);
    GreedyNonEmpty(snap, tp, 1, ids);
    GreedyGroups(snap, tp, 1, ids);
    OneIsCanonical(r, tp, ids);
    CanonicalFormFixed(r);
  }

  lemma {:induction false} OneIsCanonical(f: seq<seq<int>>, tp: nat, ids: seq<int>)
    requires Family(f, tp, 1, ids) && AllIncreasing(f) && tp >= 1
    ensures Canonical(f)
  {
    assert f[0] in f && GroupOf(f[0], tp, ids);
    OneGroupFamily(f, tp, ids);
  }

  /**
   * Above eight GPUs the plan can be a best family and still not the least: with two islands it
   * takes its one group from the larger, though the smaller has lower indices and scores the same.
   */
  lemma {:induction false} GreedyTieGoesHigh(s: HardwareSnapshot, ids: seq<int>, low: seq<seq<int>>)
    requires s == TwelveGPUs() && ids == Range(12) && low == [[0, 1, 2, 3]]
    ensures Distinct(ids) && BestPool(s, 4, 1, ids) && Partition(low, 4, 1, ids)
    ensures var r := PlanPool(s, 4, 1, ids).value;
            PartitionScore(s, low) == PartitionScore(s, r) && ListLess(low, r) && !LeastPool(s, 4, 1, ids)
  {
    hide TwelveGPUs, Range, PartitionScore, Greedy, PlanPool, Family, Canonical, GroupOf;
    RangeFacts(12);
    TwelveGreedy();
    LowGroup();
    OneGroupFamily(low, 4, ids);
    OneGroupPlanned(s, 4, ids);
    var r := Greedy(s, 4, 1, ids);
    forall f | Family(f, 4, 1, ids)
      ensures PartitionScore(s, f) <= PartitionScore(s, r)
    {
      TwelveScores(f);
    }
    TwelveScores(low);
    LowIsLess(low, r, ids);
  }

  lemma {:induction false} LowIsLess(low: seq<seq<int>>, r: seq<seq<int>>, ids: seq<int>)
    requires low == [[0, 1, 2, 3]] && Family(r, 4, 1, ids) && forall x :: x in r[0] ==> x >= 4
    ensures ListLess(low, r) && !ListLess(r, low) && low != r
  {
    assert GroupOf(r[0], 4, ids) && r[0][0] in r[0];
  }
}
