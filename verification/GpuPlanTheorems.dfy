/** What `plan` promises its caller: when it succeeds, what it returns, and when that is optimal. */
module GpuPlanTheorems {
  import opened Wrappers
  import opened Sequences
  import opened Hardware
  import opened GpuScores
  import opened GpuSearch
  import opened GpuOptimality
  import opened GpuGreedy
  import opened GpuPlan

  /** All GPUs of the group sit on one machine. */
  predicate OneNode(snap: HardwareSnapshot, g: seq<int>) {
    g != [] && forall i :: i in g ==> snap.NodeOf(i) == snap.NodeOf(g[0])
  }

  /** No group spans machines, and every machine used is listed. */
  predicate Placed(snap: HardwareSnapshot, f: seq<seq<int>>, nodes: seq<NodeId>) {
    forall g :: g in f ==> OneNode(snap, g) && snap.NodeOf(g[0]) in nodes
  }

  // ------------------------------------------------------------------ one pool

  lemma {:induction false} SinglesFamily(snap: HardwareSnapshot, ids: seq<int>, n: nat)
    requires n <= |ids| && Increasing(ids)
    ensures Family(Singles(ids, n), 1, n, ids) && Canonical(Singles(ids, n))
  {
  }

  lemma {:induction false} SinglesScore(snap: HardwareSnapshot, f: seq<seq<int>>)
    requires forall i :: 0 <= i < |f| ==> |f[i]| == 1
    ensures PartitionScore(snap, f) == 0
  {
    if f != [] {
      SinglesScore(snap, f[1..]);
      var g := Sorted(f[0]);
      assert g[1..] == [];
      assert PairSum(snap, g) == 0;
    }
  }

  lemma {:induction false} NonNegativeFromLinks(snap: HardwareSnapshot, ids: seq<int>)
    requires snap.LinkCountsNonNegative()
    ensures NonNegativeScores(snap, ids)
  {
    forall a, b | a in ids && b in ids
      ensures PairScore(snap, a, b) >= 0
    {
      PairScoreNonNegative(snap, a, b);
    }
  }

  /** One pool succeeds exactly when it holds enough GPUs, and returns an ordered family. */
  lemma {:induction false} PoolSound(snap: HardwareSnapshot, tp: nat, n: nat, gpuIds: seq<int>)
    requires tp >= 1 && Distinct(gpuIds) && snap.LinkCountsNonNegative()
    ensures var r := PlanPool(snap, tp, n, gpuIds);
            && (r.Ok? <==> tp * n <= |gpuIds|)
            && (r.Ok? ==> Family(r.value, tp, n, gpuIds) && Canonical(r.value))
  {
    hide Sorted, Exhaustive, Greedy, CanonicalForm, Canonical, Family, Singles, Increasing;
    var ids := Sorted(gpuIds);
    SortedIncreasing(gpuIds);
    if tp * n <= |ids| {
      if tp == 1 {
        SinglesFamily(snap, ids, n);
        RenameIds(Singles(ids, n), tp, n, ids, gpuIds);
      } else if |ids| <= EXHAUSTIVE_MAX_GPUS {
        ExhaustiveSucceeds(snap, tp, n, ids);
        ExhaustiveIsOptimal(snap, tp, n, ids);
        CanonicalFormFixed(Exhaustive(snap, tp, n, ids).value);
        RenameIds(Exhaustive(snap, tp, n, ids).value, tp, n, ids, gpuIds);
      } else {
        GreedyFamily(snap, tp, n, ids);
        GreedyNonEmpty(snap, tp, n, ids);
        CanonicalFormFamily(Greedy(snap, tp, n, ids), tp, n, ids);
        RenameIds(CanonicalForm(Greedy(snap, tp, n, ids)), tp, n, ids, gpuIds);
      }
    }
  }

  lemma {:induction false} ExhaustiveSucceeds(snap: HardwareSnapshot, tp: nat, n: nat, ids: seq<int>)
    requires tp >= 1 && Increasing(ids) && tp * n <= |ids| && snap.LinkCountsNonNegative()
    ensures Exhaustive(snap, tp, n, ids).Some?
  {
    var f := PartitionExists(tp, n, ids);
    NonNegativeFromLinks(snap, ids);
    PartitionScoreNonNegative(snap, f, tp, ids);
    ExhaustiveFails(snap, tp, n, ids);
  }

  lemma {:induction false} RenameIds(f: seq<seq<int>>, tp: nat, n: nat, ids: seq<int>, more: seq<int>)
    requires Family(f, tp, n, ids) && Within(ids, more)
    ensures Family(f, tp, n, more)
  {
    forall i | 0 <= i < |f|
      ensures GroupOf(f[i], tp, more)
    {
      assert GroupOf(f[i], tp, ids);
    }
  }

  /** With at most eight GPUs (or groups of one) a pool's answer is a best family. */
  lemma {:induction false} PoolOptimal(snap: HardwareSnapshot, tp: nat, n: nat, gpuIds: seq<int>, f: seq<seq<int>>)
    requires tp >= 1 && Distinct(gpuIds) && PlanPool(snap, tp, n, gpuIds).Ok?
    requires tp == 1 || |gpuIds| <= EXHAUSTIVE_MAX_GPUS
    requires Family(f, tp, n, gpuIds)
    ensures PartitionScore(snap, f) <= PartitionScore(snap, PlanPool(snap, tp, n, gpuIds).value)
  {
    var ids := Sorted(gpuIds);
    SortedIncreasing(gpuIds);
    if tp == 1 {
      assert forall i :: 0 <= i < |f| ==> GroupOf(f[i], tp, gpuIds);
      SinglesScore(snap, f);
      SinglesScore(snap, Singles(ids, n));
    } else {
      ExhaustiveIsOptimal(snap, tp, n, ids);
      CanonicalFormFixed(Exhaustive(snap, tp, n, ids).value);
      RenameIds(f, tp, n, gpuIds, ids);
    }
  }

  /** Among equally good ordered partitions, a small pool's answer is the lexicographically least. */
  lemma {:induction false} PoolTieBreak(snap: HardwareSnapshot, tp: nat, n: nat, gpuIds: seq<int>, f: seq<seq<int>>)
    requires tp >= 2 && Distinct(gpuIds) && PlanPool(snap, tp, n, gpuIds).Ok?
    requires |gpuIds| <= EXHAUSTIVE_MAX_GPUS
    requires Partition(f, tp, n, gpuIds)
    requires PartitionScore(snap, f) == PartitionScore(snap, PlanPool(snap, tp, n, gpuIds).value)
    ensures var r := PlanPool(snap, tp, n, gpuIds).value; f == r || ListLess(r, f)
  {
    var ids := Sorted(gpuIds);
    SortedIncreasing(gpuIds);
    ExhaustiveIsOptimal(snap, tp, n, ids);
    CanonicalFormFixed(Exhaustive(snap, tp, n, ids).value);
    RenameIds(f, tp, n, gpuIds, ids);
    ExhaustiveBreaksTiesLow(snap, tp, n, ids, f);
  }

  lemma {:induction false} CanonicalFormKeepsIslands(f: seq<seq<int>>, island: int -> int)
    requires NonEmptyGroups(f) && KeepsIslands(f, island)
    ensures KeepsIslands(CanonicalForm(f), island)
  {
    var sorted, r := SortGroups(f), CanonicalForm(f);
    forall i | 0 <= i < |r|
      ensures SameIsland(r[i], island)
    {
      assert r[i] in r;
      var j :| 0 <= j < |sorted| && sorted[j] == r[i];
      assert SameIsland(f[j], island);
    }
  }

  /**
   * On a machine too large to search whose islands split into whole groups, the plan still is a
   * best family, and no group crosses an island.
   */
  lemma {:induction false} LargePoolOptimalOnIslands(
    snap: HardwareSnapshot, tp: nat, n: nat, gpuIds: seq<int>, island: int -> int, s: int, t: int, f: seq<seq<int>>)
    requires tp >= 2 && Distinct(gpuIds) && |gpuIds| > EXHAUSTIVE_MAX_GPUS && tp * n <= |gpuIds|
    requires Islands(snap, gpuIds, island, s, t) && WholeIslands(Sorted(gpuIds), island, tp)
    requires Family(f, tp, n, gpuIds)
    ensures var r := PlanPool(snap, tp, n, gpuIds);
            && r.Ok?
            && PartitionScore(snap, f) <= PartitionScore(snap, r.value)
            && KeepsIslands(r.value, island)
  {
    var ids := Sorted(gpuIds);
    SortedIncreasing(gpuIds);
    assert Islands(snap, ids, island, s, t);
    GreedyOptimalOnIslands(snap, ids, island, s, t, tp, n);
    RenameIds(f, tp, n, gpuIds, ids);
    var r := Greedy(snap, tp, n, ids);
    FamilyNonEmpty(r, tp, n, ids);
    CanonicalFormScore(snap, r);
    CanonicalFormKeepsIslands(r, island);
  }

  /** No family of as many groups from this pool scores more than the plan. */
  ghost predicate BestPool(snap: HardwareSnapshot, tp: nat, n: nat, ids: seq<int>)
    requires tp >= 1 && Distinct(ids)
  {
    var r := PlanPool(snap, tp, n, ids);
    r.Ok? && forall f :: Family(f, tp, n, ids) ==> PartitionScore(snap, f) <= PartitionScore(snap, r.value)
  }

  /** Pools whose size alone makes the plan optimal: groups of one, few GPUs, or no more than one group takes. */
  predicate Searchable(tp: nat, size: nat) {
    tp == 1 || size <= EXHAUSTIVE_MAX_GPUS || size <= tp
  }

  ghost predicate IslandPool(snap: HardwareSnapshot, tp: nat, ids: seq<int>)
    requires tp >= 1
  {
    exists island: int -> int, s: int, t: int :: Islands(snap, ids, island, s, t) && WholeIslands(Sorted(ids), island, tp)
  }

  ghost predicate GoodPool(snap: HardwareSnapshot, tp: nat, ids: seq<int>)
    requires tp >= 1
  {
    Searchable(tp, |ids|) || IslandPool(snap, tp, ids)
  }

  lemma {:induction false} TailWithin(x: int, a: seq<int>, b: seq<int>)
    requires Within([x] + a, [x] + b) && forall y :: y in a ==> x < y
    ensures Within(a, b)
  {
    forall y | y in a
      ensures y in b
    {
      assert y in [x] + a;
      assert y in [x] + b;
    }
  }

  lemma {:induction false} IncreasingSame(a: seq<int>, b: seq<int>)
    requires Increasing(a) && Increasing(b) && Within(a, b) && Within(b, a)
    ensures a == b
  {
    assert a == [] <==> b == [] by {
      assert forall x :: x in a ==> x in b;
      if a != [] { assert a[0] in a; }
      if b != [] { assert b[0] in b; }
    }
    if a != [] {
      var x, y := a[0], b[0];
      assert x in a && y in b;
      assert x in b && y in a;
      assert a == [x] + a[1..] && b == [y] + b[1..];
      IncreasingTail(x, a[1..]);
      IncreasingTail(y, b[1..]);
      assert x == y;
      TailWithin(x, a[1..], b[1..]);
      TailWithin(x, b[1..], a[1..]);
      IncreasingSame(a[1..], b[1..]);
    }
  }

  /** A group as large as the pool is the pool. */
  lemma {:induction false} WholeGroup(g: seq<int>, ids: seq<int>)
    requires GroupOf(g, |ids|, ids) && Distinct(ids)
    ensures Sorted(g) == Sorted(ids)
  {
    SortedIncreasing(g);
    SortedIncreasing(ids);
    WithoutLength(Sorted(ids), Sorted(g));
    forall x | x in Sorted(ids)
      ensures x in Sorted(g)
    {
      assert x !in Without(Sorted(ids), Sorted(g));
    }
    IncreasingSame(Sorted(g), Sorted(ids));
  }

  /** At most one group, of the whole pool: every family scores the same. */
  lemma {:induction false} WholePoolBest(snap: HardwareSnapshot, tp: nat, n: nat, ids: seq<int>)
    requires tp >= 2 && Distinct(ids) && snap.LinkCountsNonNegative()
    requires |ids| <= tp && tp * n <= |ids|
    ensures BestPool(snap, tp, n, ids)
  {
    PoolSound(snap, tp, n, ids);
    var r := PlanPool(snap, tp, n, ids).value;
    OneGroup(tp, n, |ids|);
    forall f | Family(f, tp, n, ids)
      ensures PartitionScore(snap, f) <= PartitionScore(snap, r)
    {
      if n == 1 {
        WholeGroup(f[0], ids);
        WholeGroup(r[0], ids);
        assert f[1..] == [] && r[1..] == [];
      }
    }
  }

  lemma {:induction false} OneGroup(tp: nat, n: nat, size: nat)
    requires tp >= 1 && size <= tp && tp * n <= size
    ensures n == 0 || (n == 1 && tp == size)
  {
    MultipleApart(n - 1, tp);
    assert tp * n == (n - 1) * tp + tp;
  }

  lemma {:induction false} GoodPoolBest(snap: HardwareSnapshot, tp: nat, n: nat, ids: seq<int>)
    requires tp >= 1 && Distinct(ids) && snap.LinkCountsNonNegative()
    requires GoodPool(snap, tp, ids) && tp * n <= |ids|
    ensures BestPool(snap, tp, n, ids)
  {
    hide PlanPool, Islands, WholeIslands, Family, PartitionScore;
    PoolSound(snap, tp, n, ids);
    forall f | Family(f, tp, n, ids)
      ensures PartitionScore(snap, f) <= PartitionScore(snap, PlanPool(snap, tp, n, ids).value)
    {
      if tp == 1 || |ids| <= EXHAUSTIVE_MAX_GPUS {
        PoolOptimal(snap, tp, n, ids, f);
      } else if |ids| <= tp {
        WholePoolBest(snap, tp, n, ids);
      } else {
        var island: int -> int, s: int, t: int :| Islands(snap, ids, island, s, t) && WholeIslands(Sorted(ids), island, tp);
        LargePoolOptimalOnIslands(snap, tp, n, ids, island, s, t, f);
      }
    }
  }

  // ------------------------------------------------------------------ ties

  /** Among the best families, in order, this pool's plan is the lexicographically least. */
  ghost predicate LeastPool(snap: HardwareSnapshot, tp: nat, n: nat, ids: seq<int>)
    requires tp >= 1 && Distinct(ids)
  {
    var r := PlanPool(snap, tp, n, ids);
    && r.Ok?
    && forall f :: Partition(f, tp, n, ids) && PartitionScore(snap, f) == PartitionScore(snap, r.value) ==>
         f == r.value || ListLess(r.value, f)
  }

  lemma {:induction false} SinglesLeast(ids: seq<int>, n: nat, f: seq<seq<int>>)
    requires Increasing(ids) && n <= |ids| && Partition(f, 1, n, ids)
    ensures f == Singles(ids, n) || ListLess(Singles(ids, n), f)
  {
    if n > 0 {
      var g, rest := f[0], ids[1..];
      assert GroupOf(g, 1, ids) && g == [g[0]] && g[0] in g;
      assert ids == [ids[0]] + rest;
      IncreasingTail(ids[0], rest);
      assert Singles(ids, n)[0] == [ids[0]];
      if g[0] == ids[0] {
        TailOfSingles(f, n, ids);
        assert Singles(ids, n)[1..] == Singles(rest, n - 1);
        SinglesLeast(rest, n - 1, f[1..]);
        assert f == [g] + f[1..];
      } else {
        assert SeqLess([ids[0]], g);
      }
    }
  }

  lemma {:induction false} FirstApart(f: seq<seq<int>>)
    requires PairwiseDisjoint(f) && f != []
    ensures PairwiseDisjoint(f[1..]) && forall g :: g in f[1..] ==> Disjoint(f[0], g)
  {
    var rest := f[1..];
    assert forall k :: 0 <= k < |rest| ==> rest[k] == f[k + 1];
  }

  lemma {:induction false} TailOfSingles(f: seq<seq<int>>, n: nat, ids: seq<int>)
    requires n >= 1 && Partition(f, 1, n, ids) && ids != [] && f[0] == [ids[0]]
    ensures Partition(f[1..], 1, n - 1, ids[1..])
  {
    var rest := f[1..];
    FirstApart(f);
    forall i | 0 <= i < |rest|
      ensures GroupOf(rest[i], 1, ids[1..])
    {
      assert rest[i] == f[i + 1] && GroupOf(f[i + 1], 1, ids) && f[0][0] < f[i + 1][0];
    }
  }

  /** Of a pool that is one group there is only one ordered family. */
  lemma {:induction false} OnlyFamily(f: seq<seq<int>>, g: seq<seq<int>>, tp: nat, n: nat, ids: seq<int>)
    requires tp >= 1 && |ids| <= tp && Distinct(ids) && Partition(f, tp, n, ids) && Partition(g, tp, n, ids)
    ensures f == g
  {
    FamilySize(f, tp, n, ids);
    OneGroup(tp, n, |ids|);
    if n == 1 {
      WholeGroup(f[0], ids);
      WholeGroup(g[0], ids);
      SortedFixed(f[0]);
      SortedFixed(g[0]);
    }
  }

  /** Pools that are searched, and those whose families leave no choice, break ties as documented. */
  lemma {:induction false} SearchedPoolLeast(snap: HardwareSnapshot, tp: nat, n: nat, ids: seq<int>)
    requires tp >= 1 && Increasing(ids) && Distinct(ids) && snap.LinkCountsNonNegative()
    requires Searchable(tp, |ids|) && tp * n <= |ids|
    ensures LeastPool(snap, tp, n, ids)
  {
    hide Partition, PartitionScore, ListLess;
    PoolSound(snap, tp, n, ids);
    var r := PlanPool(snap, tp, n, ids).value;
    forall f | Partition(f, tp, n, ids) && PartitionScore(snap, f) == PartitionScore(snap, r)
      ensures f == r || ListLess(r, f)
    {
      if tp == 1 {
        SortedFixed(ids);
        SinglesLeast(ids, n, f);
      } else if |ids| <= EXHAUSTIVE_MAX_GPUS {
        PoolTieBreak(snap, tp, n, ids, f);
      } else {
        assert Partition(r, tp, n, ids) by { IsPartition(r, tp, n, ids); }
        OnlyFamily(f, r, tp, n, ids);
      }
    }
  }

  lemma {:induction false} IsPartition(f: seq<seq<int>>, tp: nat, n: nat, ids: seq<int>)
    requires Family(f, tp, n, ids) && Canonical(f)
    ensures Partition(f, tp, n, ids)
  {
  }

  // ------------------------------------------------------------------ machine by machine

  lemma {:induction false} AppendFamilies(f: seq<seq<int>>, g: seq<seq<int>>, tp: nat, ids: seq<int>)
    requires Family(f, tp, |f|, ids) && Family(g, tp, |g|, ids)
    requires forall a, b :: a in f && b in g ==> Disjoint(a, b)
    ensures Family(f + g, tp, |f| + |g|, ids)
  {
    var h := f + g;
    forall i, j | 0 <= i < j < |h|
      ensures Disjoint(h[i], h[j])
    {
      if j < |f| {
        assert Disjoint(f[i], f[j]);
      } else if i >= |f| {
        assert Disjoint(g[i - |f|], g[j - |f|]);
      } else {
        assert f[i] in f && g[j - |f|] in g;
      }
    }
  }

  /** A pool of one machine's GPUs yields groups on that machine. */
  lemma {:induction false} PoolPlaced(
    snap: HardwareSnapshot, tp: nat, n: nat, ids: seq<int>, v: NodeId, nodes: seq<NodeId>)
    requires tp >= 1 && Distinct(ids) && snap.LinkCountsNonNegative() && v in nodes
    requires tp * n <= |OnNode(snap, ids, v)|
    ensures Distinct(OnNode(snap, ids, v))
    ensures var r := PlanPool(snap, tp, n, OnNode(snap, ids, v));
            && r.Ok?
            && Family(r.value, tp, n, ids)
            && Canonical(r.value)
            && Placed(snap, r.value, nodes)
            && forall g :: g in r.value ==> snap.NodeOf(g[0]) == v
  {
    var mine := OnNode(snap, ids, v);
    OnNodeDistinct(snap, ids, v);
    PoolSound(snap, tp, n, mine);
    var here := PlanPool(snap, tp, n, mine).value;
    RenameIds(here, tp, n, mine, ids);
    forall g | g in here
      ensures OneNode(snap, g) && snap.NodeOf(g[0]) == v
    {
      var i :| 0 <= i < |here| && here[i] == g;
      assert GroupOf(here[i], tp, mine) && g[0] in g;
    }
  }

  predicate AllIncreasing(f: seq<seq<int>>) {
    forall g :: g in f ==> Increasing(g)
  }

  /** The groups filled in sit on the listed machines, one machine each, as many as fit. */
  lemma {:induction false} FillSound(snap: HardwareSnapshot, tp: nat, ids: seq<int>, nodes: seq<NodeId>)
    requires tp >= 1 && Distinct(ids) && Distinct(nodes) && snap.LinkCountsNonNegative()
    ensures var r := FillNodes(snap, tp, ids, nodes);
            && r.Ok?
            && Family(r.value, tp, Capacity(snap, tp, ids, nodes), ids)
            && AllIncreasing(r.value)
            && Placed(snap, r.value, nodes)
    decreases |nodes|
  {
    if nodes != [] {
      var v, later := nodes[0], nodes[1..];
      var per := Share(snap, tp, ids, v);
      FillSound(snap, tp, ids, later);
      var rest := FillNodes(snap, tp, ids, later).value;
      if per == 0 {
        assert FillNodes(snap, tp, ids, nodes) == Ok(rest);
        assert forall w :: w in later ==> w in nodes;
      } else {
        PoolPlaced(snap, tp, per, ids, v, nodes);
        var here := PlanPool(snap, tp, per, OnNode(snap, ids, v)).value;
        assert FillNodes(snap, tp, ids, nodes) == Ok(here + rest);
        JoinPlaced(snap, tp, ids, nodes, here, rest);
      }
    }
  }

  lemma {:induction false} JoinPlaced(
    snap: HardwareSnapshot, tp: nat, ids: seq<int>, nodes: seq<NodeId>, here: seq<seq<int>>, rest: seq<seq<int>>)
    requires nodes != [] && Distinct(nodes)
    requires Family(here, tp, |here|, ids) && Canonical(here) && Placed(snap, here, nodes)
    requires forall g :: g in here ==> snap.NodeOf(g[0]) == nodes[0]
    requires Family(rest, tp, |rest|, ids) && AllIncreasing(rest) && Placed(snap, rest, nodes[1..])
    ensures Family(here + rest, tp, |here| + |rest|, ids)
    ensures AllIncreasing(here + rest) && Placed(snap, here + rest, nodes)
  {
    forall a, b | a in here && b in rest
      ensures Disjoint(a, b)
    {
      assert snap.NodeOf(a[0]) != snap.NodeOf(b[0]);
    }
    AppendFamilies(here, rest, tp, ids);
  }

  lemma {:induction false} DivisionBound(n: nat, x: nat, tp: nat)
    requires tp >= 1 && tp * n <= x
    ensures n <= x / tp
  {
    var d := n - x / tp;
    assert d * tp <= x % tp;
    MultipleApart(d, tp);
  }

  // ------------------------------------------------------------------ node order is irrelevant to capacity

  lemma {:induction false} InsertNodeCapacity(
    snap: HardwareSnapshot, tp: nat, ids: seq<int>, v: NodeId, nodes: seq<NodeId>)
    requires tp >= 1
    ensures Capacity(snap, tp, ids, InsertNode(v, nodes)) == Share(snap, tp, ids, v) + Capacity(snap, tp, ids, nodes)
  {
    if nodes != [] && NodeLess(nodes[0], v) {
      InsertNodeCapacity(snap, tp, ids, v, nodes[1..]);
    }
  }

  lemma {:induction false} SortNodesCapacity(snap: HardwareSnapshot, tp: nat, ids: seq<int>, nodes: seq<NodeId>)
    requires tp >= 1
    ensures Capacity(snap, tp, ids, SortNodes(nodes)) == Capacity(snap, tp, ids, nodes)
  {
    if nodes != [] {
      SortNodesCapacity(snap, tp, ids, nodes[1..]);
      InsertNodeCapacity(snap, tp, ids, nodes[0], SortNodes(nodes[1..]));
    }
  }

  lemma {:induction false} InsertNodeDistinct(v: NodeId, nodes: seq<NodeId>)
    requires Distinct(nodes) && v !in nodes
    ensures Distinct(InsertNode(v, nodes))
  {
    if nodes != [] && NodeLess(nodes[0], v) {
      InsertNodeDistinct(v, nodes[1..]);
      var tail := InsertNode(v, nodes[1..]);
      forall k | 0 <= k < |tail|
        ensures nodes[0] != tail[k]
      {
        assert tail[k] in tail;
      }
    }
  }

  lemma {:induction false} SortNodesDistinct(nodes: seq<NodeId>)
    requires Distinct(nodes)
    ensures Distinct(SortNodes(nodes))
  {
    if nodes != [] {
      SortNodesDistinct(nodes[1..]);
      InsertNodeDistinct(nodes[0], SortNodes(nodes[1..]));
    }
  }

  lemma {:induction false} NodesDistinct(snap: HardwareSnapshot, ids: seq<int>)
    ensures Distinct(Nodes(snap, ids))
  {
    if ids != [] {
      NodesDistinct(snap, ids[..|ids| - 1]);
    }
  }

  // ------------------------------------------------------------------ splitting a family by machine

  function At(snap: HardwareSnapshot, f: seq<seq<int>>, v: NodeId): (r: seq<seq<int>>)
    requires NonEmptyGroups(f)
    ensures NonEmptyGroups(r)
    ensures forall g :: g in r <==> g in f && snap.NodeOf(g[0]) == v
  {
    if f == [] then []
    else if snap.NodeOf(f[0][0]) == v then [f[0]] + At(snap, f[1..], v)
    else At(snap, f[1..], v)
  }

  function Off(snap: HardwareSnapshot, f: seq<seq<int>>, v: NodeId): (r: seq<seq<int>>)
    requires NonEmptyGroups(f)
    ensures NonEmptyGroups(r)
    ensures forall g :: g in r <==> g in f && snap.NodeOf(g[0]) != v
  {
    if f == [] then []
    else if snap.NodeOf(f[0][0]) == v then Off(snap, f[1..], v)
    else [f[0]] + Off(snap, f[1..], v)
  }

  lemma {:induction false} SplitScore(snap: HardwareSnapshot, f: seq<seq<int>>, v: NodeId)
    requires NonEmptyGroups(f)
    ensures PartitionScore(snap, f) == PartitionScore(snap, At(snap, f, v)) + PartitionScore(snap, Off(snap, f, v))
    ensures |f| == |At(snap, f, v)| + |Off(snap, f, v)|
  {
    if f != [] {
      SplitScore(snap, f[1..], v);
    }
  }

  lemma {:induction false} ConsApart(g: seq<int>, f: seq<seq<int>>)
    requires PairwiseDisjoint(f) && forall h :: h in f ==> Disjoint(g, h)
    ensures PairwiseDisjoint([g] + f)
  {
    assert forall k :: 0 <= k < |f| ==> f[k] in f;
  }

  lemma {:induction false} SplitDisjoint(snap: HardwareSnapshot, f: seq<seq<int>>, v: NodeId)
    requires NonEmptyGroups(f) && PairwiseDisjoint(f)
    ensures PairwiseDisjoint(At(snap, f, v)) && PairwiseDisjoint(Off(snap, f, v))
  {
    if f != [] {
      FirstApart(f);
      hide PairwiseDisjoint, Disjoint;
      SplitDisjoint(snap, f[1..], v);
      if snap.NodeOf(f[0][0]) == v {
        ConsApart(f[0], At(snap, f[1..], v));
      } else {
        ConsApart(f[0], Off(snap, f[1..], v));
      }
    }
  }

  lemma {:induction false} FamilyFromMembers(f: seq<seq<int>>, tp: nat, ids: seq<int>)
    requires PairwiseDisjoint(f) && forall g :: g in f ==> GroupOf(g, tp, ids)
    ensures Family(f, tp, |f|, ids)
  {
  }

  lemma {:induction false} FamilyMember(f: seq<seq<int>>, tp: nat, n: nat, ids: seq<int>, g: seq<int>)
    requires Family(f, tp, n, ids) && g in f
    ensures GroupOf(g, tp, ids)
  {
    var i :| 0 <= i < |f| && f[i] == g;
  }

  /** The groups on one machine form a family over that machine's GPUs. */
  lemma {:induction false} AtFamily(
    snap: HardwareSnapshot, f: seq<seq<int>>, tp: nat, ids: seq<int>, nodes: seq<NodeId>, v: NodeId)
    requires tp >= 1 && Family(f, tp, |f|, ids) && NonEmptyGroups(f) && Placed(snap, f, nodes)
    ensures Family(At(snap, f, v), tp, |At(snap, f, v)|, OnNode(snap, ids, v))
  {
    SplitDisjoint(snap, f, v);
    forall g | g in At(snap, f, v)
      ensures GroupOf(g, tp, OnNode(snap, ids, v))
    {
      FamilyMember(f, tp, |f|, ids, g);
    }
    FamilyFromMembers(At(snap, f, v), tp, OnNode(snap, ids, v));
  }

  lemma {:induction false} OffFamily(
    snap: HardwareSnapshot, f: seq<seq<int>>, tp: nat, ids: seq<int>, nodes: seq<NodeId>)
    requires tp >= 1 && Family(f, tp, |f|, ids) && NonEmptyGroups(f) && Placed(snap, f, nodes) && nodes != []
    ensures var off := Off(snap, f, nodes[0]);
            Family(off, tp, |off|, ids) && NonEmptyGroups(off) && Placed(snap, off, nodes[1..])
  {
    var off := Off(snap, f, nodes[0]);
    SplitDisjoint(snap, f, nodes[0]);
    forall g | g in off
      ensures GroupOf(g, tp, ids) && g != []
    {
      FamilyMember(f, tp, |f|, ids, g);
    }
    FamilyFromMembers(off, tp, ids);
    assert forall k :: 0 <= k < |off| ==> off[k] in off;
  }

  lemma {:induction false} AtBound(
    snap: HardwareSnapshot, f: seq<seq<int>>, tp: nat, ids: seq<int>, nodes: seq<NodeId>, v: NodeId)
    requires tp >= 1 && Distinct(ids) && Family(f, tp, |f|, ids) && NonEmptyGroups(f) && Placed(snap, f, nodes)
    ensures |At(snap, f, v)| <= Share(snap, tp, ids, v)
  {
    AtFamily(snap, f, tp, ids, nodes, v);
    OnNodeDistinct(snap, ids, v);
    FamilySize(At(snap, f, v), tp, |At(snap, f, v)|, OnNode(snap, ids, v));
    DivisionBound(|At(snap, f, v)|, |OnNode(snap, ids, v)|, tp);
  }

  /** No family that respects machines has more groups than the machines' shares add up to. */
  lemma {:induction false} PlacedBound(
    snap: HardwareSnapshot, f: seq<seq<int>>, tp: nat, ids: seq<int>, nodes: seq<NodeId>)
    requires tp >= 1 && Distinct(ids) && Family(f, tp, |f|, ids) && NonEmptyGroups(f) && Placed(snap, f, nodes)
    ensures |f| <= Capacity(snap, tp, ids, nodes)
    decreases |nodes|
  {
    if f != [] {
      assert f[0] in f;
    }
    if nodes != [] {
      OffFamily(snap, f, tp, ids, nodes);
      AtBound(snap, f, tp, ids, nodes, nodes[0]);
      SplitScore(snap, f, nodes[0]);
      PlacedBound(snap, Off(snap, f, nodes[0]), tp, ids, nodes[1..]);
    }
  }

  /** On every machine the plan of its pool is optimal. */
  ghost predicate GoodNodes(snap: HardwareSnapshot, tp: nat, ids: seq<int>, nodes: seq<NodeId>)
    requires tp >= 1
  {
    forall v :: v in nodes ==> GoodPool(snap, tp, OnNode(snap, ids, v))
  }

  /** With every machine full, optimal machine by machine is optimal over all of them. */
  lemma {:induction false} FillOptimal(
    snap: HardwareSnapshot, f: seq<seq<int>>, tp: nat, ids: seq<int>, nodes: seq<NodeId>)
    requires tp >= 1 && Distinct(ids) && Distinct(nodes) && snap.LinkCountsNonNegative()
    requires Family(f, tp, |f|, ids) && NonEmptyGroups(f) && Placed(snap, f, nodes)
    requires |f| == Capacity(snap, tp, ids, nodes) && GoodNodes(snap, tp, ids, nodes)
    ensures FillNodes(snap, tp, ids, nodes).Ok?
    ensures PartitionScore(snap, f) <= PartitionScore(snap, FillNodes(snap, tp, ids, nodes).value)
    decreases |nodes|
  {
    hide OnNode, PlanPool, Family, FillNodes, Share, PartitionScore, At, Off;
    FillSound(snap, tp, ids, nodes);
    if nodes != [] {
      var v, later := nodes[0], nodes[1..];
      var at, off := At(snap, f, v), Off(snap, f, v);
      OffFamily(snap, f, tp, ids, nodes);
      AtBound(snap, f, tp, ids, nodes, v);
      SplitScore(snap, f, v);
      PlacedBound(snap, off, tp, ids, later);
      assert |at| == Share(snap, tp, ids, v) && |off| == Capacity(snap, tp, ids, later);
      FillOptimal(snap, off, tp, ids, later);
      FillStep(snap, f, tp, ids, nodes);
    }
  }

  lemma {:induction false} FillStep(
    snap: HardwareSnapshot, f: seq<seq<int>>, tp: nat, ids: seq<int>, nodes: seq<NodeId>)
    requires tp >= 1 && Distinct(ids) && nodes != [] && snap.LinkCountsNonNegative()
    requires Family(f, tp, |f|, ids) && NonEmptyGroups(f) && Placed(snap, f, nodes)
    requires GoodNodes(snap, tp, ids, nodes)
    requires |At(snap, f, nodes[0])| == Share(snap, tp, ids, nodes[0])
    requires FillNodes(snap, tp, ids, nodes).Ok? && FillNodes(snap, tp, ids, nodes[1..]).Ok?
    ensures PartitionScore(snap, At(snap, f, nodes[0])) + PartitionScore(snap, FillNodes(snap, tp, ids, nodes[1..]).value)
         <= PartitionScore(snap, FillNodes(snap, tp, ids, nodes).value)
  {
    var v := nodes[0];
    var at, per := At(snap, f, v), Share(snap, tp, ids, v);
    var rest := FillNodes(snap, tp, ids, nodes[1..]).value;
    if per == 0 {
      assert FillNodes(snap, tp, ids, nodes) == Ok(rest);
    } else {
      AtFamily(snap, f, tp, ids, nodes, v);
      PoolPlaced(snap, tp, per, ids, v, nodes);
      GoodPoolBest(snap, tp, per, OnNode(snap, ids, v));
      var here := PlanPool(snap, tp, per, OnNode(snap, ids, v)).value;
      assert FillNodes(snap, tp, ids, nodes) == Ok(here + rest);
      PartitionScoreConcat(snap, here, rest);
    }
  }

  // ------------------------------------------------------------------ main theorems

  lemma {:induction false} PrefixFamily(f: seq<seq<int>>, tp: nat, m: nat, n: nat, ids: seq<int>)
    requires Family(f, tp, m, ids) && n <= m
    ensures Family(f[..n], tp, n, ids)
  {
    forall i, j | 0 <= i < j < n
      ensures Disjoint(f[..n][i], f[..n][j])
    {
      assert Disjoint(f[i], f[j]);
    }
  }

  lemma {:induction false} SameNode(snap: HardwareSnapshot, ids: seq<int>, i: int, j: int)
    requires |Nodes(snap, ids)| <= 1 && i in ids && j in ids
    ensures snap.NodeOf(i) == snap.NodeOf(j)
  {
    assert snap.NodeOf(i) in Nodes(snap, ids) && snap.NodeOf(j) in Nodes(snap, ids);
  }

  lemma {:induction false} FamilyNonEmpty(f: seq<seq<int>>, tp: nat, n: nat, ids: seq<int>)
    requires tp >= 1 && Family(f, tp, n, ids)
    ensures NonEmptyGroups(f)
  {
    forall i | 0 <= i < |f|
      ensures f[i] != []
    {
      assert GroupOf(f[i], tp, ids);
    }
  }

  /** Groups of one, and groups drawn from one machine, never span machines. */
  lemma {:induction false} TriviallyPlaced(snap: HardwareSnapshot, f: seq<seq<int>>, tp: nat, n: nat, ids: seq<int>)
    requires tp >= 1 && Family(f, tp, n, ids)
    requires tp == 1 || |Nodes(snap, ids)| <= 1
    ensures Placed(snap, f, Nodes(snap, ids))
  {
    forall g | g in f
      ensures OneNode(snap, g) && snap.NodeOf(g[0]) in Nodes(snap, ids)
    {
      FamilyMember(f, tp, n, ids, g);
      assert g[0] in g;
      forall i | i in g
        ensures snap.NodeOf(i) == snap.NodeOf(g[0])
      {
        if tp != 1 {
          SameNode(snap, ids, i, g[0]);
        }
      }
    }
  }

  /** Within machines, `MaxReplicas` groups fit and no more: one pool of one machine included. */
  lemma {:induction false} MaxReplicasExact(snap: HardwareSnapshot, tp: nat, n: nat, ids: seq<int>)
    requires tp >= 1 && Increasing(ids) && (tp == 1 || |Nodes(snap, ids)| <= 1)
    requires snap.LinkCountsNonNegative()
    ensures tp * n <= |ids| <==> n <= MaxReplicas(snap, tp, ids)
  {
    NodesDistinct(snap, ids);
    if tp * n <= |ids| {
      var f := PartitionExists(tp, n, ids);
      TriviallyPlaced(snap, f, tp, n, ids);
      PlacedBound(snap, f, tp, ids, Nodes(snap, ids));
    }
    if n <= MaxReplicas(snap, tp, ids) {
      FillSound(snap, tp, ids, Nodes(snap, ids));
      var r := FillNodes(snap, tp, ids, Nodes(snap, ids)).value;
      PrefixFamily(r, tp, MaxReplicas(snap, tp, ids), n, ids);
      FamilySize(r[..n], tp, n, ids);
    }
  }

  /**
   * `plan` raises exactly when the request exceeds what fits, and otherwise returns exactly `n`
   * disjoint ascending groups of `tp` GPUs, none spanning machines unless the caller allows it.
   */
  lemma {:induction false} PlanSucceeds(snap: HardwareSnapshot, tp: nat, n: nat, gpuIds: seq<int>, allowCrossNode: bool)
    requires tp >= 1 && Distinct(gpuIds) && snap.LinkCountsNonNegative()
    ensures var r := Plan(snap, tp, n, gpuIds, allowCrossNode);
            && (r.Ok? <==> if allowCrossNode then tp * n <= |gpuIds|
                           else n <= MaxReplicas(snap, tp, Sorted(gpuIds)))
            && (r.Ok? ==> Family(r.value, tp, n, gpuIds) && AllIncreasing(r.value))
            && (r.Ok? && !allowCrossNode ==> Placed(snap, r.value, Nodes(snap, Sorted(gpuIds))))
  {
    var ids := Sorted(gpuIds);
    SortedIncreasing(gpuIds);
    if allowCrossNode || tp == 1 || |Nodes(snap, ids)| <= 1 {
      PoolSound(snap, tp, n, gpuIds);
      if !allowCrossNode {
        MaxReplicasExact(snap, tp, n, ids);
        if tp * n <= |ids| {
          var r := PlanPool(snap, tp, n, gpuIds).value;
          RenameIds(r, tp, n, gpuIds, ids);
          TriviallyPlaced(snap, r, tp, n, ids);
        }
      }
    } else {
      PerNodeSucceeds(snap, tp, n, gpuIds);
    }
  }

  lemma {:induction false} PerNodeSucceeds(snap: HardwareSnapshot, tp: nat, n: nat, gpuIds: seq<int>)
    requires tp >= 2 && Distinct(gpuIds) && snap.LinkCountsNonNegative()
    requires |Nodes(snap, Sorted(gpuIds))| > 1
    ensures var r := Plan(snap, tp, n, gpuIds, false);
            && (r.Ok? <==> n <= MaxReplicas(snap, tp, Sorted(gpuIds)))
            && (r.Ok? ==> Family(r.value, tp, n, gpuIds) && AllIncreasing(r.value))
            && (r.Ok? ==> Placed(snap, r.value, Nodes(snap, Sorted(gpuIds))))
  {
    hide PlanPool, FillNodes, Nodes, SortNodes, Sorted, Capacity, Share, AllIncreasing, Placed;
    var ids := Sorted(gpuIds);
    SortedIncreasing(gpuIds);
    var nodes := SortNodes(Nodes(snap, ids));
    NodesDistinct(snap, ids);
    SortNodesDistinct(Nodes(snap, ids));
    SortNodesCapacity(snap, tp, ids, Nodes(snap, ids));
    FillSound(snap, tp, ids, nodes);
    var all := FillNodes(snap, tp, ids, nodes).value;
    FamilySize(all, tp, |all|, ids);
    if n <= |all| {
      PrefixFamily(all, tp, |all|, n, ids);
      FamilySize(all[..n], tp, n, ids);
      RenameIds(all[..n], tp, n, ids, gpuIds);
      PrefixPlaced(snap, all, n, nodes, Nodes(snap, ids));
    } else {
      PoolSound(snap, tp, n, gpuIds);
    }
  }

  lemma {:induction false} PrefixPlaced(
    snap: HardwareSnapshot, f: seq<seq<int>>, n: nat, nodes: seq<NodeId>, same: seq<NodeId>)
    requires n <= |f| && AllIncreasing(f) && Placed(snap, f, nodes)
    requires forall v :: v in nodes ==> v in same
    ensures AllIncreasing(f[..n]) && Placed(snap, f[..n], same)
  {
    assert forall g :: g in f[..n] ==> g in f;
  }

  /**
   * At the maximum replica count no family that respects machines scores more than the planned
   * one, if every machine has at most eight GPUs, no more than one group takes, or islands of whole
   * groups.
   */
  lemma {:induction false} PlanOptimalWhenFull(snap: HardwareSnapshot, tp: nat, gpuIds: seq<int>, f: seq<seq<int>>)
    requires tp >= 1 && Distinct(gpuIds) && snap.LinkCountsNonNegative()
    requires var ids := Sorted(gpuIds);
             && GoodNodes(snap, tp, ids, Nodes(snap, ids))
             && Family(f, tp, MaxReplicas(snap, tp, ids), gpuIds)
             && Placed(snap, f, Nodes(snap, ids))
    ensures var r := Plan(snap, tp, MaxReplicas(snap, tp, Sorted(gpuIds)), gpuIds, false);
            r.Ok? && PartitionScore(snap, f) <= PartitionScore(snap, r.value)
  {
    var ids := Sorted(gpuIds);
    var n := MaxReplicas(snap, tp, ids);
    SortedIncreasing(gpuIds);
    PlanSucceeds(snap, tp, n, gpuIds, false);
    FamilyNonEmpty(f, tp, n, gpuIds);
    if tp == 1 {
      PoolOptimal(snap, tp, n, gpuIds, f);
    } else if |Nodes(snap, ids)| <= 1 {
      OneNodeBest(snap, tp, n, gpuIds);
    } else {
      PerNodeOptimal(snap, tp, gpuIds, f);
    }
  }

  /** At the maximum replica count the truncation drops nothing. */
  lemma {:induction false} FullPerNode(snap: HardwareSnapshot, tp: nat, ids: seq<int>)
    requires tp >= 1 && Distinct(ids) && snap.LinkCountsNonNegative()
    ensures var n, fill := MaxReplicas(snap, tp, ids), FillNodes(snap, tp, ids, SortNodes(Nodes(snap, ids)));
            fill.Ok? && tp * n <= |ids| && PlanPerNode(snap, tp, n, ids) == fill
  {
    var n, nodes := MaxReplicas(snap, tp, ids), SortNodes(Nodes(snap, ids));
    NodesDistinct(snap, ids);
    SortNodesDistinct(Nodes(snap, ids));
    SortNodesCapacity(snap, tp, ids, Nodes(snap, ids));
    FillSound(snap, tp, ids, nodes);
    var all := FillNodes(snap, tp, ids, nodes).value;
    FamilySize(all, tp, n, ids);
    assert all[..n] == all;
  }

  lemma {:induction false} FullPlan(snap: HardwareSnapshot, tp: nat, gpuIds: seq<int>)
    requires tp >= 2 && Distinct(gpuIds) && snap.LinkCountsNonNegative()
    requires |Nodes(snap, Sorted(gpuIds))| > 1
    ensures Distinct(Sorted(gpuIds))
    ensures var ids := Sorted(gpuIds);
            var fill := FillNodes(snap, tp, ids, SortNodes(Nodes(snap, ids)));
            fill.Ok? && Plan(snap, tp, MaxReplicas(snap, tp, ids), gpuIds, false) == fill
  {
    SortedIncreasing(gpuIds);
    FullPerNode(snap, tp, Sorted(gpuIds));
  }

  lemma {:induction false} PerNodeOptimal(snap: HardwareSnapshot, tp: nat, gpuIds: seq<int>, f: seq<seq<int>>)
    requires tp >= 2 && Distinct(gpuIds) && snap.LinkCountsNonNegative()
    requires var ids := Sorted(gpuIds);
             && |Nodes(snap, ids)| > 1
             && GoodNodes(snap, tp, ids, Nodes(snap, ids))
             && Family(f, tp, MaxReplicas(snap, tp, ids), gpuIds)
             && Placed(snap, f, Nodes(snap, ids))
    ensures var r := Plan(snap, tp, MaxReplicas(snap, tp, Sorted(gpuIds)), gpuIds, false);
            r.Ok? && PartitionScore(snap, f) <= PartitionScore(snap, r.value)
  {
    var ids := Sorted(gpuIds);
    var n := MaxReplicas(snap, tp, ids);
    FullPlan(snap, tp, gpuIds);
    SortedIncreasing(gpuIds);
    NodesDistinct(snap, ids);
    SortNodesDistinct(Nodes(snap, ids));
    SortNodesCapacity(snap, tp, ids, Nodes(snap, ids));
    FamilyNonEmpty(f, tp, n, gpuIds);
    RenameIds(f, tp, n, gpuIds, ids);
    FillOptimal(snap, f, tp, ids, SortNodes(Nodes(snap, ids)));
  }

  lemma {:induction false} PoolOfSorted(snap: HardwareSnapshot, tp: nat, n: nat, gpuIds: seq<int>)
    requires tp >= 1 && Distinct(gpuIds)
    ensures Distinct(Sorted(gpuIds)) && PlanPool(snap, tp, n, Sorted(gpuIds)) == PlanPool(snap, tp, n, gpuIds)
  {
    SortedIncreasing(gpuIds);
    SortedFixed(Sorted(gpuIds));
  }

  /** On one machine the pool's plan is the plan. */
  lemma {:induction false} OneNodeBest(snap: HardwareSnapshot, tp: nat, n: nat, gpuIds: seq<int>)
    requires tp >= 2 && Distinct(gpuIds) && snap.LinkCountsNonNegative() && tp * n <= |gpuIds|
    requires var ids := Sorted(gpuIds); |Nodes(snap, ids)| <= 1 && GoodNodes(snap, tp, ids, Nodes(snap, ids))
    ensures BestPool(snap, tp, n, gpuIds)
  {
    hide PlanPool;
    var ids := Sorted(gpuIds);
    PoolOfSorted(snap, tp, n, gpuIds);
    if ids != [] {
      var v := snap.NodeOf(ids[0]);
      assert ids[0] in ids && v in Nodes(snap, ids);
      forall i | i in ids
        ensures snap.NodeOf(i) == v
      {
        SameNode(snap, ids, i, ids[0]);
      }
      AllOnOneNode(snap, ids, v);
    }
    GoodPoolBest(snap, tp, n, ids);
    forall f | Family(f, tp, n, gpuIds)
      ensures PartitionScore(snap, f) <= PartitionScore(snap, PlanPool(snap, tp, n, gpuIds).value)
    {
      RenameIds(f, tp, n, gpuIds, ids);
    }
  }

  lemma {:induction false} AllOnOneNode(snap: HardwareSnapshot, ids: seq<int>, v: NodeId)
    requires forall i :: i in ids ==> snap.NodeOf(i) == v
    ensures OnNode(snap, ids, v) == ids
  {
    if ids != [] {
      AllOnOneNode(snap, ids[..|ids| - 1], v);
      assert ids == ids[..|ids| - 1] + [ids[|ids| - 1]];
    }
  }

  /** The capacity does not depend on the order in which the GPUs are listed. */
  lemma {:induction false} MaxReplicasOrderFree(snap: HardwareSnapshot, tp: nat, a: seq<int>, b: seq<int>)
    requires tp >= 1 && Distinct(a) && Distinct(b) && Within(a, b) && Within(b, a)
    requires snap.LinkCountsNonNegative()
    ensures MaxReplicas(snap, tp, a) == MaxReplicas(snap, tp, b)
  {
    CapacityAtMost(snap, tp, a, b);
    CapacityAtMost(snap, tp, b, a);
  }

  lemma {:induction false} CapacityAtMost(snap: HardwareSnapshot, tp: nat, a: seq<int>, b: seq<int>)
    requires tp >= 1 && Distinct(a) && Distinct(b) && Within(a, b)
    requires snap.LinkCountsNonNegative()
    ensures MaxReplicas(snap, tp, a) <= MaxReplicas(snap, tp, b)
  {
    NodesDistinct(snap, a);
    FillSound(snap, tp, a, Nodes(snap, a));
    var f := FillNodes(snap, tp, a, Nodes(snap, a)).value;
    RenameIds(f, tp, |f|, a, b);
    FamilyNonEmpty(f, tp, |f|, b);
    forall g | g in f
      ensures snap.NodeOf(g[0]) in Nodes(snap, b)
    {
      FamilyMember(f, tp, |f|, b, g);
      assert g[0] in g;
    }
    PlacedBound(snap, f, tp, b, Nodes(snap, b));
  }
}
