/** The planner object: memoised pair scores, the recursive search, the greedy loops, `plan`. */
module GpuPlanner {
  import opened Wrappers
  import opened Sequences
  import opened Hardware
  import opened GpuScores
  import opened GpuSearch
  import opened GpuOptimality
  import opened GpuGreedy
  import opened GpuPlan

  // ------------------------------------------------------------------ the fold, piecewise

  /** `[[*chosen, *t] for t in tails]`. */
  function Extend(chosen: seq<seq<int>>, tails: seq<seq<seq<int>>>): (r: seq<seq<seq<int>>>)
    ensures |r| == |tails|
  {
    seq(|tails|, i requires 0 <= i < |tails| => chosen + tails[i])
  }

  lemma {:induction false} FoldConcat(snap: HardwareSnapshot, b: Best, fs: seq<seq<seq<int>>>, gs: seq<seq<seq<int>>>)
    ensures FoldBest(snap, b, fs + gs) == FoldBest(snap, FoldBest(snap, b, fs), gs)
    decreases |fs|
  {
    if fs == [] {
      assert fs + gs == gs;
    } else {
      assert (fs + gs)[1..] == fs[1..] + gs;
      FoldConcat(snap, Improve(snap, b, fs[0]), fs[1..], gs);
    }
  }

  lemma {:induction false} FoldExtendConcat(
    snap: HardwareSnapshot, b: Best, chosen: seq<seq<int>>, ts: seq<seq<seq<int>>>, us: seq<seq<seq<int>>>)
    ensures FoldBest(snap, b, Extend(chosen, ts + us))
         == FoldBest(snap, FoldBest(snap, b, Extend(chosen, ts)), Extend(chosen, us))
  {
    hide FoldBest;
    assert Extend(chosen, ts + us) == Extend(chosen, ts) + Extend(chosen, us);
    FoldConcat(snap, b, Extend(chosen, ts), Extend(chosen, us));
  }

  lemma {:induction false} ExtendPrefix(chosen: seq<seq<int>>, g: seq<int>, ts: seq<seq<seq<int>>>)
    ensures Extend(chosen, ConsEach(g, ts)) == Extend(chosen + [g], ts)
  {
    forall i | 0 <= i < |ts|
      ensures chosen + ([g] + ts[i]) == (chosen + [g]) + ts[i]
    {
    }
  }

  /** One turn of the loop over combinations. */
  lemma {:induction false} AnchoredTurn(
    snap: HardwareSnapshot, b: Best, chosen: seq<seq<int>>, tp: nat, want: nat, anchor: int, rest: seq<int>,
    combos: seq<seq<int>>)
    requires tp >= 1 && want >= 1 && combos != []
    ensures FoldBest(snap, b, Extend(chosen, Anchored(tp, want, anchor, rest, combos)))
         == FoldBest(snap, FoldBest(snap, b, Extend(chosen + [[anchor] + combos[0]],
                                                     Completions(tp, want - 1, Without(rest, combos[0])))),
                     Extend(chosen, Anchored(tp, want, anchor, rest, combos[1..])))
  {
    var tails := Completions(tp, want - 1, Without(rest, combos[0]));
    FoldExtendConcat(snap, b, chosen, ConsEach([anchor] + combos[0], tails), Anchored(tp, want, anchor, rest, combos[1..]));
    ExtendPrefix(chosen, [anchor] + combos[0], tails);
  }

  lemma {:induction false} NothingAnchored(
    snap: HardwareSnapshot, b: Best, chosen: seq<seq<int>>, tp: nat, want: nat, anchor: int, rest: seq<int>)
    requires tp >= 1 && want >= 1
    ensures FoldBest(snap, b, Extend(chosen, Anchored(tp, want, anchor, rest, []))) == b
  {
  }

  lemma {:induction false} ExtendNothing(ts: seq<seq<seq<int>>>)
    ensures Extend([], ts) == ts
  {
    assert forall i :: 0 <= i < |ts| ==> [] + ts[i] == ts[i];
  }

  lemma {:induction false} ExtendDone(snap: HardwareSnapshot, b: Best, chosen: seq<seq<int>>)
    ensures FoldBest(snap, b, Extend(chosen, [[]])) == Improve(snap, b, chosen)
  {
    assert chosen + [] == chosen;
    assert Extend(chosen, [[]])[1..] == [];
  }

  lemma {:induction false} GreedyTurn(snap: HardwareSnapshot, tp: nat, left: nat, groups: seq<seq<int>>, pool: seq<int>)
    requires tp >= 1 && left >= 1 && tp * left <= |pool| && tp <= |pool|
    requires tp * (left - 1) <= |pool| - tp
    ensures var (group, rest) := FirstGroup(snap, tp, pool);
            groups + Greedy(snap, tp, left, pool) == (groups + [Sorted(group)]) + Greedy(snap, tp, left - 1, rest)
  {
  }

  lemma {:induction false} GreedyDone(snap: HardwareSnapshot, tp: nat, pool: seq<int>)
    requires tp >= 1
    ensures tp * 0 <= |pool| && Greedy(snap, tp, 0, pool) == []
  {
  }

  /** `best` and `best_score` of one search. */
  class Incumbent {
    var groups: Option<seq<seq<int>>>
    var score: int

    constructor ()
      ensures Value() == Best(None, -1)
    {
      groups := None;
      score := -1;
    }

    function Value(): Best
      reads this
    {
      Best(groups, score)
    }
  }

  class GPUGroupPlanner {
    const snapshot: HardwareSnapshot
    var scoreCache: map<(int, int), int>

    /** Every memoised score is the true one. */
    ghost predicate Valid()
      reads this
    {
      forall k :: k in scoreCache ==> scoreCache[k] == PairScore(snapshot, k.0, k.1)
    }

    constructor (snapshot: HardwareSnapshot)
      ensures Valid() && this.snapshot == snapshot
    {
      this.snapshot := snapshot;
      scoreCache := map[];
    }

    /** One cache entry serves both orders of the pair. */
    method CachedPairScore(a: int, b: int) returns (score: int)
      requires Valid()
      modifies this`scoreCache
      ensures Valid() && score == PairScore(snapshot, a, b)
    {
      var key := if a < b then (a, b) else (b, a);
      PairScoreSymmetric(snapshot, a, b);
      if key !in scoreCache {
        scoreCache := scoreCache[key := PairScore(snapshot, a, b)];
      }
      score := scoreCache[key];
    }

    method SumScores(c: int, group: seq<int>) returns (total: int)
      requires Valid()
      modifies this`scoreCache
      ensures Valid() && total == Affinity(snapshot, c, group)
    {
      total := 0;
      for i := 0 to |group|
        invariant Valid()
        invariant total + Affinity(snapshot, c, group[i..]) == Affinity(snapshot, c, group)
      {
        var score := CachedPairScore(c, group[i]);
        total := total + score;
        assert group[i..][1..] == group[i + 1..];
      }
    }

    method ScoreGroup(group: seq<int>) returns (total: int)
      requires Valid()
      modifies this`scoreCache
      ensures Valid() && total == GroupScore(snapshot, group)
    {
      var s := Sorted(group);
      total := 0;
      for i := 0 to |s|
        invariant Valid()
        invariant total + PairSum(snapshot, s[i..]) == PairSum(snapshot, s)
      {
        var sum := SumScores(s[i], s[i + 1..]);
        total := total + sum;
        assert s[i..][1..] == s[i + 1..];
      }
    }

    method ScorePartition(groups: seq<seq<int>>) returns (total: int)
      requires Valid()
      modifies this`scoreCache
      ensures Valid() && total == PartitionScore(snapshot, groups)
    {
      total := 0;
      for i := 0 to |groups|
        invariant Valid()
        invariant total + PartitionScore(snapshot, groups[i..]) == PartitionScore(snapshot, groups)
      {
        var score := ScoreGroup(groups[i]);
        total := total + score;
        assert groups[i..][1..] == groups[i + 1..];
      }
    }

    // ---------------------------------------------------------------- exhaustive

    /** Visits every completion of `chosen` and keeps the first best one in `inc`. */
    method Recurse(tp: nat, n: nat, remaining: seq<int>, chosen: seq<seq<int>>, inc: Incumbent)
      requires Valid() && tp >= 1 && |chosen| <= n
      modifies this`scoreCache, inc
      ensures Valid()
      ensures inc.Value()
           == FoldBest(snapshot, old(inc.Value()), Extend(chosen, Completions(tp, n - |chosen|, remaining)))
      decreases |remaining|
    {
      ghost var before := inc.Value();
      var want := n - |chosen|;
      if want == 0 {
        var score := ScorePartition(chosen);
        ExtendDone(snapshot, before, chosen);
        if score > inc.score {
          inc.score := score;
          inc.groups := Some(chosen);
        }
        return;
      }
      if |remaining| < tp * want {
        return;
      }
      FewerThanAll(tp, want);
      var anchor, rest := remaining[0], remaining[1..];
      TryAnchor(tp, n, anchor, rest, chosen, inc);
      ghost var anchored := Anchored(tp, want, anchor, rest, Combinations(rest, tp - 1));
      ghost var skipped := if |remaining| > tp * want then Completions(tp, want, rest) else [];
      FoldExtendConcat(snapshot, before, chosen, anchored, skipped);
      if |remaining| > tp * want {
        Recurse(tp, n, rest, chosen, inc);
      }
    }

    /** The loop over the anchor's combinations. */
    method TryAnchor(tp: nat, n: nat, anchor: int, rest: seq<int>, chosen: seq<seq<int>>, inc: Incumbent)
      requires Valid() && tp >= 1 && |chosen| < n
      modifies this`scoreCache, inc
      ensures Valid()
      ensures inc.Value() == FoldBest(snapshot, old(inc.Value()),
                Extend(chosen, Anchored(tp, n - |chosen|, anchor, rest, Combinations(rest, tp - 1))))
      decreases |rest| + 1, 0
    {
      hide FoldBest, Extend, Anchored, Combinations, Completions, Without;
      ghost var before := inc.Value();
      ghost var want := n - |chosen|;
      var combos := Combinations(rest, tp - 1);
      assert combos[0..] == combos;
      ghost var goal := FoldBest(snapshot, before, Extend(chosen, Anchored(tp, want, anchor, rest, combos)));
      for i := 0 to |combos|
        invariant Valid()
        invariant FoldBest(snapshot, inc.Value(), Extend(chosen, Anchored(tp, want, anchor, rest, combos[i..]))) == goal
      {
        var group, left := [anchor] + combos[i], Without(rest, combos[i]);
        assert combos[i..][1..] == combos[i + 1..];
        AnchoredTurn(snapshot, inc.Value(), chosen, tp, want, anchor, rest, combos[i..]);
        Recurse(tp, n, left, chosen + [group], inc);
      }
      assert combos[|combos|..] == [];
      NothingAnchored(snapshot, inc.Value(), chosen, tp, want, anchor, rest);
    }

    method SearchExhaustively(tp: nat, n: nat, ids: seq<int>) returns (groups: Option<seq<seq<int>>>)
      requires Valid() && tp >= 1
      modifies this`scoreCache
      ensures Valid() && groups == Exhaustive(snapshot, tp, n, ids)
    {
      var inc := new Incumbent();
      Recurse(tp, n, ids, [], inc);
      groups := inc.groups;
      ExtendNothing(Completions(tp, n, ids));
    }

    // ---------------------------------------------------------------- greedy

    /** Best-connected remaining GPU, ties to the lowest index. */
    method PickSeed(remaining: seq<int>) returns (seed: int)
      requires Valid() && remaining != []
      modifies this`scoreCache
      ensures Valid() && seed == Seed(snapshot, remaining)
    {
      hide Without, Affinity;
      seed := remaining[0];
      var best := SumScores(seed, Without(remaining, [seed]));
      for i := 1 to |remaining|
        invariant Valid() && seed in remaining && best == Connectivity(snapshot, seed, remaining)
        invariant forall j :: 0 <= j < i ==>
          var score := Connectivity(snapshot, remaining[j], remaining);
          score < best || (score == best && seed <= remaining[j])
      {
        var c := remaining[i];
        var score := SumScores(c, Without(remaining, [c]));
        if score > best || (score == best && c < seed) {
          seed, best := c, score;
        }
      }
      BestUnique(remaining, i => Connectivity(snapshot, i, remaining), seed);
    }

    method PickNext(group: seq<int>, remaining: seq<int>) returns (next: int)
      requires Valid() && remaining != []
      modifies this`scoreCache
      ensures Valid() && next == Next(snapshot, group, remaining)
    {
      next := remaining[0];
      var best := SumScores(next, group);
      for i := 1 to |remaining|
        invariant Valid() && next in remaining && best == Affinity(snapshot, next, group)
        invariant forall j :: 0 <= j < i ==>
          var score := Affinity(snapshot, remaining[j], group);
          score < best || (score == best && next <= remaining[j])
      {
        var c := remaining[i];
        var score := SumScores(c, group);
        if score > best || (score == best && c < next) {
          next, best := c, score;
        }
      }
      BestUnique(remaining, c => Affinity(snapshot, c, group), next);
    }

    /** The inner loop: a seed, then the best-connected remaining GPU until the group is full. */
    method GrowGroup(tp: nat, pool: seq<int>) returns (group: seq<int>, remaining: seq<int>)
      requires Valid() && 1 <= tp <= |pool|
      modifies this`scoreCache
      ensures Valid() && (group, remaining) == FirstGroup(snapshot, tp, pool)
    {
      hide Next, Seed;
      var seed := PickSeed(pool);
      group, remaining := [seed], Remove(pool, seed);
      while |group| < tp
        invariant Valid() && 1 <= |group| <= tp <= |group| + |remaining|
        invariant Grow(snapshot, tp, group, remaining) == FirstGroup(snapshot, tp, pool)
        decreases tp - |group|
      {
        var next := PickNext(group, remaining);
        group := group + [next];
        remaining := Remove(remaining, next);
      }
    }

    method GrowGreedily(tp: nat, n: nat, ids: seq<int>) returns (groups: seq<seq<int>>)
      requires Valid() && tp >= 1 && tp * n <= |ids|
      modifies this`scoreCache
      ensures Valid() && groups == Greedy(snapshot, tp, n, ids)
    {
      hide Greedy, FirstGroup, Sorted;
      var remaining := ids;
      groups := [];
      while |groups| < n
        invariant Valid() && |groups| <= n && tp * (n - |groups|) <= |remaining|
        invariant groups + Greedy(snapshot, tp, n - |groups|, remaining) == Greedy(snapshot, tp, n, ids)
      {
        Affordable(tp, n - |groups|, |remaining|);
        GreedyTurn(snapshot, tp, n - |groups|, groups, remaining);
        var group;
        group, remaining := GrowGroup(tp, remaining);
        groups := groups + [Sorted(group)];
      }
      GreedyDone(snapshot, tp, remaining);
    }

    // ---------------------------------------------------------------- plan

    method PlanTogether(tp: nat, n: nat, gpuIds: seq<int>) returns (r: Result<seq<seq<int>>, PlanError>)
      requires Valid() && tp >= 1 && Distinct(gpuIds)
      modifies this`scoreCache
      ensures Valid() && r == PlanPool(snapshot, tp, n, gpuIds)
    {
      var ids := Sorted(gpuIds);
      if tp * n > |ids| {
        return Err(NoViablePlan);
      }
      if tp == 1 {
        return Ok(Singles(ids, n));
      }
      if |ids| <= EXHAUSTIVE_MAX_GPUS {
        var best := SearchExhaustively(tp, n, ids);
        if best.None? {
          return Err(NoViablePlan);
        }
        SortedIncreasing(gpuIds);
        ExhaustiveIsOptimal(snapshot, tp, n, ids);
        return Ok(CanonicalForm(best.value));
      }
      var groups := GrowGreedily(tp, n, ids);
      GreedyNonEmpty(snapshot, tp, n, ids);
      return Ok(CanonicalForm(groups));
    }

    /** `by_node`: the machines in order of first appearance, and each one's GPUs. */
    method GroupByNode(ids: seq<int>) returns (order: seq<NodeId>, byNode: map<NodeId, seq<int>>)
      ensures order == Nodes(snapshot, ids)
      ensures forall v :: v in byNode <==> v in order
      ensures forall v :: v in order ==> byNode[v] == OnNode(snapshot, ids, v)
    {
      order, byNode := [], map[];
      for i := 0 to |ids|
        invariant order == Nodes(snapshot, ids[..i])
        invariant forall v :: v in byNode <==> v in order
        invariant forall v :: v in order ==> byNode[v] == OnNode(snapshot, ids[..i], v)
      {
        var node := snapshot.NodeOf(ids[i]);
        assert ids[..i + 1][..i] == ids[..i];
        if node !in byNode {
          NodeAbsent(snapshot, ids[..i], node);
          order := order + [node];
          byNode := byNode[node := []];
        }
        byNode := byNode[node := byNode[node] + [ids[i]]];
      }
      assert ids[..|ids|] == ids;
    }

    /** As many groups as fit on each machine in turn. */
    method FillByNode(tp: nat, ids: seq<int>, nodes: seq<NodeId>, byNode: map<NodeId, seq<int>>)
      returns (r: Result<seq<seq<int>>, PlanError>)
      requires Valid() && tp >= 1 && Distinct(ids)
      requires forall v :: v in nodes ==> v in byNode && byNode[v] == OnNode(snapshot, ids, v)
      modifies this`scoreCache
      ensures Valid() && r == FillNodes(snapshot, tp, ids, nodes)
    {
      var groups: seq<seq<int>> := [];
      ghost var goal := FillNodes(snapshot, tp, ids, nodes);
      AppendedNothing(goal);
      assert nodes[0..] == nodes && nodes[|nodes|..] == [];
      for i := 0 to |nodes|
        invariant Valid()
        invariant goal == Appended(groups, FillNodes(snapshot, tp, ids, nodes[i..]))
      {
        var nodeIds := byNode[nodes[i]];
        var perNode := |nodeIds| / tp;
        FillTurn(snapshot, tp, ids, nodes[i..]);
        assert nodes[i..][1..] == nodes[i + 1..];
        if perNode != 0 {
          assert perNode == Share(snapshot, tp, ids, nodes[i]);
          var more := PlanTogether(tp, perNode, nodeIds);
          if more.Err? {
            return more;
          }
          AppendedTwice(groups, more.value, FillNodes(snapshot, tp, ids, nodes[i + 1..]));
          groups := groups + more.value;
        }
      }
      r := Ok(groups);
      assert groups + [] == groups;
    }

    method PlanByNode(tp: nat, n: nat, ids: seq<int>) returns (r: Result<seq<seq<int>>, PlanError>)
      requires Valid() && tp >= 1 && Distinct(ids)
      modifies this`scoreCache
      ensures Valid() && r == PlanPerNode(snapshot, tp, n, ids)
    {
      var order, byNode := GroupByNode(ids);
      r := FillByNode(tp, ids, SortNodes(order), byNode);
      if r.Ok? {
        r := if |r.value| < n then Err(NoViablePlan) else Ok(r.value[..n]);
      }
    }

    method PlanGroups(tp: nat, n: nat, gpuIds: seq<int>, allowCrossNode: bool)
      returns (r: Result<seq<seq<int>>, PlanError>)
      requires Valid() && tp >= 1 && Distinct(gpuIds)
      modifies this`scoreCache
      ensures Valid() && r == Plan(snapshot, tp, n, gpuIds, allowCrossNode)
    {
      var ids := Sorted(gpuIds);
      SortedIncreasing(gpuIds);
      if tp * n > |ids| {
        return Err(NoViablePlan);
      }
      if tp == 1 {
        return Ok(Singles(ids, n));
      }
      if !allowCrossNode && |Nodes(snapshot, ids)| > 1 {
        r := PlanByNode(tp, n, ids);
      } else {
        r := PlanTogether(tp, n, gpuIds);
      }
    }
  }

  lemma {:induction false} NodeAbsent(snap: HardwareSnapshot, ids: seq<int>, v: NodeId)
    requires v !in Nodes(snap, ids)
    ensures OnNode(snap, ids, v) == []
  {
    if ids != [] {
      NodeAbsent(snap, ids[..|ids| - 1], v);
    }
  }

  /** One turn of the loop over machines. */
  lemma {:induction false} FillTurn(snap: HardwareSnapshot, tp: nat, ids: seq<int>, nodes: seq<NodeId>)
    requires tp >= 1 && Distinct(ids) && nodes != []
    ensures Distinct(OnNode(snap, ids, nodes[0]))
    ensures var here, rest := PlanPool(snap, tp, Share(snap, tp, ids, nodes[0]), OnNode(snap, ids, nodes[0])), FillNodes(snap, tp, ids, nodes[1..]);
            FillNodes(snap, tp, ids, nodes) ==
            if Share(snap, tp, ids, nodes[0]) == 0 then rest
            else if here.Err? then here else Appended(here.value, rest)
  {
    OnNodeDistinct(snap, ids, nodes[0]);
  }

  /** `groups.extend(rest)`, unless `rest` raised. */
  function Appended(groups: seq<seq<int>>, rest: Result<seq<seq<int>>, PlanError>): Result<seq<seq<int>>, PlanError> {
    if rest.Err? then rest else Ok(groups + rest.value)
  }

  lemma {:induction false} AppendedNothing(rest: Result<seq<seq<int>>, PlanError>)
    ensures Appended([], rest) == rest
  {
    if rest.Ok? {
      assert [] + rest.value == rest.value;
    }
  }

  lemma {:induction false} AppendedTwice(a: seq<seq<int>>, b: seq<seq<int>>, rest: Result<seq<seq<int>>, PlanError>)
    ensures Appended(a, Appended(b, rest)) == Appended(a + b, rest)
  {
    if rest.Ok? {
      assert a + (b + rest.value) == (a + b) + rest.value;
    }
  }
}
