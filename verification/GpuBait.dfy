/** Topologies on which a machine of more than eight GPUs is planned badly, whatever the sizes. */
module GpuBait {
  import opened Wrappers
  import opened Sequences
  import opened Hardware
  import opened GpuScores
  import opened GpuSearch
  import opened GpuOptimality
  import opened GpuGreedy
  import opened GpuPlan
  import opened GpuPlanTheorems
  import opened GpuWiring
  import opened GpuClusters

  lemma {:induction false} WithoutOne(s: seq<int>, i: int, cluster: seq<int>)
    requires Distinct(s) && i in s
    ensures |Without(s, [i])| == |s| - 1 && Distinct(Without(s, [i]))
    ensures Overlap(Without(s, [i]), cluster) == Overlap(s, cluster) - if i in cluster then 1 else 0
  {
    var x, rest := s[0], s[1..];
    assert s == [x] + rest && x !in rest;
    WithoutDistinct(s, [i]);
    if x == i {
      NothingGone(rest, [i]);
    } else {
      WithoutOne(rest, i, cluster);
    }
  }

  lemma {:induction false} NothingGone(s: seq<int>, gone: seq<int>)
    requires forall x :: x in s ==> x !in gone
    ensures Without(s, gone) == s
  {
    if s != [] {
      var x := s[0];
      assert x in s;
      NothingGone(s[1..], gone);
    }
  }

  lemma {:induction false} CountAll(ids: seq<int>, cluster: seq<int>)
    requires Distinct(ids) && Distinct(cluster) && Within(cluster, ids)
    ensures Overlap(ids, cluster) == |cluster|
  {
    CountRest(ids, cluster);
    AllGone(cluster, ids);
  }

  lemma {:induction false} AllGone(s: seq<int>, gone: seq<int>)
    requires Within(s, gone)
    ensures Without(s, gone) == []
  {
    if s != [] {
      var x := s[0];
      assert x in s;
      assert x in gone;
      AllGone(s[1..], gone);
    }
  }

  /** Every GPU of the cluster is tied to the rest of it, the ends of the bait to each other. */
  lemma {:induction false} ClusterConnectivity(
    snap: HardwareSnapshot, ids: seq<int>, cluster: seq<int>, bait: Option<(int, int)>, i: int)
    requires Scores(snap, ids, cluster, bait) && OnOneMachine(snap, ids)
    requires Distinct(ids) && Distinct(cluster) && Within(cluster, ids) && i in ids
    requires bait.Some? ==> bait.value.0 in ids && bait.value.1 in ids
    ensures Connectivity(snap, i, ids)
         == |ids| - 1 + (if i in cluster then GAP * (|cluster| - 1) else 0)
          + (if bait.Some? && (i == bait.value.0 || i == bait.value.1) then BAIT else 0)
  {
    var others := Without(ids, [i]);
    WithoutOne(ids, i, cluster);
    CountAll(ids, cluster);
    ClusterAffinity(snap, ids, cluster, bait, i, others);
  }

  // ------------------------------------------------------------------ three or more to a group

  lemma {:induction false} BaitSeed(snap: HardwareSnapshot, ids: seq<int>, cluster: seq<int>, p: int, q: int)
    requires Scores(snap, ids, cluster, Some((p, q))) && OnOneMachine(snap, ids)
    requires Distinct(ids) && Distinct(cluster) && Within(cluster, ids) && |cluster| >= 3
    requires p in ids && q in ids
    ensures Seed(snap, ids) == p
  {
    forall c | c in ids
      ensures Connectivity(snap, c, ids) < Connectivity(snap, p, ids) || c == p
    {
      ClusterConnectivity(snap, ids, cluster, Some((p, q)), c);
      ClusterConnectivity(snap, ids, cluster, Some((p, q)), p);
    }
    BestUnique(ids, i => Connectivity(snap, i, ids), p);
  }

  lemma {:induction false} SingleAffinity(snap: HardwareSnapshot, c: int, x: int)
    ensures Affinity(snap, c, [x]) == PairScore(snap, c, x)
  {
    assert [x][1..] == [];
  }

  lemma {:induction false} BaitNext(
    snap: HardwareSnapshot, ids: seq<int>, cluster: seq<int>, p: int, q: int, remaining: seq<int>)
    requires Scores(snap, ids, cluster, Some((p, q))) && OnOneMachine(snap, ids)
    requires p in ids && q in remaining && Within(remaining, ids) && p !in remaining
    ensures Next(snap, [p], remaining) == q
  {
    forall c | c in remaining
      ensures Affinity(snap, c, [p]) < Affinity(snap, q, [p]) || c == q
    {
      SingleAffinity(snap, c, p);
      SingleAffinity(snap, q, p);
      assert c in ids && q in ids && c != p && q != p;
    }
    BestUnique(remaining, c => Affinity(snap, c, [p]), q);
  }

  lemma {:induction false} GrowKeeps(snap: HardwareSnapshot, tp: nat, group: seq<int>, remaining: seq<int>)
    requires |group| <= tp && tp <= |group| + |remaining|
    ensures Within(group, Grow(snap, tp, group, remaining).0)
    decreases tp - |group|
  {
    if |group| < tp {
      var x := Next(snap, group, remaining);
      GrowKeeps(snap, tp, group + [x], Remove(remaining, x));
      assert Within(group, group + [x]);
    }
  }

  /** The first two picks of a greedy group stay in it. */
  lemma {:induction false} FirstPicks(snap: HardwareSnapshot, tp: nat, ids: seq<int>, p: int, q: int)
    requires 2 <= tp <= |ids| && Distinct(ids) && p in ids && Seed(snap, ids) == p
    requires q in Remove(ids, p) && Next(snap, [p], Remove(ids, p)) == q
    ensures p in FirstGroup(snap, tp, ids).0 && q in FirstGroup(snap, tp, ids).0
  {
    var others := Remove(ids, p);
    assert Grow(snap, tp, [p], others) == Grow(snap, tp, [p] + [q], Remove(others, q));
    GrowKeeps(snap, tp, [p] + [q], Remove(others, q));
    assert p in [p] + [q] && q in [p] + [q];
  }

  lemma {:induction false} BaitBites(
    snap: HardwareSnapshot, ids: seq<int>, cluster: seq<int>, p: int, q: int, tp: nat, n: nat)
    requires Scores(snap, ids, cluster, Some((p, q))) && OnOneMachine(snap, ids)
    requires Distinct(ids) && Distinct(cluster) && Within(cluster, ids) && |cluster| == tp >= 3
    requires p in ids && q in ids && n >= 1 && tp * n <= |ids|
    ensures var r := Greedy(snap, tp, n, ids); Bites(r[0], Some((p, q)))
  {
    hide Scores, Seed, Next;
    Affordable(tp, n, |ids|);
    BaitSeed(snap, ids, cluster, p, q);
    RemoveDistinct(ids, p);
    assert p != q by { BaitEnds(snap, ids, cluster, p, q); }
    BaitNext(snap, ids, cluster, p, q, Remove(ids, p));
    FirstPicks(snap, tp, ids, p, q);
  }

  lemma {:induction false} BaitEnds(snap: HardwareSnapshot, ids: seq<int>, cluster: seq<int>, p: int, q: int)
    requires Scores(snap, ids, cluster, Some((p, q)))
    ensures p in cluster && q !in cluster
  {
  }

  // ------------------------------------------------------------------ what the bait costs

  lemma {:induction false} OutsiderCount(g: seq<int>, cluster: seq<int>, q: int)
    requires q in g && q !in cluster
    ensures Overlap(g, cluster) < |g|
  {
    if g[0] != q {
      assert g == [g[0]] + g[1..];
      OutsiderCount(g[1..], cluster, q);
    }
  }

  lemma {:induction false} FullCount(g: seq<int>, cluster: seq<int>)
    requires Distinct(g) && Distinct(cluster) && Overlap(g, cluster) >= |cluster|
    ensures Within(cluster, g)
  {
    CountRest(g, cluster);
    forall x | x in cluster
      ensures x in g
    {
      assert x !in Without(cluster, g);
    }
  }

  lemma {:induction false} OtherGroup(f: seq<seq<int>>, i: nat, j: nat, x: int)
    requires PairwiseDisjoint(f) && i < |f| && j < |f| && i != j && x in f[i]
    ensures x !in f[j]
  {
    assert if i < j then Disjoint(f[i], f[j]) else Disjoint(f[j], f[i]);
  }

  /** Whoever bites holds no whole cluster, and neither does anyone else. */
  lemma {:induction false} BiteSplits(
    f: seq<seq<int>>, cluster: seq<int>, p: int, q: int, tp: nat, n: nat, ids: seq<int>, i: nat)
    requires Family(f, tp, n, ids) && i < |f| && Bites(f[i], Some((p, q)))
    requires p in cluster && q !in cluster && Distinct(cluster) && |cluster| == tp
    ensures Splits(f, cluster, tp)
  {
    forall g | g in f
      ensures Overlap(g, cluster) < tp
    {
      var j :| 0 <= j < |f| && f[j] == g;
      assert GroupOf(g, tp, ids);
      if j == i {
        OutsiderCount(g, cluster, q);
      } else {
        OtherGroup(f, i, j, p);
        if Overlap(g, cluster) >= tp {
          FullCount(g, cluster);
        }
      }
    }
  }

  lemma {:induction false} NobodyBites(f: seq<seq<int>>, bait: Option<(int, int)>)
    requires forall g :: g in f ==> !Bites(g, bait)
    ensures Bitten(f, bait) == 0
  {
    if f != [] {
      assert f[0] in f;
      NobodyBites(f[1..], bait);
    }
  }

  lemma {:induction false} BittenOnce(f: seq<seq<int>>, bait: Option<(int, int)>)
    requires PairwiseDisjoint(f)
    ensures Bitten(f, bait) <= 1
  {
    if f != [] {
      var rest := f[1..];
      FirstApart(f);
      if Bites(f[0], bait) {
        var p := bait.value.0;
        assert forall g :: g in rest ==> p !in g;
        NobodyBites(rest, bait);
      } else {
        BittenOnce(rest, bait);
      }
    }
  }

  lemma {:induction false} FamilyGroups(snap: HardwareSnapshot, f: seq<seq<int>>, tp: nat, n: nat, ids: seq<int>)
    requires tp >= 1 && Family(f, tp, n, ids) && OnOneMachine(snap, ids) && AllIncreasing(f)
    ensures Groups(snap, f, tp, ids) && PairwiseDisjoint(f) && forall g :: g in f ==> Distinct(g)
  {
    forall g | g in f
      ensures GroupOf(g, tp, ids) && OneNode(snap, g)
    {
      FamilyMember(f, tp, n, ids, g);
      assert g[0] in g;
    }
  }

  lemma {:induction false} BiteLoses(
    snap: HardwareSnapshot, ids: seq<int>, cluster: seq<int>, p: int, q: int, tp: nat, n: nat, f: seq<seq<int>>, i: nat)
    requires Scores(snap, ids, cluster, Some((p, q))) && OnOneMachine(snap, ids)
    requires Distinct(cluster) && |cluster| == tp >= 3
    requires Family(f, tp, n, ids) && AllIncreasing(f) && i < |f| && Bites(f[i], Some((p, q)))
    ensures PartitionScore(snap, f) < Times(n, Pairs(tp)) + GAP * Pairs(tp)
  {
    hide Scores, Family, Splits, PartitionScore, Groups, AllIncreasing, OnOneMachine;
    BaitEnds(snap, ids, cluster, p, q);
    BiteSplits(f, cluster, p, q, tp, n, ids, i);
    FamilyGroups(snap, f, tp, n, ids);
    SplitLoses(f, cluster, tp);
    BittenOnce(f, Some((p, q)));
    ClusterScore(snap, ids, cluster, Some((p, q)), f, tp);
    assert |f| == n by { FamilyLength(f, tp, n, ids); }
  }

  lemma {:induction false} FamilyLength(f: seq<seq<int>>, tp: nat, n: nat, ids: seq<int>)
    requires Family(f, tp, n, ids)
    ensures |f| == n
  {
  }

  /** Keeping the cluster together is worth at least all its pairs. */
  lemma {:induction false} KeepTogether(
    snap: HardwareSnapshot, ids: seq<int>, cluster: seq<int>, bait: Option<(int, int)>, tp: nat, n: nat)
    returns (f: seq<seq<int>>)
    requires Scores(snap, ids, cluster, bait) && OnOneMachine(snap, ids)
    requires Increasing(ids) && Increasing(cluster) && Within(cluster, ids) && |cluster| == tp >= 1
    requires n >= 1 && tp * n <= |ids|
    ensures Family(f, tp, n, ids)
    ensures PartitionScore(snap, f) >= Times(n, Pairs(tp)) + GAP * Pairs(tp)
  {
    hide Scores, OnOneMachine, Increasing, PartitionScore, PairwiseDisjoint, Times, Pairs;
    var rest := Without(ids, cluster);
    WithoutLength(ids, cluster);
    WithoutIncreasing(ids, cluster);
    Affordable(tp, n, |ids|);
    var others := PartitionExists(tp, n - 1, rest);
    f := [cluster] + others;
    IncreasingDistinct(cluster);
    ConsFamily(cluster, others, tp, n, rest, ids);
    assert AllIncreasing(f) by { CanonicalIncreasing(others); }
    FamilyGroups(snap, f, tp, n, ids);
    ClusterScore(snap, ids, cluster, bait, f, tp);
    WholeCount(cluster, cluster);
    assert f[0] == cluster && |f| == n;
    assert SumPairs(f, cluster) >= Pairs(tp);
  }

  lemma {:induction false} IncreasingDistinct(s: seq<int>)
    requires Increasing(s)
    ensures Distinct(s)
  {
  }

  lemma {:induction false} CanonicalIncreasing(f: seq<seq<int>>)
    requires Canonical(f)
    ensures AllIncreasing(f)
  {
  }

  // ------------------------------------------------------------------ two to a group

  predicate Unordered(a: int, b: int, x: int, y: int) {
    (a == x && b == y) || (a == y && b == x)
  }

  /** A hub tied a little to everybody and most to `x`, whose best partner is `y`. */
  function HubLink(h: int, x: int, y: int): (int, int) -> Relationship {
    (a, b) =>
      if Unordered(a, b, x, y) then PHB
      else if Unordered(a, b, h, x) then NODE
      else if a == h || b == h then SYS
      else UNKNOWN
  }

  ghost predicate HubScores(snap: HardwareSnapshot, ids: seq<int>, h: int, x: int, y: int) {
    && h != x && h != y && x != y
    && forall a, b :: a in ids && b in ids && a != b ==>
         PairScore(snap, a, b) ==
         if Unordered(a, b, x, y) then 20 else if Unordered(a, b, h, x) then 10 else if a == h || b == h then 5 else 1
  }

  lemma {:induction false} HubScored(gpus: seq<GPUDevice>, ids: seq<int>, h: int, x: int, y: int)
    requires Increasing(ids) && h != x && h != y && x != y
    requires OnOneMachine(Wired(gpus, ids, HubLink(h, x, y)), ids)
    ensures HubScores(Wired(gpus, ids, HubLink(h, x, y)), ids, h, x, y)
  {
    var snap := Wired(gpus, ids, HubLink(h, x, y));
    forall a, b | a in ids && b in ids && a != b
      ensures PairScore(snap, a, b) ==
        if Unordered(a, b, x, y) then 20 else if Unordered(a, b, h, x) then 10 else if a == h || b == h then 5 else 1
    {
      assert snap.NodeOf(a) == snap.NodeOf(b);
      WiredScore(gpus, ids, HubLink(h, x, y), a, b);
    }
  }

  lemma {:induction false} HubAffinity(
    snap: HardwareSnapshot, ids: seq<int>, h: int, x: int, y: int, c: int, s: seq<int>)
    requires HubScores(snap, ids, h, x, y) && c in ids && Within(s, ids) && Distinct(s) && c !in s
    ensures Affinity(snap, c, s) ==
      if c == h then 5 * |s| + (if x in s then 5 else 0)
      else |s| + (if h in s then (if c == x then 9 else 4) else 0)
           + (if (c == x && y in s) || (c == y && x in s) then 19 else 0)
  {
    if s != [] {
      var z, rest := s[0], s[1..];
      assert s == [z] + rest && z in s && z !in rest;
      HubAffinity(snap, ids, h, x, y, c, rest);
      assert z in ids && c != z;
    }
  }

  lemma {:induction false} HubSeed(snap: HardwareSnapshot, ids: seq<int>, h: int, x: int, y: int)
    requires HubScores(snap, ids, h, x, y) && Distinct(ids) && |ids| > EXHAUSTIVE_MAX_GPUS
    requires h in ids && x in ids && y in ids
    ensures Seed(snap, ids) == h
  {
    forall c | c in ids
      ensures Connectivity(snap, c, ids) < Connectivity(snap, h, ids) || c == h
    {
      WithoutOne(ids, c, []);
      WithoutOne(ids, h, []);
      HubAffinity(snap, ids, h, x, y, c, Without(ids, [c]));
      HubAffinity(snap, ids, h, x, y, h, Without(ids, [h]));
    }
    BestUnique(ids, i => Connectivity(snap, i, ids), h);
  }

  lemma {:induction false} HubNext(snap: HardwareSnapshot, ids: seq<int>, h: int, x: int, y: int, remaining: seq<int>)
    requires HubScores(snap, ids, h, x, y) && h in ids && x in remaining && Within(remaining, ids) && h !in remaining
    ensures Next(snap, [h], remaining) == x
  {
    forall c | c in remaining
      ensures Affinity(snap, c, [h]) < Affinity(snap, x, [h]) || c == x
    {
      SingleAffinity(snap, c, h);
      SingleAffinity(snap, x, h);
      assert c in ids && x in ids && c != h;
    }
    BestUnique(remaining, c => Affinity(snap, c, [h]), x);
  }

  lemma {:induction false} SortedPairScore(snap: HardwareSnapshot, g: seq<int>)
    requires Increasing(g) && |g| == 2
    ensures GroupScore(snap, g) == PairScore(snap, g[0], g[1])
  {
    SortedFixed(g);
    assert g[1..] == [g[1]] && [g[1]][1..] == [];
    SingleAffinity(snap, g[0], g[1]);
    assert PairSum(snap, [g[1]]) == 0;
  }

  /** Pairs that hold neither the hub nor its favourite score one each. */
  lemma {:induction false} LeftoversScore(
    snap: HardwareSnapshot, ids: seq<int>, h: int, x: int, y: int, f: seq<seq<int>>)
    requires HubScores(snap, ids, h, x, y) && AllIncreasing(f) && forall g :: g in f ==> GroupOf(g, 2, ids)
    ensures PartitionScore(snap, f) >= |f|
    ensures (forall g :: g in f ==> h !in g && x !in g) ==> PartitionScore(snap, f) == |f|
  {
    if f != [] {
      var g := f[0];
      assert g in f && GroupOf(g, 2, ids) && g[0] in g && g[1] in g;
      SortedPairScore(snap, g);
      LeftoversScore(snap, ids, h, x, y, f[1..]);
    }
  }

  /** The hub takes its favourite, which is worth less than leaving the favourite to its partner. */
  lemma {:induction false} HubWastes(
    snap: HardwareSnapshot, ids: seq<int>, h: int, x: int, y: int, n: nat, r: seq<seq<int>>)
    requires HubScores(snap, ids, h, x, y) && Family(r, 2, n, ids) && AllIncreasing(r) && r != []
    requires h in r[0] && x in r[0]
    ensures PartitionScore(snap, r) == n + 9
  {
    var g, rest := r[0], r[1..];
    assert g in r && GroupOf(g, 2, ids) && g[0] in g && g[1] in g;
    SortedPairScore(snap, g);
    assert Unordered(g[0], g[1], h, x);
    forall k | k in rest
      ensures GroupOf(k, 2, ids) && h !in k && x !in k
    {
      var j :| 0 <= j < |rest| && rest[j] == k;
      OtherGroup(r, 0, j + 1, h);
      OtherGroup(r, 0, j + 1, x);
      assert GroupOf(r[j + 1], 2, ids);
    }
    LeftoversScore(snap, ids, h, x, y, rest);
  }

  lemma {:induction false} HubAvoided(snap: HardwareSnapshot, ids: seq<int>, h: int, x: int, y: int, n: nat)
    returns (f: seq<seq<int>>)
    requires HubScores(snap, ids, h, x, y) && Increasing(ids) && x in ids && y in ids && x < y
    requires n >= 1 && 2 * n <= |ids|
    ensures Family(f, 2, n, ids) && PartitionScore(snap, f) >= n + 19
  {
    var rest := Without(ids, [x, y]);
    WithoutLength(ids, [x, y]);
    WithoutIncreasing(ids, [x, y]);
    var others := PartitionExists(2, n - 1, rest);
    f := [[x, y]] + others;
    assert Disjoint([x, y], rest) && GroupOf([x, y], 2, ids);
    ConsFamily([x, y], others, 2, n, rest, ids);
    CanonicalIncreasing(others);
    forall g | g in others
      ensures GroupOf(g, 2, ids)
    {
      FamilyMember(others, 2, n - 1, rest, g);
    }
    LeftoversScore(snap, ids, h, x, y, others);
    SortedPairScore(snap, [x, y]);
    assert f[0] == [x, y] && f[1..] == others;
  }

  // ------------------------------------------------------------------ every size

  lemma {:induction false} CanonicalGreedy(snap: HardwareSnapshot, tp: nat, n: nat, ids: seq<int>)
    requires tp >= 2 && Increasing(ids) && |ids| > EXHAUSTIVE_MAX_GPUS && tp * n <= |ids|
    ensures PlanPool(snap, tp, n, ids).Ok?
    ensures PartitionScore(snap, PlanPool(snap, tp, n, ids).value) == PartitionScore(snap, Greedy(snap, tp, n, ids))
  {
    SortedFixed(ids);
    GreedyNonEmpty(snap, tp, n, ids);
    CanonicalFormScore(snap, Greedy(snap, tp, n, ids));
  }

  lemma {:induction false} GreedyGroups(snap: HardwareSnapshot, tp: nat, n: nat, ids: seq<int>)
    requires tp >= 1 && tp * n <= |ids| && Distinct(ids)
    ensures Family(Greedy(snap, tp, n, ids), tp, n, ids) && AllIncreasing(Greedy(snap, tp, n, ids))
  {
    GreedyFamily(snap, tp, n, ids);
  }

  /** The planned groups of this pool can be beaten. */
  ghost predicate Beaten(snap: HardwareSnapshot, tp: nat, n: nat, ids: seq<int>, f: seq<seq<int>>)
    requires tp >= 1 && Distinct(ids)
  {
    && PlanPool(snap, tp, n, ids).Ok?
    && Family(f, tp, n, ids)
    && PartitionScore(snap, PlanPool(snap, tp, n, ids).value) < PartitionScore(snap, f)
  }

  lemma {:induction false} BaitedPool(gpus: seq<GPUDevice>, tp: nat, n: nat, ids: seq<int>)
    returns (snap: HardwareSnapshot, f: seq<seq<int>>)
    requires Increasing(ids) && |ids| > EXHAUSTIVE_MAX_GPUS && 3 <= tp < |ids| && n >= 1 && tp * n <= |ids|
    requires forall a, b :: a in ids && b in ids ==> LookupNode(gpus, a) == LookupNode(gpus, b)
    ensures snap.gpus == gpus && snap.LinkCountsNonNegative() && Distinct(ids) && Beaten(snap, tp, n, ids, f)
  {
    hide Scores, Increasing, PartitionScore, Family, PlanPool;
    IncreasingDistinct(ids);
    var cluster, p, q := ids[..tp], ids[0], ids[tp];
    Front(ids, tp);
    snap := Wired(gpus, ids, Clustered(cluster, Some((p, q))));
    WiredLinkCounts(gpus, ids, Clustered(cluster, Some((p, q))));
    ClusteredScores(gpus, ids, cluster, Some((p, q)));
    var r := Greedy(snap, tp, n, ids);
    BaitBites(snap, ids, cluster, p, q, tp, n);
    GreedyGroups(snap, tp, n, ids);
    BiteLoses(snap, ids, cluster, p, q, tp, n, r, 0);
    f := KeepTogether(snap, ids, cluster, Some((p, q)), tp, n);
    CanonicalGreedy(snap, tp, n, ids);
  }

  lemma {:induction false} Front(ids: seq<int>, tp: nat)
    requires Increasing(ids) && 1 <= tp < |ids|
    ensures Increasing(ids[..tp]) && Distinct(ids[..tp]) && Within(ids[..tp], ids)
    ensures ids[0] in ids[..tp] && ids[tp] !in ids[..tp] && ids[0] in ids && ids[tp] in ids
  {
    assert ids[..tp][0] == ids[0];
  }

  lemma {:induction false} HubPool(gpus: seq<GPUDevice>, n: nat, ids: seq<int>)
    returns (snap: HardwareSnapshot, f: seq<seq<int>>)
    requires Increasing(ids) && |ids| > EXHAUSTIVE_MAX_GPUS && n >= 1 && 2 * n <= |ids|
    requires forall a, b :: a in ids && b in ids ==> LookupNode(gpus, a) == LookupNode(gpus, b)
    ensures snap.gpus == gpus && snap.LinkCountsNonNegative() && Distinct(ids) && Beaten(snap, 2, n, ids, f)
  {
    hide HubScores, PartitionScore, Family, PlanPool, Seed, Next, FirstGroup;
    IncreasingDistinct(ids);
    var h, x, y := ids[0], ids[1], ids[2];
    snap := Wired(gpus, ids, HubLink(h, x, y));
    WiredLinkCounts(gpus, ids, HubLink(h, x, y));
    HubScored(gpus, ids, h, x, y);
    RemoveDistinct(ids, h);
    HubSeed(snap, ids, h, x, y);
    HubNext(snap, ids, h, x, y, Remove(ids, h));
    FirstPicks(snap, 2, ids, h, x);
    var r := Greedy(snap, 2, n, ids);
    GreedyGroups(snap, 2, n, ids);
    HubWastes(snap, ids, h, x, y, n, r);
    f := HubAvoided(snap, ids, h, x, y, n);
    CanonicalGreedy(snap, 2, n, ids);
  }

  /**
   * On a machine of more than eight GPUs some topology defeats the plan, unless a group takes one
   * GPU or all of them.
   */
  lemma {:induction false} LargePoolBeaten(gpus: seq<GPUDevice>, tp: nat, n: nat, ids: seq<int>)
    returns (snap: HardwareSnapshot, f: seq<seq<int>>)
    requires Increasing(ids) && n >= 1 && tp >= 1 && tp * n <= |ids| && !Searchable(tp, |ids|)
    requires forall a, b :: a in ids && b in ids ==> LookupNode(gpus, a) == LookupNode(gpus, b)
    ensures snap.gpus == gpus && snap.LinkCountsNonNegative() && Distinct(ids) && Beaten(snap, tp, n, ids, f)
  {
    if tp == 2 {
      snap, f := HubPool(gpus, n, ids);
    } else {
      snap, f := BaitedPool(gpus, tp, n, ids);
    }
  }
}
