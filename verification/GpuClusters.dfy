/** How a family of groups scores when one cluster of GPUs is wired better than the rest. */
module GpuClusters {
  import opened Wrappers
  import opened Sequences
  import opened Hardware
  import opened GpuScores
  import opened GpuGreedy
  import opened GpuPlanTheorems
  import opened GpuWiring

  function SumCount(f: seq<seq<int>>, cluster: seq<int>): nat {
    if f == [] then 0 else Overlap(f[0], cluster) + SumCount(f[1..], cluster)
  }

  /** Pairs of the cluster that share a group. */
  function SumPairs(f: seq<seq<int>>, cluster: seq<int>): nat {
    if f == [] then 0 else Pairs(Overlap(f[0], cluster)) + SumPairs(f[1..], cluster)
  }

  function Bitten(f: seq<seq<int>>, bait: Option<(int, int)>): nat {
    if f == [] then 0 else (if Bites(f[0], bait) then 1 else 0) + Bitten(f[1..], bait)
  }

  /** Ascending groups of `tp`, each on one machine. */
  predicate Groups(snap: HardwareSnapshot, f: seq<seq<int>>, tp: nat, ids: seq<int>) {
    forall g :: g in f ==> GroupOf(g, tp, ids) && Increasing(g) && OneNode(snap, g)
  }

  lemma {:induction false} ClusterGroupScore(
    snap: HardwareSnapshot, ids: seq<int>, cluster: seq<int>, bait: Option<(int, int)>, g: seq<int>)
    requires Scores(snap, ids, cluster, bait) && Within(g, ids) && Increasing(g) && OneNode(snap, g)
    ensures GroupScore(snap, g) == Worth(|g|, Overlap(g, cluster), Bites(g, bait))
  {
    SortedFixed(g);
    ClusterPairSum(snap, ids, cluster, bait, g);
  }

  lemma {:induction false} ClusterScore(
    snap: HardwareSnapshot, ids: seq<int>, cluster: seq<int>, bait: Option<(int, int)>, f: seq<seq<int>>, tp: nat)
    requires Scores(snap, ids, cluster, bait) && Groups(snap, f, tp, ids)
    ensures PartitionScore(snap, f)
         == Times(|f|, Pairs(tp)) + GAP * SumPairs(f, cluster) + BAIT * Bitten(f, bait)
  {
    hide Scores, GroupOf, OneNode, GroupScore, Overlap;
    if f != [] {
      assert f[0] in f && GroupOf(f[0], tp, ids);
      GroupWithin(f[0], tp, ids);
      ClusterGroupScore(snap, ids, cluster, bait, f[0]);
      ClusterScore(snap, ids, cluster, bait, f[1..], tp);
    }
  }

  lemma {:induction false} GroupWithin(g: seq<int>, tp: nat, ids: seq<int>)
    requires GroupOf(g, tp, ids)
    ensures |g| == tp && Within(g, ids)
  {
  }

  // ------------------------------------------------------------------ the cluster's GPUs are shared out

  lemma {:induction false} CountAgrees(s: seq<int>, a: seq<int>, b: seq<int>)
    requires forall x :: x in s ==> (x in a <==> x in b)
    ensures Overlap(s, a) == Overlap(s, b)
  {
    if s != [] {
      var x := s[0];
      assert x in s;
      assert x in a <==> x in b;
      CountAgrees(s[1..], a, b);
    }
  }

  lemma {:induction false} CountTail(s: seq<int>, cluster: seq<int>)
    requires cluster != [] && Distinct(cluster) && Distinct(s)
    ensures Overlap(s, cluster) == Overlap(s, cluster[1..]) + if cluster[0] in s then 1 else 0
  {
    if s != [] {
      assert s == [s[0]] + s[1..] && cluster == [cluster[0]] + cluster[1..];
      assert s[0] !in s[1..] && cluster[0] !in cluster[1..];
      CountTail(s[1..], cluster);
    }
  }

  lemma {:induction false} CountNothing(s: seq<int>)
    ensures Overlap(s, []) == 0
  {
    if s != [] {
      CountNothing(s[1..]);
    }
  }

  lemma {:induction false} CountRest(s: seq<int>, cluster: seq<int>)
    requires Distinct(s) && Distinct(cluster)
    ensures Overlap(s, cluster) + |Without(cluster, s)| == |cluster|
  {
    if cluster == [] {
      CountNothing(s);
    } else {
      CountTail(s, cluster);
      CountRest(s, cluster[1..]);
    }
  }

  lemma {:induction false} WithoutDistinct(s: seq<int>, gone: seq<int>)
    requires Distinct(s)
    ensures Distinct(Without(s, gone))
  {
    if s != [] {
      WithoutDistinct(s[1..], gone);
      var rest := Without(s[1..], gone);
      assert forall k :: 0 <= k < |rest| ==> rest[k] in rest;
      assert s[0] !in s[1..];
    }
  }

  lemma {:induction false} SumCountAgrees(f: seq<seq<int>>, a: seq<int>, b: seq<int>)
    requires forall g, x :: g in f && x in g ==> (x in a <==> x in b)
    ensures SumCount(f, a) == SumCount(f, b)
  {
    if f != [] {
      assert f[0] in f;
      CountAgrees(f[0], a, b);
      SumCountAgrees(f[1..], a, b);
    }
  }

  /** Disjoint groups hold at most the whole cluster. */
  lemma {:induction false} SumCountBound(f: seq<seq<int>>, cluster: seq<int>)
    requires PairwiseDisjoint(f) && Distinct(cluster) && forall g :: g in f ==> Distinct(g)
    ensures SumCount(f, cluster) <= |cluster|
  {
    if f != [] {
      var g, rest := f[0], f[1..];
      var left := Without(cluster, g);
      assert g in f;
      CountRest(g, cluster);
      WithoutDistinct(cluster, g);
      FirstApart(f);
      assert forall h, x :: h in rest && x in h ==> (x in cluster <==> x in left);
      SumCountAgrees(rest, cluster, left);
      SumCountBound(rest, left);
    }
  }

  lemma {:induction false} SumCountMember(f: seq<seq<int>>, cluster: seq<int>, i: nat)
    requires i < |f|
    ensures Overlap(f[i], cluster) <= SumCount(f, cluster)
  {
    if i > 0 {
      SumCountMember(f[1..], cluster, i - 1);
    }
  }

  lemma {:induction false} TwoMembers(f: seq<seq<int>>, cluster: seq<int>, i: nat, j: nat)
    requires i < |f| && j < |f| && i != j
    ensures Overlap(f[i], cluster) + Overlap(f[j], cluster) <= SumCount(f, cluster)
  {
    if i == 0 {
      SumCountMember(f[1..], cluster, j - 1);
    } else if j == 0 {
      SumCountMember(f[1..], cluster, i - 1);
    } else {
      TwoMembers(f[1..], cluster, i - 1, j - 1);
    }
  }

  // ------------------------------------------------------------------ a split cluster loses pairs

  lemma {:induction false} PairsTwice(n: nat)
    ensures 2 * Pairs(n) == n * n - n
  {
    if n > 0 {
      PairsTwice(n - 1);
      assert (n - 1) * (n - 1) == n * n - 2 * n + 1;
    }
  }

  lemma {:induction false} PairsOfPart(h: nat, tp: nat)
    requires h < tp
    ensures 2 * Pairs(h) <= (tp - 2) * h
  {
    PairsTwice(h);
    assert (tp - 2) * h - (h * h - h) == (tp - 1 - h) * h;
    assert (tp - 1 - h) * h >= 0;
  }

  /** No group holds as many as `tp` of the cluster. */
  predicate Splits(f: seq<seq<int>>, cluster: seq<int>, tp: nat) {
    forall g :: g in f ==> Overlap(g, cluster) < tp
  }

  lemma {:induction false} SumPairsSplit(f: seq<seq<int>>, cluster: seq<int>, tp: nat)
    requires tp >= 2 && Splits(f, cluster, tp)
    ensures 2 * SumPairs(f, cluster) <= (tp - 2) * SumCount(f, cluster)
  {
    hide Pairs, Overlap;
    if f != [] {
      assert f[0] in f;
      var x, y := Overlap(f[0], cluster), SumCount(f[1..], cluster);
      PairsOfPart(x, tp);
      SumPairsSplit(f[1..], cluster, tp);
      ProductSum(tp - 2, x, y);
    }
  }

  lemma {:induction false} ProductSum(k: int, x: int, y: int)
    ensures k * (x + y) == k * x + k * y
  {
  }

  /** A cluster of `tp` that no group holds whole loses at least half a pair per GPU. */
  lemma {:induction false} SplitLoses(f: seq<seq<int>>, cluster: seq<int>, tp: nat)
    requires tp >= 2 && |cluster| == tp && Splits(f, cluster, tp)
    requires PairwiseDisjoint(f) && Distinct(cluster) && forall g :: g in f ==> Distinct(g)
    ensures 2 * SumPairs(f, cluster) + tp <= 2 * Pairs(tp)
  {
    hide Splits, SumCount, SumPairs, Pairs, PairwiseDisjoint;
    SumCountBound(f, cluster);
    SumPairsSplit(f, cluster, tp);
    ProductAtMost(tp - 2, SumCount(f, cluster), tp);
    PairsTwice(tp);
    assert (tp - 2) * tp == tp * tp - 2 * tp;
  }

  lemma {:induction false} ProductAtMost(k: nat, a: int, b: int)
    requires a <= b
    ensures k * a <= k * b
  {
  }

  lemma {:induction false} WholeCount(cluster: seq<int>, more: seq<int>)
    requires Within(cluster, more)
    ensures Overlap(cluster, more) == |cluster|
  {
    if cluster != [] {
      var x := cluster[0];
      assert x in cluster;
      assert x in more;
      WholeCount(cluster[1..], more);
    }
  }
}
