/** Connectivity scores of groups and partitions, and what counts as a family of groups. */
module GpuScores {
  import opened Sequences
  import opened Hardware

  /** `sum(pair_score(c, m) for m in group)`. */
  function Affinity(snap: HardwareSnapshot, c: int, group: seq<int>): int {
    if group == [] then 0 else PairScore(snap, c, group[0]) + Affinity(snap, c, group[1..])
  }

  /** `sum(pair_score(a, b) for a, b in combinations(s, 2))`. */
  function PairSum(snap: HardwareSnapshot, s: seq<int>): int {
    if s == [] then 0 else Affinity(snap, s[0], s[1..]) + PairSum(snap, s[1..])
  }

  function GroupScore(snap: HardwareSnapshot, group: seq<int>): int {
    PairSum(snap, Sorted(group))
  }

  function PartitionScore(snap: HardwareSnapshot, groups: seq<seq<int>>): int {
    if groups == [] then 0
    else GroupScore(snap, groups[0]) + PartitionScore(snap, groups[1..])
  }

  predicate GroupOf(g: seq<int>, tp: nat, ids: seq<int>) {
    |g| == tp && Distinct(g) && Within(g, ids)
  }

  predicate NonEmptyGroups(f: seq<seq<int>>) {
    forall i :: 0 <= i < |f| ==> f[i] != []
  }

  predicate PairwiseDisjoint(f: seq<seq<int>>) {
    forall i, j :: 0 <= i < j < |f| ==> Disjoint(f[i], f[j])
  }

  /** `n` pairwise disjoint `tp`-element groups drawn from `ids`, in any order. */
  predicate Family(f: seq<seq<int>>, tp: nat, n: nat, ids: seq<int>) {
    && |f| == n
    && (forall i :: 0 <= i < |f| ==> GroupOf(f[i], tp, ids))
    && PairwiseDisjoint(f)
  }

  /** Each group ascending, groups ordered by their smallest GPU. */
  predicate Canonical(f: seq<seq<int>>) {
    && NonEmptyGroups(f)
    && (forall i :: 0 <= i < |f| ==> Increasing(f[i]))
    && (forall i, j :: 0 <= i < j < |f| ==> f[i][0] < f[j][0])
  }

  predicate NonNegativeScores(snap: HardwareSnapshot, ids: seq<int>) {
    forall a, b :: a in ids && b in ids ==> PairScore(snap, a, b) >= 0
  }

  lemma {:induction false} PartitionScoreConcat(snap: HardwareSnapshot, f: seq<seq<int>>, g: seq<seq<int>>)
    ensures PartitionScore(snap, f + g) == PartitionScore(snap, f) + PartitionScore(snap, g)
  {
    if f == [] {
      assert f + g == g;
    } else {
      assert (f + g)[1..] == f[1..] + g;
      PartitionScoreConcat(snap, f[1..], g);
    }
  }

  lemma {:induction false} AffinityNonNegative(snap: HardwareSnapshot, c: int, group: seq<int>, ids: seq<int>)
    requires NonNegativeScores(snap, ids) && c in ids && Within(group, ids)
    ensures Affinity(snap, c, group) >= 0
  {
    if group != [] {
      assert group[0] in group;
      AffinityNonNegative(snap, c, group[1..], ids);
    }
  }

  lemma {:induction false} PairSumNonNegative(snap: HardwareSnapshot, s: seq<int>, ids: seq<int>)
    requires NonNegativeScores(snap, ids) && Within(s, ids)
    ensures PairSum(snap, s) >= 0
  {
    if s != [] {
      assert s[0] in s;
      AffinityNonNegative(snap, s[0], s[1..], ids);
      PairSumNonNegative(snap, s[1..], ids);
    }
  }

  lemma {:induction false} PartitionScoreNonNegative(snap: HardwareSnapshot, f: seq<seq<int>>, tp: nat, ids: seq<int>)
    requires NonNegativeScores(snap, ids)
    requires forall i :: 0 <= i < |f| ==> GroupOf(f[i], tp, ids)
    ensures PartitionScore(snap, f) >= 0
  {
    if f != [] {
      PairSumNonNegative(snap, Sorted(f[0]), ids);
      PartitionScoreNonNegative(snap, f[1..], tp, ids);
    }
  }

  // ------------------------------------------------------------------ canonical form

  /** Groups sorted internally. */
  function SortGroups(f: seq<seq<int>>): (r: seq<seq<int>>)
    ensures |r| == |f|
    ensures forall i :: 0 <= i < |f| ==> r[i] == Sorted(f[i])
  {
    seq(|f|, i requires 0 <= i < |f| => Sorted(f[i]))
  }

  /** Stable insertion by the first element. */
  function InsertByHead(g: seq<int>, f: seq<seq<int>>): (r: seq<seq<int>>)
    requires g != [] && NonEmptyGroups(f)
    ensures |r| == |f| + 1 && NonEmptyGroups(r)
    ensures forall h :: h in r <==> h == g || h in f
  {
    if f == [] || g[0] <= f[0][0] then [g] + f
    else [f[0]] + InsertByHead(g, f[1..])
  }

  /** `sorted(f, key=lambda g: g[0])` for groups that are already ascending. */
  function SortByHead(f: seq<seq<int>>): (r: seq<seq<int>>)
    requires NonEmptyGroups(f)
    ensures |r| == |f| && NonEmptyGroups(r)
    ensures forall h :: h in r <==> h in f
  {
    if f == [] then [] else InsertByHead(f[0], SortByHead(f[1..]))
  }

  /** `[sorted(g) for g in sorted(groups, key=lambda g: min(g))]`. */
  function CanonicalForm(f: seq<seq<int>>): (r: seq<seq<int>>)
    requires NonEmptyGroups(f)
    ensures |r| == |f|
  {
    SortByHead(SortGroups(f))
  }

  lemma {:induction false} InsertByHeadScore(snap: HardwareSnapshot, g: seq<int>, f: seq<seq<int>>)
    requires g != [] && NonEmptyGroups(f)
    ensures PartitionScore(snap, InsertByHead(g, f)) == GroupScore(snap, g) + PartitionScore(snap, f)
  {
    if f != [] && g[0] > f[0][0] {
      InsertByHeadScore(snap, g, f[1..]);
    }
  }

  lemma {:induction false} SortByHeadScore(snap: HardwareSnapshot, f: seq<seq<int>>)
    requires NonEmptyGroups(f)
    ensures PartitionScore(snap, SortByHead(f)) == PartitionScore(snap, f)
  {
    if f != [] {
      SortByHeadScore(snap, f[1..]);
      InsertByHeadScore(snap, f[0], SortByHead(f[1..]));
    }
  }

  lemma {:induction false} SortGroupsScore(snap: HardwareSnapshot, f: seq<seq<int>>)
    ensures PartitionScore(snap, SortGroups(f)) == PartitionScore(snap, f)
  {
    if f != [] {
      SortGroupsScore(snap, f[1..]);
      assert SortGroups(f)[1..] == SortGroups(f[1..]);
      SortedFixed(Sorted(f[0]));
    }
  }

  /** Ordering the groups and their members never changes a partition's score. */
  lemma {:induction false} CanonicalFormScore(snap: HardwareSnapshot, f: seq<seq<int>>)
    requires NonEmptyGroups(f)
    ensures PartitionScore(snap, CanonicalForm(f)) == PartitionScore(snap, f)
  {
    SortGroupsScore(snap, f);
    SortByHeadScore(snap, SortGroups(f));
  }

  /** Ascending groups, pairwise disjoint and non-empty, strictly ordered by head. */
  lemma {:induction false} InsertByHeadCanonical(g: seq<int>, f: seq<seq<int>>)
    requires g != [] && Increasing(g) && Canonical(f)
    requires forall i :: 0 <= i < |f| ==> Disjoint(g, f[i])
    ensures Canonical(InsertByHead(g, f))
  {
    if f == [] {
    } else if g[0] <= f[0][0] {
      assert g[0] in g && f[0][0] in f[0];
      ConsCanonical(g, f);
    } else {
      assert Canonical(f[1..]);
      InsertByHeadCanonical(g, f[1..]);
      var tail := InsertByHead(g, f[1..]);
      forall k | 0 <= k < |tail|
        ensures f[0][0] < tail[k][0]
      {
        assert tail[k] in tail;
      }
      ConsCanonical(f[0], tail);
    }
  }

  lemma {:induction false} ConsCanonical(h: seq<int>, f: seq<seq<int>>)
    requires h != [] && Increasing(h) && Canonical(f)
    requires forall k :: 0 <= k < |f| ==> h[0] < f[k][0]
    ensures Canonical([h] + f)
  {
  }

  lemma {:induction false} SortByHeadCanonical(f: seq<seq<int>>)
    requires NonEmptyGroups(f) && forall i :: 0 <= i < |f| ==> Increasing(f[i])
    requires PairwiseDisjoint(f)
    ensures Canonical(SortByHead(f))
  {
    if f != [] {
      var tail := SortByHead(f[1..]);
      SortByHeadCanonical(f[1..]);
      forall k | 0 <= k < |tail|
        ensures Disjoint(f[0], tail[k])
      {
        assert tail[k] in tail;
      }
      InsertByHeadCanonical(f[0], tail);
    }
  }

  /** Heads differ, so groups drawn by value stay pairwise disjoint in the sorted order. */
  lemma {:induction false} InsertByHeadDisjoint(g: seq<int>, f: seq<seq<int>>)
    requires g != [] && NonEmptyGroups(f)
    requires forall i :: 0 <= i < |f| ==> Disjoint(g, f[i])
    requires PairwiseDisjoint(f)
    ensures PairwiseDisjoint(InsertByHead(g, f))
  {
    if f != [] && g[0] > f[0][0] {
      InsertByHeadDisjoint(g, f[1..]);
      var tail := InsertByHead(g, f[1..]);
      assert Disjoint(g, f[0]);
      forall k | 0 <= k < |tail|
        ensures Disjoint(f[0], tail[k])
      {
        assert tail[k] in tail;
      }
    }
  }

  lemma {:induction false} SortByHeadDisjoint(f: seq<seq<int>>)
    requires NonEmptyGroups(f)
    requires PairwiseDisjoint(f)
    ensures PairwiseDisjoint(SortByHead(f))
  {
    if f != [] {
      SortByHeadDisjoint(f[1..]);
      var tail := SortByHead(f[1..]);
      forall k | 0 <= k < |tail|
        ensures Disjoint(f[0], tail[k])
      {
        assert tail[k] in tail;
      }
      InsertByHeadDisjoint(f[0], tail);
    }
  }

  /** Every family has a canonical representative over the same GPUs. */
  lemma {:induction false} CanonicalFormFamily(f: seq<seq<int>>, tp: nat, n: nat, ids: seq<int>)
    requires tp >= 1 && Family(f, tp, n, ids)
    ensures Family(CanonicalForm(f), tp, n, ids) && Canonical(CanonicalForm(f))
  {
    var s := SortGroups(f);
    forall i | 0 <= i < |s|
      ensures GroupOf(s[i], tp, ids) && Increasing(s[i]) && s[i] != []
    {
      SortedIncreasing(f[i]);
    }
    forall i, j | 0 <= i < j < |s|
      ensures Disjoint(s[i], s[j])
    {
      assert Disjoint(f[i], f[j]);
    }
    SortByHeadCanonical(s);
    SortByHeadDisjoint(s);
    var r := SortByHead(s);
    forall i | 0 <= i < |r|
      ensures GroupOf(r[i], tp, ids)
    {
      assert r[i] in r;
    }
  }

  lemma {:induction false} SortByHeadFixed(f: seq<seq<int>>)
    requires Canonical(f)
    ensures SortByHead(f) == f
  {
    if f != [] {
      SortByHeadFixed(f[1..]);
    }
  }

  lemma {:induction false} CanonicalFormFixed(f: seq<seq<int>>)
    requires Canonical(f)
    ensures CanonicalForm(f) == f
  {
    forall i | 0 <= i < |f|
      ensures Sorted(f[i]) == f[i]
    {
      SortedFixed(f[i]);
    }
    assert SortGroups(f) == f;
    SortByHeadFixed(f);
  }
}
