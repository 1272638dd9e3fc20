/** The pruned search loses no partition, returns a best one, and breaks ties canonically. */
module GpuOptimality {
  import opened Wrappers
  import opened Sequences
  import opened Hardware
  import opened GpuScores
  import opened GpuSearch

  // ------------------------------------------------------------------ completeness

  /** A partition that uses the anchor uses it in its first group. */
  lemma {:induction false} AnchorTail(f: seq<seq<int>>, tp: nat, n: nat, anchor: int, rest: seq<int>)
    requires tp >= 1 && n >= 1 && Increasing([anchor] + rest)
    requires Partition(f, tp, n, [anchor] + rest) && f[0][0] == anchor
    ensures ComboOf(f[0][1..], tp - 1, rest)
    ensures Partition(f[1..], tp, n - 1, Without(rest, f[0][1..]))
  {
    var ids, c, t := [anchor] + rest, f[0][1..], f[1..];
    assert GroupOf(f[0], tp, ids);
    forall x | x in c
      ensures x in rest
    {
      assert x in f[0] && x != anchor;
    }
    var left := Without(rest, c);
    forall j | 0 <= j < |t|
      ensures GroupOf(t[j], tp, left)
    {
      assert t[j] == f[j + 1] && GroupOf(f[j + 1], tp, ids) && Disjoint(f[0], f[j + 1]);
      forall x | x in t[j]
        ensures x in left
      {
        assert x in ids && x !in f[0] && f[0][0] in f[0];
        assert forall y :: y in c ==> y in f[0];
      }
    }
    forall i, j | 0 <= i < j < |t|
      ensures Disjoint(t[i], t[j])
    {
      assert Disjoint(f[i + 1], f[j + 1]);
    }
  }

  /** A partition that does not start at the anchor does not use it at all. */
  lemma {:induction false} SkipAnchor(f: seq<seq<int>>, tp: nat, n: nat, anchor: int, rest: seq<int>)
    requires tp >= 1 && n >= 1 && Increasing([anchor] + rest)
    requires Partition(f, tp, n, [anchor] + rest) && f[0][0] != anchor
    ensures Partition(f, tp, n, rest)
  {
    IncreasingTail(anchor, rest);
    var ids := [anchor] + rest;
    assert GroupOf(f[0], tp, ids) && f[0][0] in f[0];
    forall i | 0 <= i < |f|
      ensures GroupOf(f[i], tp, rest)
    {
      assert GroupOf(f[i], tp, ids);
      assert f[0][0] <= f[i][0];
      forall k | 0 <= k < |f[i]|
        ensures f[i][k] in rest
      {
        assert f[i][k] in f[i] && f[i][0] <= f[i][k];
      }
    }
  }

  /** Every partition is visited, and one exists only when there are enough GPUs. */
  lemma {:induction false} CompletionsComplete(tp: nat, n: nat, remaining: seq<int>, f: seq<seq<int>>)
    returns (i: nat)
    requires tp >= 1 && Increasing(remaining) && Partition(f, tp, n, remaining)
    ensures i < |Completions(tp, n, remaining)| && Completions(tp, n, remaining)[i] == f
    ensures |remaining| >= tp * n
    decreases |remaining|, 1
  {
    hide Anchored, Combinations, ConsEach;
    if n == 0 {
      i := 0;
    } else {
      assert GroupOf(f[0], tp, remaining) && f[0][0] in f[0];
      hide Canonical, Family;
      var anchor, rest := remaining[0], remaining[1..];
      assert [anchor] + rest == remaining;
      FewerThanAll(tp, n);
      if f[0][0] == anchor {
        i := AnchoredComplete(tp, n, anchor, rest, f);
      } else {
        IncreasingTail(anchor, rest);
        SkipAnchor(f, tp, n, anchor, rest);
        var k := CompletionsComplete(tp, n, rest, f);
        i := |Anchored(tp, n, anchor, rest, Combinations(rest, tp - 1))| + k;
      }
    }
  }

  lemma {:induction false} AnchoredComplete(tp: nat, n: nat, anchor: int, rest: seq<int>, f: seq<seq<int>>)
    returns (i: nat)
    requires tp >= 1 && n >= 1 && Increasing([anchor] + rest)
    requires Partition(f, tp, n, [anchor] + rest) && f[0][0] == anchor
    ensures i < |Anchored(tp, n, anchor, rest, Combinations(rest, tp - 1))|
    ensures Anchored(tp, n, anchor, rest, Combinations(rest, tp - 1))[i] == f
    ensures |rest| + 1 >= tp * n
    decreases |rest| + 1, 0
  {
    IncreasingTail(anchor, rest);
    var c := f[0][1..];
    var left := Without(rest, c);
    AnchorTail(f, tp, n, anchor, rest);
    var m := CombinationsComplete(rest, tp - 1, c);
    WithoutIncreasing(rest, c);
    WithoutLength(rest, c);
    var k := CompletionsComplete(tp, n - 1, left, f[1..]);
    FewerThanAll(tp, n);
    i := AnchoredHas(tp, n, anchor, rest, Combinations(rest, tp - 1), m, k);
    assert f[0] == [anchor] + c;
    assert f == [f[0]] + f[1..];
  }

  // ------------------------------------------------------------------ visiting order

  lemma {:induction false} AnchoredOrdered(
    tp: nat, n: nat, anchor: int, rest: seq<int>, combos: seq<seq<int>>, i: nat, j: nat)
    requires tp >= 1 && n >= 1 && Increasing([anchor] + rest)
    requires forall a, b :: 0 <= a < b < |combos| ==> SeqLess(combos[a], combos[b])
    requires i < j < |Anchored(tp, n, anchor, rest, combos)|
    ensures ListLess(Anchored(tp, n, anchor, rest, combos)[i], Anchored(tp, n, anchor, rest, combos)[j])
    decreases |rest| + 1, 0, |combos|
  {
    var g := [anchor] + combos[0];
    var left := Without(rest, combos[0]);
    var first := Completions(tp, n - 1, left);
    if j < |first| {
      IncreasingTail(anchor, rest);
      WithoutIncreasing(rest, combos[0]);
      CompletionsOrdered(tp, n - 1, left, i, j);
    } else if i >= |first| {
      AnchoredOrdered(tp, n, anchor, rest, combos[1..], i - |first|, j - |first|);
    } else {
      var m, k := AnchoredParts(tp, n, anchor, rest, combos[1..], j - |first|);
      var later := [anchor] + combos[1..][m];
      assert SeqLess(combos[0], combos[m + 1]);
      assert g[1..] == combos[0] && later[1..] == combos[m + 1];
      assert SeqLess(g, later);
    }
  }

  /** The recursion visits partitions in strictly increasing lexicographic order. */
  lemma {:induction false} CompletionsOrdered(tp: nat, n: nat, remaining: seq<int>, i: nat, j: nat)
    requires tp >= 1 && Increasing(remaining) && i < j < |Completions(tp, n, remaining)|
    ensures ListLess(Completions(tp, n, remaining)[i], Completions(tp, n, remaining)[j])
    decreases |remaining|, 1, 0
  {
    hide Anchored, Combinations, ConsEach, ListLess, SeqLess;
    if n > 0 {
      FewerThanAll(tp, n);
      var anchor, rest := remaining[0], remaining[1..];
      assert [anchor] + rest == remaining;
      var combos := Combinations(rest, tp - 1);
      var anchored := Anchored(tp, n, anchor, rest, combos);
      var f, g := Completions(tp, n, remaining)[i], Completions(tp, n, remaining)[j];
      if j < |anchored| {
        forall a, b | 0 <= a < b < |combos|
          ensures SeqLess(combos[a], combos[b])
        {
          IncreasingTail(anchor, rest);
          CombinationsOrdered(rest, tp - 1, a, b);
        }
        AnchoredOrdered(tp, n, anchor, rest, combos, i, j);
        assert f == anchored[i] && g == anchored[j];
      } else if i >= |anchored| {
        CompletionsOrdered(tp, n, rest, i - |anchored|, j - |anchored|);
        assert f == Completions(tp, n, rest)[i - |anchored|];
        assert g == Completions(tp, n, rest)[j - |anchored|];
      } else {
        AnchoredBeforeSkipped(tp, n, anchor, rest, i, j - |anchored|);
        assert f == anchored[i] && g == Completions(tp, n, rest)[j - |anchored|];
      }
    }
  }

  lemma {:induction false} AnchoredBeforeSkipped(tp: nat, n: nat, anchor: int, rest: seq<int>, i: nat, j: nat)
    requires tp >= 1 && n >= 1 && Increasing([anchor] + rest)
    requires i < |Anchored(tp, n, anchor, rest, Combinations(rest, tp - 1))|
    requires j < |Completions(tp, n, rest)|
    ensures ListLess(Anchored(tp, n, anchor, rest, Combinations(rest, tp - 1))[i], Completions(tp, n, rest)[j])
  {
    IncreasingTail(anchor, rest);
    var m, k := AnchoredParts(tp, n, anchor, rest, Combinations(rest, tp - 1), i);
    CompletionsSound(tp, n, rest, j);
    var g := Completions(tp, n, rest)[j];
    assert GroupOf(g[0], tp, rest) && g[0][0] in g[0];
  }

  // ------------------------------------------------------------------ what the fold keeps

  /** The fold keeps the first of the highest-scoring entries; `k` is its position, -1 for none. */
  lemma {:induction false} FoldFirstMax(snap: HardwareSnapshot, b: Best, fs: seq<seq<seq<int>>>) returns (k: int)
    ensures -1 <= k < |fs|
    ensures var r := FoldBest(snap, b, fs);
            && r.score >= b.score
            && (forall j :: 0 <= j < |fs| ==> PartitionScore(snap, fs[j]) <= r.score)
            && (k == -1 ==> r == b)
            && (k >= 0 ==> r == Best(Some(fs[k]), PartitionScore(snap, fs[k])) && r.score > b.score)
            && (forall j :: 0 <= j < k ==> PartitionScore(snap, fs[j]) < r.score)
    decreases |fs|
  {
    if fs == [] {
      k := -1;
    } else {
      var b' := Improve(snap, b, fs[0]);
      k := FoldFirstMax(snap, b', fs[1..]);
      assert forall j :: 1 <= j < |fs| ==> fs[j] == fs[1..][j - 1];
      if k >= 0 {
        k := k + 1;
      } else if b' != b {
        k := 0;
      }
    }
  }

  // ------------------------------------------------------------------ main theorems

  /** Nothing beats the returned partition, whatever the order of groups or of GPUs inside them. */
  lemma {:induction false} ExhaustiveIsOptimal(snap: HardwareSnapshot, tp: nat, n: nat, ids: seq<int>)
    requires tp >= 1 && Increasing(ids)
    ensures var r := Exhaustive(snap, tp, n, ids);
            r.Some? ==>
              && Partition(r.value, tp, n, ids)
              && PartitionScore(snap, r.value) >= 0
              && forall f :: Family(f, tp, n, ids) ==> PartitionScore(snap, f) <= PartitionScore(snap, r.value)
  {
    var fs := Completions(tp, n, ids);
    var k := FoldFirstMax(snap, Best(None, -1), fs);
    if k >= 0 {
      CompletionsSound(tp, n, ids, k);
      forall f | Family(f, tp, n, ids)
        ensures PartitionScore(snap, f) <= PartitionScore(snap, fs[k])
      {
        CanonicalFormFamily(f, tp, n, ids);
        CanonicalFormScore(snap, f);
        var j := CompletionsComplete(tp, n, ids, CanonicalForm(f));
        assert PartitionScore(snap, fs[j]) <= PartitionScore(snap, fs[k]);
      }
    }
  }

  /** Ties go to the lowest GPU indices: the answer is the lexicographically least optimum. */
  lemma {:induction false} ExhaustiveBreaksTiesLow(
    snap: HardwareSnapshot, tp: nat, n: nat, ids: seq<int>, f: seq<seq<int>>)
    requires tp >= 1 && Increasing(ids) && Exhaustive(snap, tp, n, ids).Some?
    requires Partition(f, tp, n, ids)
    requires PartitionScore(snap, f) == PartitionScore(snap, Exhaustive(snap, tp, n, ids).value)
    ensures var r := Exhaustive(snap, tp, n, ids).value; f == r || ListLess(r, f)
  {
    hide Completions, Partition, ListLess;
    var fs := Completions(tp, n, ids);
    var k := FoldFirstMax(snap, Best(None, -1), fs);
    var j := CompletionsComplete(tp, n, ids, f);
    if k < j {
      CompletionsOrdered(tp, n, ids, k, j);
    }
  }

  /** The search comes back empty-handed exactly when every family scores below zero. */
  lemma {:induction false} ExhaustiveFails(snap: HardwareSnapshot, tp: nat, n: nat, ids: seq<int>)
    requires tp >= 1 && Increasing(ids)
    ensures Exhaustive(snap, tp, n, ids).None?
       <==> forall f :: Family(f, tp, n, ids) ==> PartitionScore(snap, f) < 0
  {
    var fs := Completions(tp, n, ids);
    var k := FoldFirstMax(snap, Best(None, -1), fs);
    if k >= 0 {
      CompletionsSound(tp, n, ids, k);
      assert Family(fs[k], tp, n, ids);
    } else {
      forall f | Family(f, tp, n, ids)
        ensures PartitionScore(snap, f) < 0
      {
        CanonicalFormFamily(f, tp, n, ids);
        CanonicalFormScore(snap, f);
        var j := CompletionsComplete(tp, n, ids, CanonicalForm(f));
        assert PartitionScore(snap, fs[j]) <= -1;
      }
    }
  }

  /** A family of `n` groups of `tp` needs `tp * n` GPUs. */
  lemma {:induction false} FamilySize(f: seq<seq<int>>, tp: nat, n: nat, ids: seq<int>)
    requires tp >= 1 && Distinct(ids) && Family(f, tp, n, ids)
    ensures tp * n <= |ids|
  {
    SortedIncreasing(ids);
    forall i | 0 <= i < |f|
      ensures GroupOf(f[i], tp, Sorted(ids))
    {
      assert GroupOf(f[i], tp, ids);
    }
    CanonicalFormFamily(f, tp, n, Sorted(ids));
    var j := CompletionsComplete(tp, n, Sorted(ids), CanonicalForm(f));
  }

  lemma {:induction false} SplitRun(s: seq<int>, k: nat)
    requires Increasing(s) && k <= |s|
    ensures ComboOf(s[..k], k, s)
    ensures Within(s[k..], Without(s, s[..k]))
  {
    forall x | x in s[k..]
      ensures x in Without(s, s[..k])
    {
      var j :| 0 <= j < |s[k..]| && s[k..][j] == x;
      assert s[k + j] == x;
      assert forall i :: 0 <= i < k ==> s[i] < s[k + j];
    }
  }

  /** Enough GPUs always yield at least one partition: consecutive runs of `tp`. */
  lemma {:induction false} PartitionExists(tp: nat, n: nat, ids: seq<int>) returns (f: seq<seq<int>>)
    requires tp >= 1 && Increasing(ids) && tp * n <= |ids|
    ensures Partition(f, tp, n, ids)
    decreases n
  {
    if n == 0 {
      f := [];
    } else {
      FewerThanAll(tp, n);
      var anchor, rest := ids[0], ids[1..];
      assert [anchor] + rest == ids;
      var c, left := rest[..tp - 1], rest[tp - 1..];
      var t := PartitionExists(tp, n - 1, left);
      IncreasingTail(anchor, rest);
      SplitRun(rest, tp - 1);
      WidenPartition(t, tp, n - 1, left, Without(rest, c));
      ExtendPartition(anchor, rest, c, t, tp, n);
      f := [[anchor] + c] + t;
    }
  }
}
