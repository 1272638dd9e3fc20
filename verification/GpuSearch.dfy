/** The symmetry-broken exhaustive search: what it visits, in which order, and what it returns. */
module GpuSearch {
  import opened Wrappers
  import opened Sequences
  import opened Hardware
  import opened GpuScores

  /** `[[x, *c] for c in lists]`. */
  function ConsEach<T>(x: T, lists: seq<seq<T>>): (r: seq<seq<T>>)
    ensures |r| == |lists|
  {
    seq(|lists|, i requires 0 <= i < |lists| => [x] + lists[i])
  }

  /** `itertools.combinations(s, k)`, in its own order. */
  function Combinations(s: seq<int>, k: nat): seq<seq<int>> {
    if k == 0 then [[]]
    else if |s| < k then []
    else ConsEach(s[0], Combinations(s[1..], k - 1)) + Combinations(s[1..], k)
  }

  /** The completions the recursion visits with `n` groups still to choose, in visiting order. */
  function Completions(tp: nat, n: nat, remaining: seq<int>): seq<seq<seq<int>>>
    requires tp >= 1
    decreases |remaining|, 1, 0
  {
    if n == 0 then [[]]
    else if |remaining| < tp * n then []
    else
      FewerThanAll(tp, n);
      var rest := remaining[1..];
      Anchored(tp, n, remaining[0], rest, Combinations(rest, tp - 1))
      + if |remaining| > tp * n then Completions(tp, n, rest) else []
  }

  /** The completions whose first group is the anchor with one of `combos`. */
  function Anchored(tp: nat, n: nat, anchor: int, rest: seq<int>, combos: seq<seq<int>>): seq<seq<seq<int>>>
    requires tp >= 1 && n >= 1
    decreases |rest| + 1, 0, |combos|
  {
    if combos == [] then []
    else ConsEach([anchor] + combos[0], Completions(tp, n - 1, Without(rest, combos[0])))
         + Anchored(tp, n, anchor, rest, combos[1..])
  }

  lemma {:induction false} FewerThanAll(tp: nat, n: nat)
    requires tp >= 1 && n >= 1
    ensures tp * n >= 1 && tp * n >= tp && tp * n == tp * (n - 1) + tp
  {
  }

  /** `best` and `best_score`. */
  datatype Best = Best(groups: Option<seq<seq<int>>>, score: int)

  function Improve(snap: HardwareSnapshot, b: Best, f: seq<seq<int>>): Best {
    if PartitionScore(snap, f) > b.score then Best(Some(f), PartitionScore(snap, f)) else b
  }

  function FoldBest(snap: HardwareSnapshot, b: Best, fs: seq<seq<seq<int>>>): Best
    decreases |fs|
  {
    if fs == [] then b else FoldBest(snap, Improve(snap, b, fs[0]), fs[1..])
  }

  function Exhaustive(snap: HardwareSnapshot, tp: nat, n: nat, ids: seq<int>): Option<seq<seq<int>>>
    requires tp >= 1
  {
    FoldBest(snap, Best(None, -1), Completions(tp, n, ids)).groups
  }

  // ------------------------------------------------------------------ combinations

  predicate ComboOf(c: seq<int>, k: nat, s: seq<int>) {
    |c| == k && Increasing(c) && Within(c, s)
  }

  lemma {:induction false} CombinationsSound(s: seq<int>, k: nat, i: nat)
    requires Increasing(s) && i < |Combinations(s, k)|
    ensures ComboOf(Combinations(s, k)[i], k, s)
  {
    if k > 0 {
      var m := |Combinations(s[1..], k - 1)|;
      if i < m {
        CombinationsSound(s[1..], k - 1, i);
        var c := Combinations(s[1..], k - 1)[i];
        forall j | 0 <= j < |c|
          ensures s[0] < c[j]
        {
          assert c[j] in c;
        }
      } else {
        CombinationsSound(s[1..], k, i - m);
      }
    }
  }

  /** No combination is missed; a combination exists only when there are enough elements. */
  lemma {:induction false} CombinationsComplete(s: seq<int>, k: nat, c: seq<int>) returns (i: nat)
    requires Increasing(s) && ComboOf(c, k, s)
    ensures i < |Combinations(s, k)| && Combinations(s, k)[i] == c
    ensures |s| >= k
  {
    if k == 0 {
      i := 0;
    } else {
      assert c[0] in c;
      if c[0] == s[0] {
        forall x | x in c[1..]
          ensures x in s[1..]
        {
          assert x in c && x != s[0];
        }
        i := CombinationsComplete(s[1..], k - 1, c[1..]);
        assert c == [s[0]] + c[1..];
      } else {
        forall x | x in c
          ensures x in s[1..]
        {
          assert s[0] < c[0] by { assert c[0] in s; }
        }
        i := CombinationsComplete(s[1..], k, c);
        i := i + |Combinations(s[1..], k - 1)|;
      }
    }
  }

  /** The combinations with the first element come first, then those without it. */
  lemma {:induction false} CombinationsBlocks(s: seq<int>, k: nat, i: nat)
    requires k > 0 && i < |Combinations(s, k)|
    ensures |s| >= k
    ensures var m := |Combinations(s[1..], k - 1)|;
            if i < m then Combinations(s, k)[i] == [s[0]] + Combinations(s[1..], k - 1)[i]
            else i - m < |Combinations(s[1..], k)| && Combinations(s, k)[i] == Combinations(s[1..], k)[i - m]
  {
  }

  lemma {:induction false} SeqLessCons(x: int, a: seq<int>, b: seq<int>)
    requires SeqLess(a, b)
    ensures SeqLess([x] + a, [x] + b)
  {
    assert ([x] + a)[1..] == a && ([x] + b)[1..] == b;
  }

  lemma {:induction false} SeqLessHead(x: int, a: seq<int>, s: seq<int>, c: seq<int>)
    requires Increasing([x] + s) && c != [] && Within(c, s)
    ensures SeqLess([x] + a, c)
  {
    assert c[0] in c;
    IncreasingTail(x, s);
  }

  lemma {:induction false} CombinationsOrdered(s: seq<int>, k: nat, i: nat, j: nat)
    requires Increasing(s) && i < j < |Combinations(s, k)|
    ensures SeqLess(Combinations(s, k)[i], Combinations(s, k)[j])
  {
    if k > 0 {
      CombinationsBlocks(s, k, i);
      CombinationsBlocks(s, k, j);
      var rest := s[1..];
      var m := |Combinations(rest, k - 1)|;
      hide Combinations, SeqLess;
      if j < m {
        CombinationsOrdered(rest, k - 1, i, j);
        SeqLessCons(s[0], Combinations(rest, k - 1)[i], Combinations(rest, k - 1)[j]);
      } else if i >= m {
        CombinationsOrdered(rest, k, i - m, j - m);
      } else {
        CombinationsSound(rest, k, j - m);
        assert s == [s[0]] + rest;
        SeqLessHead(s[0], Combinations(rest, k - 1)[i], rest, Combinations(rest, k)[j - m]);
      }
    }
  }

  lemma {:induction false} WithoutIncreasing(s: seq<int>, gone: seq<int>)
    requires Increasing(s)
    ensures Increasing(Without(s, gone))
  {
    if s != [] {
      WithoutIncreasing(s[1..], gone);
      var t := Without(s[1..], gone);
      forall k | 0 <= k < |t|
        ensures s[0] < t[k]
      {
        assert t[k] in t;
      }
    }
  }

  lemma {:induction false} WithoutAgrees(s: seq<int>, a: seq<int>, b: seq<int>)
    requires forall x :: x in s ==> ((x in a) == (x in b))
    ensures Without(s, a) == Without(s, b)
  {
    if s != [] {
      var x := s[0];
      assert x in s;
      assert (x in a) == (x in b);
      assert s == [x] + s[1..];
      WithoutAgrees(s[1..], a, b);
    }
  }

  lemma {:induction false} WithoutLength(s: seq<int>, c: seq<int>)
    requires Increasing(s) && Increasing(c) && Within(c, s)
    ensures |Without(s, c)| == |s| - |c|
  {
    if s == [] {
      assert c != [] ==> c[0] in c;
    } else if c != [] && c[0] == s[0] {
      forall x | x in c[1..]
        ensures x in s[1..]
      {
        assert x in c && x != s[0];
      }
      forall x | x in s[1..]
        ensures x in c <==> x in c[1..]
      {
        assert x in c <==> x == c[0] || x in c[1..];
      }
      WithoutAgrees(s[1..], c, c[1..]);
      WithoutLength(s[1..], c[1..]);
    } else {
      forall x | x in c
        ensures x in s[1..] && x != s[0]
      {
        assert c[0] in c && c[0] in s;
      }
      WithoutLength(s[1..], c);
    }
  }

  // ------------------------------------------------------------------ what is visited

  /** A canonical family of `n` groups of `tp` over `ids`. */
  predicate Partition(f: seq<seq<int>>, tp: nat, n: nat, ids: seq<int>) {
    Family(f, tp, n, ids) && Canonical(f)
  }

  /** Locates an anchored completion: its first group's combination and its tail. */
  lemma {:induction false} AnchoredParts(tp: nat, n: nat, anchor: int, rest: seq<int>, combos: seq<seq<int>>, i: nat)
    returns (m: nat, k: nat)
    requires tp >= 1 && n >= 1 && i < |Anchored(tp, n, anchor, rest, combos)|
    ensures m < |combos| && k < |Completions(tp, n - 1, Without(rest, combos[m]))|
    ensures Anchored(tp, n, anchor, rest, combos)[i]
         == [[anchor] + combos[m]] + Completions(tp, n - 1, Without(rest, combos[m]))[k]
  {
    var first := Completions(tp, n - 1, Without(rest, combos[0]));
    if i < |first| {
      m, k := 0, i;
    } else {
      m, k := AnchoredParts(tp, n, anchor, rest, combos[1..], i - |first|);
      m := m + 1;
    }
  }

  lemma {:induction false} AnchoredHas(
    tp: nat, n: nat, anchor: int, rest: seq<int>, combos: seq<seq<int>>, m: nat, k: nat)
    returns (i: nat)
    requires tp >= 1 && n >= 1 && m < |combos|
    requires k < |Completions(tp, n - 1, Without(rest, combos[m]))|
    ensures i < |Anchored(tp, n, anchor, rest, combos)|
    ensures Anchored(tp, n, anchor, rest, combos)[i]
         == [[anchor] + combos[m]] + Completions(tp, n - 1, Without(rest, combos[m]))[k]
  {
    hide Completions, Without;
    if m == 0 {
      i := k;
    } else {
      i := AnchoredHas(tp, n, anchor, rest, combos[1..], m - 1, k);
      i := i + |Completions(tp, n - 1, Without(rest, combos[0]))|;
    }
  }

  /** An anchor with a combination of the rest, followed by a partition of what is left. */
  lemma {:induction false} ExtendPartition(anchor: int, rest: seq<int>, c: seq<int>, t: seq<seq<int>>, tp: nat, n: nat)
    requires tp >= 1 && n >= 1 && Increasing([anchor] + rest)
    requires ComboOf(c, tp - 1, rest) && Partition(t, tp, n - 1, Without(rest, c))
    ensures Partition([[anchor] + c] + t, tp, n, [anchor] + rest)
  {
    var g, ids := [anchor] + c, [anchor] + rest;
    IncreasingTail(anchor, rest);
    assert Increasing(g) by {
      forall j | 0 <= j < |c|
        ensures anchor < c[j]
      {
        assert c[j] in c;
      }
    }
    forall j | 0 <= j < |t|
      ensures anchor < t[j][0] && Disjoint(g, t[j]) && GroupOf(t[j], tp, ids)
    {
      assert t[j][0] in t[j];
      assert GroupOf(t[j], tp, Without(rest, c));
    }
  }

  lemma {:induction false} AnchoredSound(tp: nat, n: nat, anchor: int, rest: seq<int>, i: nat)
    requires tp >= 1 && n >= 1 && Increasing([anchor] + rest)
    requires i < |Anchored(tp, n, anchor, rest, Combinations(rest, tp - 1))|
    ensures Partition(Anchored(tp, n, anchor, rest, Combinations(rest, tp - 1))[i], tp, n, [anchor] + rest)
    decreases |rest| + 1, 0
  {
    hide Anchored, Combinations, Completions, Partition, Without, ComboOf;
    IncreasingTail(anchor, rest);
    var combos := Combinations(rest, tp - 1);
    var m, k := AnchoredParts(tp, n, anchor, rest, combos, i);
    CombinationsSound(rest, tp - 1, m);
    var left := Without(rest, combos[m]);
    WithoutIncreasing(rest, combos[m]);
    CompletionsSound(tp, n - 1, left, k);
    ExtendPartition(anchor, rest, combos[m], Completions(tp, n - 1, left)[k], tp, n);
  }

  lemma {:induction false} IncreasingTail(anchor: int, rest: seq<int>)
    requires Increasing([anchor] + rest)
    ensures Increasing(rest)
    ensures forall x :: x in rest ==> anchor < x
  {
    var s := [anchor] + rest;
    forall i, j | 0 <= i < j < |rest|
      ensures rest[i] < rest[j]
    {
      assert s[i + 1] < s[j + 1];
    }
    forall j | 0 <= j < |rest|
      ensures anchor < rest[j]
    {
      assert s[0] < s[j + 1];
    }
  }

  /** Everything visited is a partition. */
  lemma {:induction false} CompletionsSound(tp: nat, n: nat, remaining: seq<int>, i: nat)
    requires tp >= 1 && Increasing(remaining) && i < |Completions(tp, n, remaining)|
    ensures Partition(Completions(tp, n, remaining)[i], tp, n, remaining)
    decreases |remaining|, 1
  {
    if n > 0 {
      FewerThanAll(tp, n);
      var anchor, rest := remaining[0], remaining[1..];
      assert [anchor] + rest == remaining;
      var anchored := Anchored(tp, n, anchor, rest, Combinations(rest, tp - 1));
      var f := Completions(tp, n, remaining)[i];
      if i < |anchored| {
        AnchoredSound(tp, n, anchor, rest, i);
        assert f == anchored[i];
      } else {
        assert f == Completions(tp, n, rest)[i - |anchored|];
        CompletionsSound(tp, n, rest, i - |anchored|);
        WidenPartition(f, tp, n, rest, remaining);
      }
    }
  }

  lemma {:induction false} WidenPartition(f: seq<seq<int>>, tp: nat, n: nat, ids: seq<int>, more: seq<int>)
    requires Partition(f, tp, n, ids) && Within(ids, more)
    ensures Partition(f, tp, n, more)
  {
    forall i | 0 <= i < |f|
      ensures GroupOf(f[i], tp, more)
    {
      assert GroupOf(f[i], tp, ids);
    }
  }
}
