/** The greedy heuristic for large machines, and the topologies on which it is optimal. */
module GpuGreedy {
  import opened Sequences
  import opened Hardware
  import opened GpuScores

  /** `max(cands, key=lambda c: (key(c), -c))`. */
  function Best(cands: seq<int>, key: int -> int): (r: int)
    requires cands != []
    ensures r in cands
    ensures forall c :: c in cands ==> key(c) < key(r) || (key(c) == key(r) && r <= c)
  {
    if |cands| == 1 then cands[0]
    else
      var b := Best(cands[1..], key);
      if key(cands[0]) > key(b) || (key(cands[0]) == key(b) && cands[0] <= b) then cands[0] else b
  }

  lemma {:induction false} BestUnique(cands: seq<int>, key: int -> int, r: int)
    requires r in cands
    requires forall c :: c in cands ==> key(c) < key(r) || (key(c) == key(r) && r <= c)
    ensures Best(cands, key) == r
  {
  }

  /** `sum(pair_score(i, j) for j in remaining if j != i)`. */
  function Connectivity(snap: HardwareSnapshot, i: int, remaining: seq<int>): int {
    Affinity(snap, i, Without(remaining, [i]))
  }

  function Seed(snap: HardwareSnapshot, remaining: seq<int>): (r: int)
    requires remaining != []
    ensures r in remaining
  {
    Best(remaining, i => Connectivity(snap, i, remaining))
  }

  function Next(snap: HardwareSnapshot, group: seq<int>, remaining: seq<int>): (r: int)
    requires remaining != []
    ensures r in remaining
  {
    Best(remaining, c => Affinity(snap, c, group))
  }

  /** Fills `group` up to `tp` members; returns it with the GPUs still unused. */
  function Grow(snap: HardwareSnapshot, tp: nat, group: seq<int>, remaining: seq<int>): (r: (seq<int>, seq<int>))
    requires |group| <= tp && tp <= |group| + |remaining|
    ensures |r.0| == tp && |r.1| == |group| + |remaining| - tp
    decreases tp - |group|
  {
    if |group| == tp then (group, remaining)
    else
      var x := Next(snap, group, remaining);
      Grow(snap, tp, group + [x], Remove(remaining, x))
  }

  function FirstGroup(snap: HardwareSnapshot, tp: nat, remaining: seq<int>): (r: (seq<int>, seq<int>))
    requires 1 <= tp <= |remaining|
    ensures |r.0| == tp && |r.1| == |remaining| - tp
  {
    var seed := Seed(snap, remaining);
    Grow(snap, tp, [seed], Remove(remaining, seed))
  }

  function Greedy(snap: HardwareSnapshot, tp: nat, n: nat, remaining: seq<int>): (r: seq<seq<int>>)
    requires tp >= 1 && tp * n <= |remaining|
    ensures |r| == n
    decreases n
  {
    if n == 0 then []
    else
      Affordable(tp, n, |remaining|);
      var first := FirstGroup(snap, tp, remaining);
      [Sorted(first.0)] + Greedy(snap, tp, n - 1, first.1)
  }

  lemma {:induction false} Affordable(tp: nat, n: nat, have: nat)
    requires tp >= 1 && n >= 1 && tp * n <= have
    ensures tp <= have && tp * (n - 1) <= have - tp
  {
    assert tp * n == tp * (n - 1) + tp;
  }

  // ------------------------------------------------------------------ the groups are disjoint

  predicate Apart(group: seq<int>, remaining: seq<int>) {
    Distinct(group) && Distinct(remaining) && Disjoint(group, remaining)
  }

  lemma {:induction false} MoveAcross(group: seq<int>, remaining: seq<int>, x: int)
    requires Apart(group, remaining) && x in remaining
    ensures Apart(group + [x], Remove(remaining, x))
    ensures forall y :: y in Remove(remaining, x) <==> y in remaining && y != x
  {
    RemoveDistinct(remaining, x);
    assert forall y :: y in group + [x] <==> y in group || y == x;
  }

  lemma {:induction false} GrowSound(snap: HardwareSnapshot, tp: nat, group: seq<int>, remaining: seq<int>)
    requires |group| <= tp && tp <= |group| + |remaining| && Apart(group, remaining)
    ensures var r := Grow(snap, tp, group, remaining);
            && Apart(r.0, r.1)
            && Within(r.1, remaining)
            && forall x :: x in r.0 ==> x in group || x in remaining
    decreases tp - |group|
  {
    if |group| < tp {
      var x := Next(snap, group, remaining);
      MoveAcross(group, remaining, x);
      GrowSound(snap, tp, group + [x], Remove(remaining, x));
    }
  }

  lemma {:induction false} FirstGroupSound(snap: HardwareSnapshot, tp: nat, remaining: seq<int>)
    requires 1 <= tp <= |remaining| && Distinct(remaining)
    ensures var r := FirstGroup(snap, tp, remaining);
            Apart(r.0, r.1) && Within(r.0, remaining) && Within(r.1, remaining)
  {
    var seed := Seed(snap, remaining);
    MoveAcross([], remaining, seed);
    assert [] + [seed] == [seed];
    GrowSound(snap, tp, [seed], Remove(remaining, seed));
  }

  lemma {:induction false} GreedyFamily(snap: HardwareSnapshot, tp: nat, n: nat, remaining: seq<int>)
    requires tp >= 1 && tp * n <= |remaining| && Distinct(remaining)
    ensures Family(Greedy(snap, tp, n, remaining), tp, n, remaining)
    ensures forall g :: g in Greedy(snap, tp, n, remaining) ==> Increasing(g)
    decreases n
  {
    hide FirstGroup, Sorted, Increasing;
    if n > 0 {
      Affordable(tp, n, |remaining|);
      FirstGroupSound(snap, tp, remaining);
      var (group, left) := FirstGroup(snap, tp, remaining);
      GreedyFamily(snap, tp, n - 1, left);
      SortedIncreasing(group);
      ConsFamily(Sorted(group), Greedy(snap, tp, n - 1, left), tp, n, left, remaining);
    }
  }

  lemma {:induction false} ConsFamily(g: seq<int>, f: seq<seq<int>>, tp: nat, n: nat, left: seq<int>, ids: seq<int>)
    requires n >= 1 && GroupOf(g, tp, ids) && Family(f, tp, n - 1, left)
    requires Within(left, ids) && Disjoint(g, left)
    ensures Family([g] + f, tp, n, ids)
  {
    forall i | 0 <= i < |f|
      ensures GroupOf(f[i], tp, ids) && Disjoint(g, f[i])
    {
      assert GroupOf(f[i], tp, left);
    }
  }

  // ------------------------------------------------------------------ islands

  /** `n` summands of `x`. */
  function Times(n: nat, x: int): int {
    if n == 0 then 0 else x + Times(n - 1, x)
  }

  /** The score of `n` GPUs whose pairs all score `x`. */
  function Clique(n: nat, x: int): int {
    if n == 0 then 0 else Times(n - 1, x) + Clique(n - 1, x)
  }

  lemma {:induction false} TimesLess(n: nat, x: int, y: int)
    requires n >= 1 && x < y
    ensures Times(n, x) < Times(n, y)
  {
    if n > 1 {
      TimesLess(n - 1, x, y);
    }
  }

  /** Pairs inside an island score `s`, pairs across islands score `t`, and `t < s`. */
  predicate Islands(snap: HardwareSnapshot, ids: seq<int>, island: int -> int, s: int, t: int) {
    t < s && forall a, b :: a in ids && b in ids && a != b ==>
      PairScore(snap, a, b) == if island(a) == island(b) then s else t
  }

  function CountIn(ids: seq<int>, island: int -> int, k: int): nat {
    if ids == [] then 0
    else (if island(ids[0]) == k then 1 else 0) + CountIn(ids[1..], island, k)
  }

  predicate AllIn(group: seq<int>, island: int -> int, k: int) {
    forall x :: x in group ==> island(x) == k
  }

  predicate SameIsland(g: seq<int>, island: int -> int) {
    forall x, y :: x in g && y in g ==> island(x) == island(y)
  }

  /** No group crosses an island. */
  predicate KeepsIslands(f: seq<seq<int>>, island: int -> int) {
    forall i :: 0 <= i < |f| ==> SameIsland(f[i], island)
  }

  /** Every island can be cut into whole groups. */
  ghost predicate WholeIslands(ids: seq<int>, island: int -> int, tp: nat)
    requires tp >= 1
  {
    forall k :: CountIn(ids, island, k) % tp == 0
  }

  lemma {:induction false} CountRemove(ids: seq<int>, island: int -> int, k: int, x: int)
    requires x in ids
    ensures CountIn(Remove(ids, x), island, k) == CountIn(ids, island, k) - (if island(x) == k then 1 else 0)
  {
    if ids[0] != x {
      CountRemove(ids[1..], island, k, x);
    }
  }

  lemma {:induction false} CountPositive(ids: seq<int>, island: int -> int, k: int) returns (x: int)
    requires CountIn(ids, island, k) > 0
    ensures x in ids && island(x) == k
  {
    if island(ids[0]) == k {
      x := ids[0];
    } else {
      x := CountPositive(ids[1..], island, k);
    }
  }

  lemma {:induction false} AffinityInIsland(
    snap: HardwareSnapshot, ids: seq<int>, island: int -> int, s: int, t: int, c: int, group: seq<int>, k: int)
    requires Islands(snap, ids, island, s, t) && c in ids && c !in group && Within(group, ids)
    requires AllIn(group, island, k)
    ensures Affinity(snap, c, group) == Times(|group|, if island(c) == k then s else t)
  {
    if group != [] {
      assert group[0] in group;
      AffinityInIsland(snap, ids, island, s, t, c, group[1..], k);
    }
  }

  /** While the seed's island has GPUs left, the next member comes from it. */
  lemma {:induction false} NextStaysInIsland(
    snap: HardwareSnapshot, ids: seq<int>, island: int -> int, s: int, t: int,
    group: seq<int>, remaining: seq<int>, k: int)
    requires Islands(snap, ids, island, s, t) && Apart(group, remaining)
    requires group != [] && AllIn(group, island, k) && Within(group, ids) && Within(remaining, ids)
    requires CountIn(remaining, island, k) > 0
    ensures island(Next(snap, group, remaining)) == k
  {
    var x := Next(snap, group, remaining);
    var y := CountPositive(remaining, island, k);
    assert x !in group && y !in group;
    AffinityInIsland(snap, ids, island, s, t, x, group, k);
    AffinityInIsland(snap, ids, island, s, t, y, group, k);
    TimesLess(|group|, t, s);
  }

  /** With `taken` GPUs of island `k` set aside, what remains fills every island in whole groups. */
  ghost predicate Completes(remaining: seq<int>, island: int -> int, k: int, taken: nat, tp: nat)
    requires tp >= 1
  {
    forall j :: (CountIn(remaining, island, j) + if j == k then taken else 0) % tp == 0
  }

  lemma {:induction false} CompletesMore(remaining: seq<int>, island: int -> int, k: int, taken: nat, tp: nat)
    requires 1 <= taken < tp && Completes(remaining, island, k, taken, tp)
    ensures CountIn(remaining, island, k) > 0
  {
    assert (CountIn(remaining, island, k) + taken) % tp == 0;
  }

  lemma {:induction false} CompletesStep(remaining: seq<int>, island: int -> int, x: int, taken: nat, tp: nat)
    requires tp >= 1 && x in remaining && Completes(remaining, island, island(x), taken, tp)
    ensures Completes(Remove(remaining, x), island, island(x), taken + 1, tp)
  {
    forall j
      ensures (CountIn(Remove(remaining, x), island, j) + if j == island(x) then taken + 1 else 0) % tp == 0
    {
      CountRemove(remaining, island, j, x);
      assert (CountIn(remaining, island, j) + if j == island(x) then taken else 0) % tp == 0;
    }
  }

  lemma {:induction false} CompletesWhole(remaining: seq<int>, island: int -> int, k: int, tp: nat)
    requires tp >= 1 && Completes(remaining, island, k, tp, tp)
    ensures WholeIslands(remaining, island, tp)
  {
    forall j
      ensures CountIn(remaining, island, j) % tp == 0
    {
      assert (CountIn(remaining, island, j) + if j == k then tp else 0) % tp == 0;
      AddMultiple(CountIn(remaining, island, j), tp);
    }
  }

  lemma {:induction false} GrowInIsland(
    snap: HardwareSnapshot, ids: seq<int>, island: int -> int, s: int, t: int,
    tp: nat, group: seq<int>, remaining: seq<int>, k: int)
    requires Islands(snap, ids, island, s, t) && Apart(group, remaining)
    requires group != [] && AllIn(group, island, k) && Within(group, ids) && Within(remaining, ids)
    requires |group| <= tp && tp <= |group| + |remaining|
    requires Completes(remaining, island, k, |group|, tp)
    ensures var r := Grow(snap, tp, group, remaining);
            AllIn(r.0, island, k) && WholeIslands(r.1, island, tp)
    decreases tp - |group|
  {
    hide Completes, WholeIslands, Islands, CountIn, Next;
    if |group| < tp {
      CompletesMore(remaining, island, k, |group|, tp);
      var x := Next(snap, group, remaining);
      NextStaysInIsland(snap, ids, island, s, t, group, remaining, k);
      MoveAcross(group, remaining, x);
      CompletesStep(remaining, island, x, |group|, tp);
      GrowInIsland(snap, ids, island, s, t, tp, group + [x], Remove(remaining, x), k);
    } else {
      CompletesWhole(remaining, island, k, tp);
    }
  }

  lemma {:induction false} AddMultiple(x: nat, tp: nat)
    requires tp >= 1
    ensures (x + tp) % tp == x % tp
  {
    var d := (x + tp) / tp - x / tp - 1;
    assert d * tp == x % tp - (x + tp) % tp;
    MultipleApart(d, tp);
  }

  lemma {:induction false} MultipleApart(d: int, m: nat)
    ensures d >= 1 ==> d * m >= m
    ensures d <= -1 ==> d * m <= -1 * m
  {
  }

  lemma {:induction false} FirstGroupInIsland(
    snap: HardwareSnapshot, ids: seq<int>, island: int -> int, s: int, t: int, tp: nat, remaining: seq<int>)
    returns (k: int)
    requires Islands(snap, ids, island, s, t) && Distinct(remaining) && Within(remaining, ids)
    requires 1 <= tp <= |remaining| && WholeIslands(remaining, island, tp)
    ensures var r := FirstGroup(snap, tp, remaining);
            AllIn(r.0, island, k) && WholeIslands(r.1, island, tp)
  {
    var seed := Seed(snap, remaining);
    k := island(seed);
    MoveAcross([], remaining, seed);
    assert [] + [seed] == [seed];
    assert Completes(remaining, island, k, 0, tp) by {
      assert forall j :: CountIn(remaining, island, j) % tp == 0;
    }
    CompletesStep(remaining, island, seed, 0, tp);
    hide Completes, WholeIslands, Islands;
    GrowInIsland(snap, ids, island, s, t, tp, [seed], Remove(remaining, seed), k);
  }

  /** No greedy group crosses an island. */
  lemma {:induction false} GreedyKeepsIslands(
    snap: HardwareSnapshot, ids: seq<int>, island: int -> int, s: int, t: int, tp: nat, n: nat, remaining: seq<int>)
    requires Islands(snap, ids, island, s, t) && Distinct(remaining) && Within(remaining, ids)
    requires tp >= 1 && tp * n <= |remaining| && WholeIslands(remaining, island, tp)
    ensures KeepsIslands(Greedy(snap, tp, n, remaining), island)
    decreases n
  {
    hide Islands, WholeIslands, FirstGroup, Sorted, AllIn, SameIsland;
    if n > 0 {
      Affordable(tp, n, |remaining|);
      FirstGroupSound(snap, tp, remaining);
      var k := FirstGroupInIsland(snap, ids, island, s, t, tp, remaining);
      var (group, left) := FirstGroup(snap, tp, remaining);
      GreedyKeepsIslands(snap, ids, island, s, t, tp, n - 1, left);
      SortedSameIsland(group, island, k);
    }
  }

  lemma {:induction false} SortedSameIsland(group: seq<int>, island: int -> int, k: int)
    requires AllIn(group, island, k)
    ensures SameIsland(Sorted(group), island)
  {
  }

  lemma {:induction false} AffinityAtMost(snap: HardwareSnapshot, c: int, group: seq<int>, s: int)
    requires forall x :: x in group ==> PairScore(snap, c, x) <= s
    ensures Affinity(snap, c, group) <= Times(|group|, s)
  {
    if group != [] {
      assert group[0] in group;
      AffinityAtMost(snap, c, group[1..], s);
    }
  }

  lemma {:induction false} TailOfIncreasing(g: seq<int>)
    requires Increasing(g) && g != []
    ensures Increasing(g[1..]) && g[0] !in g[1..] && Within(g[1..], g)
  {
    forall x | x in g[1..]
      ensures x != g[0] && x in g
    {
      var j :| 0 <= j < |g[1..]| && g[1..][j] == x;
      assert g[0] < g[j + 1];
    }
  }

  lemma {:induction false} CliqueAtMost(
    snap: HardwareSnapshot, ids: seq<int>, island: int -> int, s: int, t: int, g: seq<int>)
    requires Islands(snap, ids, island, s, t) && Increasing(g) && Within(g, ids)
    ensures PairSum(snap, g) <= Clique(|g|, s)
  {
    if g != [] {
      TailOfIncreasing(g);
      assert g[0] in g;
      AffinityAtMost(snap, g[0], g[1..], s);
      CliqueAtMost(snap, ids, island, s, t, g[1..]);
    }
  }

  lemma {:induction false} CliqueExact(
    snap: HardwareSnapshot, ids: seq<int>, island: int -> int, s: int, t: int, g: seq<int>, k: int)
    requires Islands(snap, ids, island, s, t) && Increasing(g) && Within(g, ids) && AllIn(g, island, k)
    ensures PairSum(snap, g) == Clique(|g|, s)
  {
    if g != [] {
      TailOfIncreasing(g);
      assert g[0] in g;
      AffinityInIsland(snap, ids, island, s, t, g[0], g[1..], k);
      CliqueExact(snap, ids, island, s, t, g[1..], k);
    }
  }

  /** Any family scores at most as much as that many cliques... */
  lemma {:induction false} FamilyAtMost(
    snap: HardwareSnapshot, ids: seq<int>, island: int -> int, s: int, t: int, tp: nat, f: seq<seq<int>>)
    requires Islands(snap, ids, island, s, t)
    requires forall i :: 0 <= i < |f| ==> GroupOf(f[i], tp, ids)
    ensures PartitionScore(snap, f) <= Times(|f|, Clique(tp, s))
  {
    if f != [] {
      SortedIncreasing(f[0]);
      CliqueAtMost(snap, ids, island, s, t, Sorted(f[0]));
      FamilyAtMost(snap, ids, island, s, t, tp, f[1..]);
    }
  }

  /** ... and one that respects islands scores exactly that. */
  lemma {:induction false} FamilyExact(
    snap: HardwareSnapshot, ids: seq<int>, island: int -> int, s: int, t: int, tp: nat, f: seq<seq<int>>)
    requires Islands(snap, ids, island, s, t) && tp >= 1 && KeepsIslands(f, island)
    requires forall i :: 0 <= i < |f| ==> GroupOf(f[i], tp, ids)
    ensures PartitionScore(snap, f) == Times(|f|, Clique(tp, s))
  {
    if f != [] {
      SortedIncreasing(f[0]);
      assert GroupOf(f[0], tp, ids) && f[0][0] in f[0] && SameIsland(f[0], island);
      CliqueExact(snap, ids, island, s, t, Sorted(f[0]), island(f[0][0]));
      FamilyExact(snap, ids, island, s, t, tp, f[1..]);
    }
  }

  /**
   * On island topologies whose islands split into whole groups, the greedy pass is as good as
   * any search: no group crosses an island and no family of as many groups scores more.
   */
  lemma {:induction false} GreedyOptimalOnIslands(
    snap: HardwareSnapshot, ids: seq<int>, island: int -> int, s: int, t: int, tp: nat, n: nat)
    requires Islands(snap, ids, island, s, t) && Distinct(ids)
    requires tp >= 1 && tp * n <= |ids| && WholeIslands(ids, island, tp)
    ensures var r := Greedy(snap, tp, n, ids);
            && Family(r, tp, n, ids)
            && KeepsIslands(r, island)
            && (forall f :: Family(f, tp, n, ids) ==> PartitionScore(snap, f) <= PartitionScore(snap, r))
  {
    GreedyFamily(snap, tp, n, ids);
    GreedyKeepsIslands(snap, ids, island, s, t, tp, n, ids);
    FamilyExact(snap, ids, island, s, t, tp, Greedy(snap, tp, n, ids));
    forall f | Family(f, tp, n, ids)
      ensures PartitionScore(snap, f) <= PartitionScore(snap, Greedy(snap, tp, n, ids))
    {
      FamilyAtMost(snap, ids, island, s, t, tp, f);
    }
  }
}
