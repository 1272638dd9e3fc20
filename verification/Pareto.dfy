/** The Pareto front of throughput against p95 latency. */
module Pareto {
  import opened Wrappers
  import opened Numbers
  import opened Sorting
  import opened Scoring
  import opened Scores

  datatype ParetoPoint = ParetoPoint(concurrency: int, tps: real, latency: real, onFront: bool)

  /** `q` is as good as `p` in both respects and better in one. */
  predicate Dominates(q: ParetoPoint, p: ParetoPoint) {
    q.tps >= p.tps && q.latency <= p.latency && (q.tps > p.tps || q.latency < p.latency)
  }

  predicate Dominated(points: seq<ParetoPoint>, p: ParetoPoint) {
    exists q :: q in points && Dominates(q, p)
  }

  /** One point for every result that has a successful request. */
  function PointsOf(results: seq<BenchmarkResult>): (points: seq<ParetoPoint>)
    ensures forall p :: p in points <==> exists r :: r in results && r.successfulRequests > 0 && p == PointOf(r)
  {
    if results == [] then []
    else
      assert results == [results[0]] + results[1..];
      var rest := PointsOf(results[1..]);
      if results[0].successfulRequests > 0 then [PointOf(results[0])] + rest else rest
  }

  function PointOf(r: BenchmarkResult): ParetoPoint {
    ParetoPoint(r.concurrency, r.tokensPerSecond, r.latencyP95, true)
  }

  /** The points with their marks set: on the front exactly when undominated. */
  ghost predicate Marked(points: seq<ParetoPoint>, marked: seq<ParetoPoint>) {
    && |marked| == |points|
    && forall i :: 0 <= i < |points| ==> marked[i] == points[i].(onFront := !Dominated(points, points[i]))
  }

  /** Fastest first; among equally fast ones the one with more throughput first. */
  predicate ByLatencyThenThroughput(a: ParetoPoint, b: ParetoPoint) {
    a.latency < b.latency || (a.latency == b.latency && a.tps >= b.tps)
  }

  /** Two nested loops over the points, then a stable sort. */
  method ParetoFront(results: seq<BenchmarkResult>) returns (front: seq<ParetoPoint>, ghost marked: seq<ParetoPoint>)
    ensures Marked(PointsOf(results), marked)
    ensures front == StableSort(marked, ByLatencyThenThroughput)
    ensures multiset(front) == multiset(marked) && SortedBy(front, ByLatencyThenThroughput)
    ensures forall i, j :: 0 <= i < j < |front| ==>
      front[i].latency < front[j].latency || (front[i].latency == front[j].latency && front[i].tps >= front[j].tps)
  {
    var original := PointsOf(results);
    var points := original;
    for i := 0 to |original|
      invariant |points| == |original|
      invariant forall j :: 0 <= j < i ==> points[j] == original[j].(onFront := !Dominated(original, original[j]))
      invariant forall j :: i <= j < |points| ==> points[j] == original[j]
    {
      var dominated := false;
      var k := 0;
      while k < |points| && !dominated
        invariant k <= |points|
        invariant dominated ==> Dominated(original, original[i])
        invariant !dominated ==> forall j :: 0 <= j < k ==> !Dominates(original[j], original[i])
      {
        assert points[k] == original[k].(onFront := points[k].onFront);
        if k != i && Dominates(points[k], points[i]) {
          assert original[k] in original;
          dominated := true;
        }
        k := k + 1;
      }
      points := points[i := points[i].(onFront := !dominated)];
    }
    marked := points;
    StableSortSorted(points, ByLatencyThenThroughput);
    front := StableSort(points, ByLatencyThenThroughput);
  }

  // ------------------------------------------------------------------ what the front is

  lemma {:induction false} DominanceTransitive(a: ParetoPoint, b: ParetoPoint, c: ParetoPoint)
    requires Dominates(a, b) && Dominates(b, c)
    ensures Dominates(a, c)
  {
  }

  ghost function Dominators(points: seq<ParetoPoint>, p: ParetoPoint): set<ParetoPoint> {
    set q | q in points && Dominates(q, p)
  }

  lemma {:induction false} FewerDominators(points: seq<ParetoPoint>, q: ParetoPoint, p: ParetoPoint)
    requires q in points && Dominates(q, p)
    ensures |Dominators(points, q)| < |Dominators(points, p)|
  {
    var mine, theirs := Dominators(points, q), Dominators(points, p);
    assert q in theirs && q !in mine;
    assert mine <= theirs - {q};
    assert theirs == (theirs - {q}) + {q};
    SubsetSize(mine, theirs - {q});
  }

  /** A dominated point is dominated by one that is not. */
  lemma {:induction false} DominatedFromFront(points: seq<ParetoPoint>, p: ParetoPoint)
    requires Dominated(points, p)
    ensures exists q :: q in points && Dominates(q, p) && !Dominated(points, q)
    decreases |Dominators(points, p)|
  {
    var q :| q in points && Dominates(q, p);
    if Dominated(points, q) {
      FewerDominators(points, q, p);
      DominatedFromFront(points, q);
      var r :| r in points && Dominates(r, q) && !Dominated(points, r);
      DominanceTransitive(r, q, p);
    }
  }

  lemma {:induction false} MarkedSame(points: seq<ParetoPoint>, marked: seq<ParetoPoint>, i: nat)
    requires Marked(points, marked) && i < |points|
    ensures forall p :: Dominates(marked[i], p) <==> Dominates(points[i], p)
    ensures forall p :: Dominates(p, marked[i]) <==> Dominates(p, points[i])
  {
  }

  /** Points on the front do not dominate each other; every other point is dominated from the front. */
  lemma {:induction false} FrontSound(points: seq<ParetoPoint>, marked: seq<ParetoPoint>)
    requires Marked(points, marked)
    ensures forall p, q :: p in marked && q in marked && p.onFront ==> !Dominates(q, p)
    ensures forall p :: p in marked && !p.onFront ==> exists q :: q in marked && q.onFront && Dominates(q, p)
  {
    forall p, q | p in marked && q in marked && p.onFront
      ensures !Dominates(q, p)
    {
      var i :| 0 <= i < |marked| && marked[i] == p;
      var j :| 0 <= j < |marked| && marked[j] == q;
      MarkedSame(points, marked, i);
      MarkedSame(points, marked, j);
      assert points[j] in points;
    }
    forall p | p in marked && !p.onFront
      ensures exists q :: q in marked && q.onFront && Dominates(q, p)
    {
      var i :| 0 <= i < |marked| && marked[i] == p;
      MarkedSame(points, marked, i);
      DominatedFromFront(points, points[i]);
      var q :| q in points && Dominates(q, points[i]) && !Dominated(points, q);
      var j :| 0 <= j < |points| && points[j] == q;
      MarkedSame(points, marked, j);
      assert marked[j] in marked && marked[j].onFront && Dominates(marked[j], p);
    }
  }

  /** Along the returned order the front's throughput never falls: it rises with every extra latency. */
  lemma {:induction false} FrontRises(
    points: seq<ParetoPoint>, marked: seq<ParetoPoint>, front: seq<ParetoPoint>, i: nat, j: nat)
    requires Marked(points, marked)
    requires multiset(front) == multiset(marked) && SortedBy(front, ByLatencyThenThroughput)
    requires i < j < |front| && front[i].onFront && front[j].onFront
    ensures front[i].tps <= front[j].tps && front[i].latency <= front[j].latency
    ensures front[i].latency < front[j].latency ==> front[i].tps < front[j].tps
    ensures front[i].latency == front[j].latency ==> front[i].tps == front[j].tps
  {
    FrontSound(points, marked);
    assert front[i] in multiset(front) && front[j] in multiset(front);
    assert !Dominates(front[i], front[j]);
  }

  /**
   * The balanced winner of error-free results is on the front: its point is dominated by no other.
   */
  lemma {:induction false} BalancedWinnerOnFront(
    results: seq<BenchmarkResult>, cfg: ScoringConfig, root: real -> real, scored: seq<ScoredResult>)
    requires results != [] && IsRoot(root)
    requires cfg.errorPenaltyWeight >= 0.0 && cfg.maxErrorRate >= 0.0
    requires forall r :: r in results ==>
      r.successfulRequests > 0 && r.errorRate == 0.0 && r.tokensPerSecond > 0.0 && r.latencyP95 > 0.0
    requires |scored| == |results|
    requires forall i :: 0 <= i < |results| ==>
      scored[i] == ScoredOf(results[i], BALANCED, None, BestsOf(ValidOnes(results, cfg)), cfg, root)
    ensures SelectBest(scored).Some?
    ensures var w := SelectBest(scored).value.winner.result;
            w in results && !Dominated(PointsOf(results), PointOf(w))
  {
    hide SelectBest, Score, BestsOf, ValidOnes;
    SelectBestSound(scored);
    assert results[0] in results && scored[0] in scored && scored[0].Eligible();
    var winner := SelectBest(scored).value.winner;
    var w := winner.result;
    var i :| 0 <= i < |scored| && scored[i] == winner;
    assert results[i] == w;
    assert ErrorFactor(w, cfg) == 1.0 by {
      assert cfg.errorPenaltyWeight * 0.0 == 0.0;
    }
    forall p | p in PointsOf(results)
      ensures !Dominates(p, PointOf(w))
    {
      var q :| q in results && q.successfulRequests > 0 && p == PointOf(q);
      BalancedWinnerUndominated(results, None, cfg, root, scored, q);
    }
  }

  /** A throughput winner is dominated only by results of exactly its throughput, so only by a tie. */
  lemma {:induction false} ThroughputWinnerDominatedByTies(
    results: seq<BenchmarkResult>, cfg: ScoringConfig, root: real -> real, scored: seq<ScoredResult>, q: BenchmarkResult)
    requires cfg.maxErrorRate >= 0.0
    requires forall r :: r in results ==> r.successfulRequests > 0 && r.errorRate == 0.0
    requires |scored| == |results|
    requires forall i :: 0 <= i < |results| ==>
      scored[i] == ScoredOf(results[i], THROUGHPUT, None, BestsOf(ValidOnes(results, cfg)), cfg, root)
    requires SelectBest(scored).Some? && q in results
    requires Dominates(PointOf(q), PointOf(SelectBest(scored).value.winner.result))
    ensures q.tokensPerSecond == SelectBest(scored).value.winner.result.tokensPerSecond
  {
    hide SelectBest, BestsOf, ValidOnes;
    SelectBestSound(scored);
    var j :| 0 <= j < |results| && results[j] == q;
    assert scored[j] in scored && scored[j].Eligible();
    var winner := SelectBest(scored).value.winner;
    var i :| 0 <= i < |scored| && scored[i] == winner;
    assert results[i] in results;
  }
}
