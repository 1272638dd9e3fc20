/** How far a concurrency sweep goes, and which points it tries. */
module Sweeps {
  import opened Wrappers
  import opened Sequences
  import opened Numbers
  import opened Scoring
  import opened Scores

  /** `should_continue_sweep`. */
  predicate ShouldContinue(history: seq<BenchmarkResult>, slo: Option<LatencyConstraints>, cfg: ScoringConfig) {
    if history == [] then true
    else
      var last := history[|history| - 1];
      if !IsValid(last, cfg) || !Satisfies(last, slo) then false
      else if |history| < 2 then true
      else
        var best := Greatest(Throughputs(history)).value;
        var prev := history[|history| - 2];
        var gain := Gain(prev.tokensPerSecond, last.tokensPerSecond);
        if last.tokensPerSecond < Scaled(best, 1.0 - cfg.throughputDropStop) then false
        else if gain < cfg.plateauMinGain && Gain(prev.latencyP95, last.latencyP95) > cfg.plateauLatencyRise then false
        else if gain < cfg.plateauMinGain && |history| >= 3 then
          Gain(history[|history| - 3].tokensPerSecond, prev.tokensPerSecond) >= cfg.plateauMinGain
        else true
  }

  /** `next` gains as much over `prev` as a step has to. */
  predicate GainsEnough(prev: BenchmarkResult, next: BenchmarkResult, cfg: ScoringConfig) {
    next.tokensPerSecond
      >= prev.tokensPerSecond + Scaled(cfg.plateauMinGain, AtLeast(prev.tokensPerSecond, 0.000000001))
  }

  predicate KeepsLatency(prev: BenchmarkResult, next: BenchmarkResult, cfg: ScoringConfig) {
    next.latencyP95 <= prev.latencyP95 + Scaled(cfg.plateauLatencyRise, AtLeast(prev.latencyP95, 0.000000001))
  }

  /** `last` has not fallen too far behind the fastest point so far. */
  ghost predicate HoldsUp(history: seq<BenchmarkResult>, last: BenchmarkResult, cfg: ScoringConfig) {
    forall b :: b in history && (forall p :: p in history ==> p.tokensPerSecond <= b.tokensPerSecond) ==>
      last.tokensPerSecond >= Scaled(b.tokensPerSecond, 1.0 - cfg.throughputDropStop)
  }

  /**
   * When a sweep goes on: the last point is valid and within the SLO and, from the second point on,
   * holds up against the fastest; and it gained enough, or kept latency and is not the second in a
   * row that gained too little.
   */
  lemma {:induction false} GoesOnExactly(history: seq<BenchmarkResult>, slo: Option<LatencyConstraints>, cfg: ScoringConfig)
    requires history != []
    ensures var n, last := |history|, history[|history| - 1];
      ShouldContinue(history, slo, cfg) <==>
      && Eligible(last, slo, cfg)
      && (n >= 2 ==>
            && HoldsUp(history, last, cfg)
            && (|| GainsEnough(history[n - 2], last, cfg)
                || (&& KeepsLatency(history[n - 2], last, cfg)
                    && (n >= 3 ==> GainsEnough(history[n - 3], history[n - 2], cfg)))))
  {
    hide Gain, Scaled, IsValid, Satisfies, HoldsUp, AtLeast, Greatest, Throughputs;
    var n, last := |history|, history[|history| - 1];
    if n >= 2 {
      var prev := history[n - 2];
      FastestHolds(history, last, cfg);
      GainExactly(prev.tokensPerSecond, last.tokensPerSecond, cfg.plateauMinGain);
      GainExactly(prev.latencyP95, last.latencyP95, cfg.plateauLatencyRise);
      if n >= 3 {
        GainExactly(history[n - 3].tokensPerSecond, prev.tokensPerSecond, cfg.plateauMinGain);
      }
    }
  }

  lemma {:induction false} FastestHolds(history: seq<BenchmarkResult>, last: BenchmarkResult, cfg: ScoringConfig)
    requires history != []
    ensures var best := Greatest(Throughputs(history));
      best.Some? &&
      (HoldsUp(history, last, cfg) <==> !(last.tokensPerSecond < Scaled(best.value, 1.0 - cfg.throughputDropStop)))
  {
    hide Scaled, Throughputs, Greatest;
    var best := FastestOf(history);
    if HoldsUp(history, last, cfg) {
      assert last.tokensPerSecond >= Scaled(best.tokensPerSecond, 1.0 - cfg.throughputDropStop);
    }
  }

  lemma {:induction false} FastestOf(history: seq<BenchmarkResult>) returns (best: BenchmarkResult)
    requires history != []
    ensures best in history && Greatest(Throughputs(history)) == Some(best.tokensPerSecond)
    ensures forall p :: p in history ==> p.tokensPerSecond <= best.tokensPerSecond
  {
    var all := Throughputs(history);
    var top := Greatest(all);
    assert all[0] in all;
    var i :| 0 <= i < |all| && all[i] == top.value;
    best := history[i];
    forall p | p in history
      ensures p.tokensPerSecond <= top.value
    {
      var j :| 0 <= j < |history| && history[j] == p;
      assert all[j] in all;
    }
  }

  /** Only a sweep's last point may be invalid or violate the SLO: the sweep stops there. */
  ghost predicate StopsAtFirstBad(history: seq<BenchmarkResult>, slo: Option<LatencyConstraints>, cfg: ScoringConfig) {
    forall k :: 0 <= k < |history| - 1 ==> Eligible(history[k], slo, cfg)
  }

  lemma {:induction false} GoodSoFar(
    history: seq<BenchmarkResult>, next: BenchmarkResult, slo: Option<LatencyConstraints>, cfg: ScoringConfig)
    requires StopsAtFirstBad(history, slo, cfg) && ShouldContinue(history, slo, cfg)
    ensures StopsAtFirstBad(history + [next], slo, cfg)
  {
    var more := history + [next];
    forall k | 0 <= k < |more| - 1
      ensures Eligible(more[k], slo, cfg)
    {
      assert more[k] == history[k];
    }
  }

  /** `sorted(set(points))`. */
  function Ascending(points: seq<int>): (r: seq<int>)
    ensures Increasing(r) && forall x :: x in r <==> x in points
  {
    if points == [] then []
    else
      assert points == [points[0]] + points[1..];
      var rest := Ascending(points[1..]);
      if points[0] in rest then rest
      else
        InsertIncreasing(points[0], rest);
        Insert(points[0], rest)
  }

  lemma {:induction false} InsertIncreasing(x: int, s: seq<int>)
    requires Increasing(s) && x !in s
    ensures Increasing(Insert(x, s))
  {
    if s != [] && s[0] < x {
      InsertIncreasing(x, s[1..]);
      var tail := Insert(x, s[1..]);
      forall k | 0 <= k < |tail|
        ensures s[0] < tail[k]
      {
        assert tail[k] in tail;
      }
    } else if s != [] {
      assert s[0] in s;
    }
  }

  /**
   * The points of a sweep: from the start, each grown from one before, as long as the limit allows,
   * and the limit itself.
   */
  ghost predicate Geometric(points: seq<int>, start: int, growth: int, upper: int) {
    && Increasing(points) && upper in points
    && (forall c :: c in points ==> c == upper || start <= c < upper)
    && (start <= upper ==> start in points)
    && (forall c :: c in points && GrownBy(c, growth) <= upper ==> GrownBy(c, growth) in points || c == upper)
    && (forall c :: c in points && c != start && c != upper ==> Reached(points, growth, c))
  }

  /** Concurrency grows geometrically up to the limit, which is always tried. */
  method SweepPoints(start: int, growth: int, upper: int) returns (points: seq<int>)
    requires start >= 1 && growth >= 2
    ensures Geometric(points, start, growth, upper)
  {
    hide GrownBy, Reached, Ascending, Increasing;
    points := [];
    var c := start;
    while c <= upper
      invariant c >= start
      invariant forall x :: x in points ==> start <= x <= upper && x < c
      invariant points == [] ==> c == start
      invariant points != [] ==> start in points
      invariant forall x :: x in points ==> GrownBy(x, growth) in points || GrownBy(x, growth) == c
      invariant forall x :: x in points && x != start ==> Reached(points, growth, x)
      invariant c != start ==> Reached(points, growth, c)
      decreases upper - c
    {
      Grows(c, growth);
      StillReached(points, c, growth);
      points := points + [c];
      c := GrownBy(c, growth);
    }
    ghost var grown := points;
    if points == [] || points[|points| - 1] < upper {
      StillReached(points, upper, growth);
      points := points + [upper];
    }
    assert points[|points| - 1] in points;
    assert forall x :: x in points <==> x in grown || x == upper;
    SameReached(points, Ascending(points), growth);
    points := Ascending(points);
  }

  function GrownBy(c: int, growth: int): int {
    c * growth
  }

  /** `c` is the growth step of an earlier point. */
  predicate Reached(points: seq<int>, growth: int, c: int) {
    exists b :: b in points && GrownBy(b, growth) == c
  }

  lemma {:induction false} StillReached(points: seq<int>, next: int, growth: int)
    ensures forall x :: Reached(points, growth, x) ==> Reached(points + [next], growth, x)
    ensures Reached(points + [next], growth, GrownBy(next, growth))
  {
    assert next in points + [next];
  }

  lemma {:induction false} SameReached(points: seq<int>, same: seq<int>, growth: int)
    requires forall x :: x in points <==> x in same
    ensures forall x :: Reached(points, growth, x) ==> Reached(same, growth, x)
  {
  }

  /** `c`, grown `k` times. */
  function Rung(c: int, growth: int, k: nat): int {
    if k == 0 then c else GrownBy(Rung(c, growth, k - 1), growth)
  }

  lemma {:induction false} Grows(c: int, growth: int)
    requires c >= 1 && growth >= 2
    ensures GrownBy(c, growth) > c
  {
  }
}
