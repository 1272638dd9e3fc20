/** Scores of benchmark results relative to each other, and the selection of a winner. */
module Scores {
  import opened Wrappers
  import opened Sorting
  import opened Scoring

  datatype ScoredResult = ScoredResult(result: BenchmarkResult, score: real, valid: bool, sloSatisfied: bool) {
    predicate Eligible() {
      valid && sloSatisfied
    }
  }

  /** The best value of every metric among the valid results. */
  datatype Bests = Bests(tps: Option<real>, latency: Option<real>, ttft: Option<real>, tpot: Option<real>)

  function Least(xs: seq<real>): (r: Option<real>)
    ensures r.None? <==> xs == []
    ensures r.Some? ==> r.value in xs && forall x :: x in xs ==> r.value <= x
  {
    if xs == [] then None
    else
      assert xs == [xs[0]] + xs[1..];
      var rest := Least(xs[1..]);
      if rest.Some? && rest.value < xs[0] then rest else Some(xs[0])
  }

  function Greatest(xs: seq<real>): (r: Option<real>)
    ensures r.None? <==> xs == []
    ensures r.Some? ==> r.value in xs && forall x :: x in xs ==> x <= r.value
  {
    if xs == [] then None
    else
      assert xs == [xs[0]] + xs[1..];
      var rest := Greatest(xs[1..]);
      if rest.Some? && rest.value > xs[0] then rest else Some(xs[0])
  }

  function Throughputs(results: seq<BenchmarkResult>): (r: seq<real>)
    ensures |r| == |results| && forall i :: 0 <= i < |r| ==> r[i] == results[i].tokensPerSecond
  {
    seq(|results|, i requires 0 <= i < |results| => results[i].tokensPerSecond)
  }

  function PositiveLatencies(results: seq<BenchmarkResult>): (r: seq<real>)
    ensures forall x :: x in r <==> x > 0.0 && exists q :: q in results && q.latencyP95 == x
  {
    if results == [] then []
    else
      assert results == [results[0]] + results[1..];
      var rest := PositiveLatencies(results[1..]);
      if results[0].latencyP95 > 0.0 then [results[0].latencyP95] + rest else rest
  }

  /** The measured values of an optional metric. */
  function Measured(values: seq<Option<real>>): (r: seq<real>)
    ensures forall x :: x in r <==> Some(x) in values
  {
    if values == [] then []
    else
      assert values == [values[0]] + values[1..];
      var rest := Measured(values[1..]);
      if values[0].Some? then [values[0].value] + rest else rest
  }

  function Ttfts(results: seq<BenchmarkResult>): (r: seq<Option<real>>)
    ensures |r| == |results| && forall i :: 0 <= i < |r| ==> r[i] == results[i].ttftP95
  {
    seq(|results|, i requires 0 <= i < |results| => results[i].ttftP95)
  }

  function Tpots(results: seq<BenchmarkResult>): (r: seq<Option<real>>)
    ensures |r| == |results| && forall i :: 0 <= i < |r| ==> r[i] == results[i].tpotP95
  {
    seq(|results|, i requires 0 <= i < |results| => results[i].tpotP95)
  }

  function BestsOf(valid: seq<BenchmarkResult>): Bests {
    Bests(
      Greatest(Throughputs(valid)), Least(PositiveLatencies(valid)),
      Least(Measured(Ttfts(valid))), Least(Measured(Tpots(valid))))
  }

  // ------------------------------------------------------------------ the formulas

  function ErrorFactor(r: BenchmarkResult, cfg: ScoringConfig): real {
    AtLeast(1.0 - cfg.errorPenaltyWeight * r.errorRate, 0.0)
  }

  function Ratio(best: Option<real>, value: Option<real>): Option<real> {
    if best.None? || value.None? || value.value <= 0.0 then None else Some(best.value / value.value)
  }

  function Part(weight: real, ratio: Option<real>): real {
    if ratio.Some? then weight * ratio.value else 0.0
  }

  function Weight(weight: real, ratio: Option<real>): real {
    if ratio.Some? then weight else 0.0
  }

  /** Weighted mean of the ratios that are known. */
  function LatencyMean(l: Option<real>, t: Option<real>, p: Option<real>): real {
    var total := Weight(0.5, l) + Weight(0.25, t) + Weight(0.25, p);
    if total == 0.0 then 0.0 else (Part(0.5, l) + Part(0.25, t) + Part(0.25, p)) / total
  }

  /** Throughput and latency relative to the best, multiplied. */
  function BalancedProduct(r: BenchmarkResult, bests: Bests): real {
    var tNorm := if bests.tps.Some? && bests.tps.value != 0.0 then r.tokensPerSecond / bests.tps.value else 0.0;
    var ratio := Ratio(bests.latency, Some(r.latencyP95));
    var lNorm := if ratio.Some? then ratio.value else 0.0;
    AtLeast(tNorm, 0.0) * AtLeast(lNorm, 0.0)
  }

  function Score(r: BenchmarkResult, objective: Objective, bests: Bests, cfg: ScoringConfig, root: real -> real): real {
    Performance(r, objective, bests, root) * ErrorFactor(r, cfg)
  }

  /** What the objective looks at, errors aside. `root` stands for the square root; only its order matters. */
  function Performance(r: BenchmarkResult, objective: Objective, bests: Bests, root: real -> real): real {
    match objective
    case THROUGHPUT => r.tokensPerSecond
    case LATENCY =>
      LatencyMean(Ratio(bests.latency, Some(r.latencyP95)), Ratio(bests.ttft, r.ttftP95), Ratio(bests.tpot, r.tpotP95))
    case BALANCED => root(BalancedProduct(r, bests))
  }

  function ScoredOf(
    r: BenchmarkResult, objective: Objective, slo: Option<LatencyConstraints>, bests: Bests, cfg: ScoringConfig,
    root: real -> real): ScoredResult
  {
    ScoredResult(r, Score(r, objective, bests, cfg, root), IsValid(r, cfg), Satisfies(r, slo))
  }

  /** Every result scored against the best of the valid ones, in order. */
  method ScoreResults(
    results: seq<BenchmarkResult>, objective: Objective, slo: Option<LatencyConstraints>, cfg: ScoringConfig,
    root: real -> real)
    returns (scored: seq<ScoredResult>)
    ensures |scored| == |results|
    ensures forall i :: 0 <= i < |results| ==>
      scored[i] == ScoredOf(results[i], objective, slo, BestsOf(ValidOnes(results, cfg)), cfg, root)
  {
    hide ScoredOf, BestsOf, ValidOnes;
    var bests := BestsOf(ValidOnes(results, cfg));
    scored := [];
    for i := 0 to |results|
      invariant |scored| == i
      invariant forall j :: 0 <= j < i ==> scored[j] == ScoredOf(results[j], objective, slo, bests, cfg, root)
    {
      scored := scored + [ScoredOf(results[i], objective, slo, bests, cfg, root)];
    }
  }

  // ------------------------------------------------------------------ selection

  predicate ByScore(a: ScoredResult, b: ScoredResult) {
    a.score >= b.score
  }

  function EligibleOnes(scored: seq<ScoredResult>): (r: seq<ScoredResult>)
    ensures forall s :: s in r <==> s in scored && s.Eligible()
  {
    if scored == [] then []
    else
      assert scored == [scored[0]] + scored[1..];
      if scored[0].Eligible() then [scored[0]] + EligibleOnes(scored[1..]) else EligibleOnes(scored[1..])
  }

  function ValidScored(scored: seq<ScoredResult>): (r: seq<ScoredResult>)
    ensures forall s :: s in r <==> s in scored && s.valid
  {
    if scored == [] then []
    else
      assert scored == [scored[0]] + scored[1..];
      if scored[0].valid then [scored[0]] + ValidScored(scored[1..]) else ValidScored(scored[1..])
  }

  datatype Selection = Selection(winner: ScoredResult, sloSatisfied: bool)

  /** The winner: eligible results first, then valid ones that violate the SLO. */
  function SelectBest(scored: seq<ScoredResult>): Option<Selection> {
    var eligible, valid := EligibleOnes(scored), ValidScored(scored);
    if eligible != [] then Some(Selection(First(eligible, ByScore), true))
    else if valid != [] then Some(Selection(First(valid, ByScore), false))
    else None
  }

  /** The winner is valid, satisfies the SLO if any valid result does, and is the best of its kind. */
  lemma {:induction false} SelectBestSound(scored: seq<ScoredResult>)
    ensures SelectBest(scored).None? <==> forall s :: s in scored ==> !s.valid
    ensures SelectBest(scored).Some? ==>
      var w := SelectBest(scored).value;
      && w.winner in scored && w.winner.valid
      && (w.sloSatisfied <==> exists s :: s in scored && s.Eligible())
      && w.sloSatisfied == w.winner.sloSatisfied
      && (forall s :: s in scored && s.valid && (s.sloSatisfied || !w.sloSatisfied) ==> w.winner.score >= s.score)
  {
    var eligible, valid := EligibleOnes(scored), ValidScored(scored);
    if eligible != [] {
      FirstIsLeast(eligible, ByScore);
    } else if valid != [] {
      FirstIsLeast(valid, ByScore);
    }
    assert eligible != [] ==> eligible[0] in eligible;
    assert valid != [] ==> valid[0] in valid;
  }

  lemma {:induction false} EligibleConcat(a: seq<ScoredResult>, b: seq<ScoredResult>)
    ensures EligibleOnes(a + b) == EligibleOnes(a) + EligibleOnes(b)
  {
    if a == [] {
      assert a + b == b;
    } else {
      assert (a + b)[1..] == a[1..] + b;
      EligibleConcat(a[1..], b);
    }
  }

  lemma {:induction false} ValidConcat(a: seq<ScoredResult>, b: seq<ScoredResult>)
    ensures ValidScored(a + b) == ValidScored(a) + ValidScored(b)
  {
    if a == [] {
      assert a + b == b;
    } else {
      assert (a + b)[1..] == a[1..] + b;
      ValidConcat(a[1..], b);
    }
  }

  /** The first of several that score the same wins: everything before the winner scores less. */
  lemma {:induction false} BeforeFirst(before: seq<ScoredResult>, after: seq<ScoredResult>)
    requires before + after != [] && First(before + after, ByScore) !in before
    ensures forall s :: s in before ==> s.score < First(before + after, ByScore).score
  {
    var all := before + after;
    var p := FirstAt(all, ByScore);
    assert forall k :: 0 <= k < |before| ==> all[k] == before[k] && before[k] in before;
    forall s | s in before
      ensures s.score < First(all, ByScore).score
    {
      var j :| 0 <= j < |before| && before[j] == s;
      assert all[j] == s;
    }
  }

  /** Of several that score the same, the first is selected. */
  lemma {:induction false} SelectBestFirst(scored: seq<ScoredResult>, i: nat)
    requires SelectBest(scored).Some? && i < |scored|
    requires var w := SelectBest(scored).value; scored[i] == w.winner && w.winner !in scored[..i]
    ensures var w := SelectBest(scored).value;
      forall s :: s in scored[..i] && s.valid && (s.sloSatisfied || !w.sloSatisfied) ==> s.score < w.winner.score
  {
    hide ByScore;
    var before, after := scored[..i], scored[i..];
    assert scored == before + after;
    EligibleConcat(before, after);
    ValidConcat(before, after);
    if EligibleOnes(scored) != [] {
      BeforeFirst(EligibleOnes(before), EligibleOnes(after));
    } else {
      BeforeFirst(ValidScored(before), ValidScored(after));
    }
  }

  // ------------------------------------------------------------------ what the scores mean

  /** What is used of the square root. */
  ghost predicate IsRoot(root: real -> real) {
    (forall x, y :: 0.0 <= x < y ==> root(x) < root(y)) && root(0.0) == 0.0 && root(1.0) == 1.0
  }

  /** `q` is at least as good as `r` in every respect the balanced objective looks at. */
  predicate AtLeastAsGood(q: BenchmarkResult, r: BenchmarkResult) {
    q.tokensPerSecond >= r.tokensPerSecond && q.latencyP95 <= r.latencyP95 && q.errorRate <= r.errorRate
  }

  predicate Strictly(q: BenchmarkResult, r: BenchmarkResult) {
    q.tokensPerSecond > r.tokensPerSecond || q.latencyP95 < r.latencyP95
  }

  lemma {:induction false} ProductOrder(a: real, b: real, c: real, d: real)
    requires 0.0 <= a <= b && 0.0 <= c <= d
    ensures 0.0 <= a * c <= b * d
    ensures 0.0 < b && 0.0 < d && (a < b || c < d) ==> a * c < b * d
  {
    assert a * c <= b * c;
    assert b * c <= b * d;
    if 0.0 < b && 0.0 < d && a < b {
      assert a * d < b * d;
      assert a * c <= a * d;
    }
  }

  lemma {:induction false} QuotientOrder(best: real, x: real, y: real)
    requires best > 0.0 && 0.0 < x <= y
    ensures 0.0 < best / y <= best / x
    ensures x < y ==> best / y < best / x
  {
    assert best / x * x == best;
    assert best / y * y == best;
    if best / y > best / x || (x < y && best / y == best / x) {
      ProductOrder(best / x, best / y, x, y);
      assert false;
    }
  }

  lemma {:induction false} ProportionOrder(best: real, x: real, y: real)
    requires best > 0.0 && 0.0 < x <= y
    ensures 0.0 < x / best <= y / best
    ensures x < y ==> x / best < y / best
  {
    assert x / best * best == x;
    assert y / best * best == y;
    if x / best > y / best || (x < y && x / best == y / best) {
      ProductOrder(y / best, x / best, best, best);
      assert false;
    }
  }

  lemma {:induction false} FactorOrder(q: BenchmarkResult, r: BenchmarkResult, cfg: ScoringConfig)
    requires q.errorRate <= r.errorRate && cfg.errorPenaltyWeight >= 0.0
    ensures ErrorFactor(q, cfg) >= ErrorFactor(r, cfg) >= 0.0
  {
    assert cfg.errorPenaltyWeight * (r.errorRate - q.errorRate) >= 0.0;
  }

  /** A better result has the greater balanced product, strictly when it is strictly better. */
  lemma {:induction false} BalancedOrder(q: BenchmarkResult, r: BenchmarkResult, bests: Bests)
    requires AtLeastAsGood(q, r) && r.tokensPerSecond > 0.0 && q.latencyP95 > 0.0
    requires bests.tps.Some? && bests.tps.value > 0.0 && bests.latency.Some? && bests.latency.value > 0.0
    ensures 0.0 < BalancedProduct(r, bests) <= BalancedProduct(q, bests)
    ensures Strictly(q, r) ==> BalancedProduct(r, bests) < BalancedProduct(q, bests)
  {
    ProportionOrder(bests.tps.value, r.tokensPerSecond, q.tokensPerSecond);
    QuotientOrder(bests.latency.value, q.latencyP95, r.latencyP95);
    ProductOrder(0.0, r.tokensPerSecond / bests.tps.value, 0.0, bests.latency.value / r.latencyP95);
    ProductOrder(
      r.tokensPerSecond / bests.tps.value, q.tokensPerSecond / bests.tps.value,
      bests.latency.value / r.latencyP95, bests.latency.value / q.latencyP95);
  }

  /** Being strictly better, with a penalty that is not total, means a strictly higher balanced score. */
  lemma {:induction false} BalancedScoreOrder(
    q: BenchmarkResult, r: BenchmarkResult, bests: Bests, cfg: ScoringConfig, root: real -> real)
    requires IsRoot(root) && cfg.errorPenaltyWeight >= 0.0 && ErrorFactor(r, cfg) > 0.0
    requires AtLeastAsGood(q, r) && Strictly(q, r) && r.tokensPerSecond > 0.0 && q.latencyP95 > 0.0
    requires bests.tps.Some? && bests.tps.value > 0.0 && bests.latency.Some? && bests.latency.value > 0.0
    ensures Score(q, BALANCED, bests, cfg, root) > Score(r, BALANCED, bests, cfg, root)
  {
    BalancedOrder(q, r, bests);
    FactorOrder(q, r, cfg);
    var x, y := root(BalancedProduct(r, bests)), root(BalancedProduct(q, bests));
    assert 0.0 < x < y;
    ProductOrder(x, y, ErrorFactor(r, cfg), ErrorFactor(q, cfg));
  }

  // ------------------------------------------------------------------ what errors cost

  /**
   * Whatever the objective, errors take their weighted share of the score a result would have
   * without any, up to all of it. Without errors the throughput score is the throughput.
   */
  lemma {:induction false} ErrorsCost(
    r: BenchmarkResult, objective: Objective, bests: Bests, cfg: ScoringConfig, root: real -> real)
    requires cfg.errorPenaltyWeight >= 0.0
    ensures var clean, lost := Score(r.(errorRate := 0.0), objective, bests, cfg, root),
                               cfg.errorPenaltyWeight * r.errorRate;
      && Score(r, objective, bests, cfg, root) == (if lost <= 1.0 then clean * (1.0 - lost) else 0.0)
      && (objective == THROUGHPUT ==> clean == r.tokensPerSecond)
  {
    FactorExactly(r, cfg);
    CleanScore(r, objective, bests, cfg, root);
    hide Score, ErrorFactor;
  }

  lemma {:induction false} FactorExactly(r: BenchmarkResult, cfg: ScoringConfig)
    ensures var lost := cfg.errorPenaltyWeight * r.errorRate;
            ErrorFactor(r, cfg) == if lost <= 1.0 then 1.0 - lost else 0.0
    ensures ErrorFactor(r.(errorRate := 0.0), cfg) == 1.0
  {
    assert cfg.errorPenaltyWeight * 0.0 == 0.0;
  }

  lemma {:induction false} CleanScore(
    r: BenchmarkResult, objective: Objective, bests: Bests, cfg: ScoringConfig, root: real -> real)
    ensures var clean := Score(r.(errorRate := 0.0), objective, bests, cfg, root);
            && Score(r, objective, bests, cfg, root) == clean * ErrorFactor(r, cfg)
            && (objective == THROUGHPUT ==> clean == r.tokensPerSecond)
  {
    FactorExactly(r, cfg);
    SamePerformance(r, objective, bests, root);
    hide Performance, ErrorFactor;
  }

  lemma {:induction false} SamePerformance(r: BenchmarkResult, objective: Objective, bests: Bests, root: real -> real)
    ensures Performance(r.(errorRate := 0.0), objective, bests, root) == Performance(r, objective, bests, root)
    ensures objective == THROUGHPUT ==> Performance(r, objective, bests, root) == r.tokensPerSecond
  {
    assert BalancedProduct(r.(errorRate := 0.0), bests) == BalancedProduct(r, bests);
    hide LatencyMean, Ratio, BalancedProduct;
  }

  // ------------------------------------------------------------------ what a latency metric is worth

  /**
   * A gain in one ratio raises the mean by its weight in what is known: half of it for the p95
   * latency and a quarter for the others if all three are, and more when some are not.
   */
  lemma {:induction false} MetricWorth(l: Option<real>, t: Option<real>, p: Option<real>, x: real, gain: real)
    ensures LatencyMean(Some(x + gain), t, p) == LatencyMean(Some(x), t, p) +
      gain / if t.Some? && p.Some? then 2.0 else if t.Some? || p.Some? then 1.5 else 1.0
    ensures LatencyMean(l, Some(x + gain), p) == LatencyMean(l, Some(x), p) +
      gain / if l.Some? && p.Some? then 4.0 else if l.Some? then 3.0 else if p.Some? then 2.0 else 1.0
    ensures LatencyMean(l, t, Some(x + gain)) == LatencyMean(l, t, Some(x)) +
      gain / if l.Some? && t.Some? then 4.0 else if l.Some? then 3.0 else if t.Some? then 2.0 else 1.0
  {
    LatencyWorth(t, p, x, gain);
    OtherWorth(l, p, x, gain);
    OtherWorth(l, t, x, gain);
    hide LatencyMean;
    OthersAlike(l, Some(x + gain), p);
    OthersAlike(l, Some(x), p);
    OthersAlike(l, t, Some(x + gain));
    OthersAlike(l, t, Some(x));
  }

  lemma {:induction false} LatencyWorth(t: Option<real>, p: Option<real>, x: real, gain: real)
    ensures LatencyMean(Some(x + gain), t, p) == LatencyMean(Some(x), t, p) +
      gain / if t.Some? && p.Some? then 2.0 else if t.Some? || p.Some? then 1.5 else 1.0
  {
    var rest := Part(0.25, t) + Part(0.25, p);
    if t.Some? && p.Some? {
      assert LatencyMean(Some(x), t, p) == (0.5 * x + rest) / 1.0;
    } else if t.Some? || p.Some? {
      assert LatencyMean(Some(x), t, p) == (0.5 * x + rest) / 0.75;
    } else {
      assert LatencyMean(Some(x), t, p) == (0.5 * x + rest) / 0.5;
    }
  }

  lemma {:induction false} OtherWorth(l: Option<real>, other: Option<real>, x: real, gain: real)
    ensures LatencyMean(l, Some(x + gain), other) == LatencyMean(l, Some(x), other) +
      gain / if l.Some? && other.Some? then 4.0 else if l.Some? then 3.0 else if other.Some? then 2.0 else 1.0
  {
    var rest := Part(0.5, l) + Part(0.25, other);
    if l.Some? && other.Some? {
      assert LatencyMean(l, Some(x), other) == (0.25 * x + rest) / 1.0;
    } else if l.Some? {
      assert LatencyMean(l, Some(x), other) == (0.25 * x + rest) / 0.75;
    } else if other.Some? {
      assert LatencyMean(l, Some(x), other) == (0.25 * x + rest) / 0.5;
    } else {
      assert LatencyMean(l, Some(x), other) == (0.25 * x + rest) / 0.25;
    }
  }

  lemma {:induction false} OthersAlike(l: Option<real>, t: Option<real>, p: Option<real>)
    ensures LatencyMean(l, t, p) == LatencyMean(l, p, t)
  {
  }

  /** Equal ratios have that mean, and without any there is none. */
  lemma {:induction false} EqualRatios(l: Option<real>, t: Option<real>, p: Option<real>, x: real)
    requires (l.Some? ==> l.value == x) && (t.Some? ==> t.value == x) && (p.Some? ==> p.value == x)
    ensures LatencyMean(l, t, p) == if l.Some? || t.Some? || p.Some? then x else 0.0
  {
  }

  /** `x` is known when `y` is, and no larger. */
  predicate NoSlower(x: Option<real>, y: Option<real>) {
    (x.Some? <==> y.Some?) && (x.Some? ==> 0.0 < x.value <= y.value)
  }

  predicate SomeFaster(x: Option<real>, y: Option<real>) {
    x.Some? && y.Some? && x.value < y.value
  }

  /** A best value to compare with exists whenever there is something to compare. */
  predicate Comparable(best: Option<real>, value: Option<real>) {
    value.Some? ==> best.Some? && best.value > 0.0
  }

  lemma {:induction false} RatioOrder(best: Option<real>, x: Option<real>, y: Option<real>)
    requires NoSlower(x, y) && Comparable(best, x)
    ensures var a, b := Ratio(best, x), Ratio(best, y);
      && (a.Some? <==> x.Some?) && (b.Some? <==> x.Some?)
      && (a.Some? ==> 0.0 < b.value <= a.value)
      && (SomeFaster(x, y) ==> b.value < a.value)
  {
    if x.Some? {
      QuotientOrder(best.value, x.value, y.value);
    }
  }

  lemma {:induction false} MeanOrder(
    l: Option<real>, t: Option<real>, p: Option<real>, l': Option<real>, t': Option<real>, p': Option<real>)
    requires (l.Some? <==> l'.Some?) && (t.Some? <==> t'.Some?) && (p.Some? <==> p'.Some?)
    requires (l.Some? ==> 0.0 < l'.value <= l.value) && (t.Some? ==> 0.0 < t'.value <= t.value)
    requires p.Some? ==> 0.0 < p'.value <= p.value
    ensures 0.0 <= LatencyMean(l', t', p') <= LatencyMean(l, t, p)
    ensures (l.Some? && l'.value < l.value) || (t.Some? && t'.value < t.value) || (p.Some? && p'.value < p.value) ==>
      0.0 < LatencyMean(l', t', p') < LatencyMean(l, t, p)
  {
    var total := Weight(0.5, l) + Weight(0.25, t) + Weight(0.25, p);
    if total > 0.0 {
      var few, many := Part(0.5, l') + Part(0.25, t') + Part(0.25, p'), Part(0.5, l) + Part(0.25, t) + Part(0.25, p);
      assert 0.0 < few <= many;
      ProportionOrder(total, few, many);
      MeanIs(l, t, p, total, many);
      MeanIs(l', t', p', total, few);
      hide LatencyMean;
    }
  }

  lemma {:induction false} MeanIs(l: Option<real>, t: Option<real>, p: Option<real>, total: real, parts: real)
    requires total == Weight(0.5, l) + Weight(0.25, t) + Weight(0.25, p) > 0.0
    requires parts == Part(0.5, l) + Part(0.25, t) + Part(0.25, p)
    ensures LatencyMean(l, t, p) == parts / total
  {
  }

  /** A result no slower in any latency metric and faster in one has the strictly higher latency score. */
  lemma {:induction false} LatencyScoreOrder(
    q: BenchmarkResult, r: BenchmarkResult, bests: Bests, cfg: ScoringConfig, root: real -> real)
    requires cfg.errorPenaltyWeight >= 0.0 && q.errorRate <= r.errorRate && ErrorFactor(r, cfg) > 0.0
    requires NoSlower(Some(q.latencyP95), Some(r.latencyP95)) && Comparable(bests.latency, Some(q.latencyP95))
    requires NoSlower(q.ttftP95, r.ttftP95) && Comparable(bests.ttft, q.ttftP95)
    requires NoSlower(q.tpotP95, r.tpotP95) && Comparable(bests.tpot, q.tpotP95)
    requires q.latencyP95 < r.latencyP95 || SomeFaster(q.ttftP95, r.ttftP95) || SomeFaster(q.tpotP95, r.tpotP95)
    ensures Score(q, LATENCY, bests, cfg, root) > Score(r, LATENCY, bests, cfg, root)
  {
    hide Ratio, LatencyMean, ErrorFactor;
    RatioOrder(bests.latency, Some(q.latencyP95), Some(r.latencyP95));
    RatioOrder(bests.ttft, q.ttftP95, r.ttftP95);
    RatioOrder(bests.tpot, q.tpotP95, r.tpotP95);
    MeanOrder(
      Ratio(bests.latency, Some(q.latencyP95)), Ratio(bests.ttft, q.ttftP95), Ratio(bests.tpot, q.tpotP95),
      Ratio(bests.latency, Some(r.latencyP95)), Ratio(bests.ttft, r.ttftP95), Ratio(bests.tpot, r.tpotP95));
    FactorOrder(q, r, cfg);
    var x := LatencyMean(
      Ratio(bests.latency, Some(r.latencyP95)), Ratio(bests.ttft, r.ttftP95), Ratio(bests.tpot, r.tpotP95));
    var y := LatencyMean(
      Ratio(bests.latency, Some(q.latencyP95)), Ratio(bests.ttft, q.ttftP95), Ratio(bests.tpot, q.tpotP95));
    ProductOrder(x, y, ErrorFactor(r, cfg), ErrorFactor(q, cfg));
  }

  /** Every valid result is part of what the bests were taken from. */
  lemma {:induction false} BestsBound(valid: seq<BenchmarkResult>, r: BenchmarkResult)
    requires r in valid && r.latencyP95 > 0.0
    ensures BestsOf(valid).tps.Some? && BestsOf(valid).tps.value >= r.tokensPerSecond
    ensures BestsOf(valid).latency.Some? && 0.0 < BestsOf(valid).latency.value <= r.latencyP95
  {
    var i :| 0 <= i < |valid| && valid[i] == r;
    assert Throughputs(valid)[i] in Throughputs(valid);
    assert r.latencyP95 in PositiveLatencies(valid);
  }

  /**
   * A balanced winner whose errors do not cost it everything is not dominated: no eligible result
   * with at most its error rate is as good in throughput and p95 latency and better in one of them.
   */
  lemma {:induction false} BalancedWinnerUndominated(
    results: seq<BenchmarkResult>, slo: Option<LatencyConstraints>, cfg: ScoringConfig, root: real -> real,
    scored: seq<ScoredResult>, q: BenchmarkResult)
    requires IsRoot(root) && cfg.errorPenaltyWeight >= 0.0
    requires |scored| == |results|
    requires forall i :: 0 <= i < |results| ==>
      scored[i] == ScoredOf(results[i], BALANCED, slo, BestsOf(ValidOnes(results, cfg)), cfg, root)
    requires SelectBest(scored).Some? && SelectBest(scored).value.sloSatisfied
    requires SelectBest(scored).value.winner.result.tokensPerSecond > 0.0
    requires ErrorFactor(SelectBest(scored).value.winner.result, cfg) > 0.0
    requires q in results && Scoring.Eligible(q, slo, cfg) && q.latencyP95 > 0.0
    ensures var w := SelectBest(scored).value.winner.result;
            w in results && !(AtLeastAsGood(q, w) && Strictly(q, w))
  {
    hide Score, BestsOf, ValidOnes, SelectBest, IsValid, Satisfies;
    SelectBestSound(scored);
    var valid := ValidOnes(results, cfg);
    var winner := SelectBest(scored).value.winner;
    var w := winner.result;
    var i :| 0 <= i < |scored| && scored[i] == winner;
    var j :| 0 <= j < |results| && results[j] == q;
    assert scored[j] in scored && scored[j].Eligible();
    if AtLeastAsGood(q, w) && Strictly(q, w) {
      assert q in valid && w in valid;
      BestsBound(valid, q);
      BalancedScoreOrder(q, w, BestsOf(valid), cfg, root);
      assert false;
    }
  }

  lemma {:induction false} PenaltyBelow(weight: real, rate: real, limit: real, worst: real)
    requires weight >= 0.0 && rate <= limit && worst == weight * limit && worst < 1.0
    ensures 1.0 - weight * rate > 0.0
  {
    var penalty := weight * rate;
    assert penalty <= worst;
  }

  /** Under such a configuration no valid result loses everything to its errors. */
  lemma {:induction false} FactorPositive(r: BenchmarkResult, cfg: ScoringConfig)
    requires IsValid(r, cfg) && cfg.errorPenaltyWeight >= 0.0 && cfg.errorPenaltyWeight * cfg.maxErrorRate < 1.0
    ensures ErrorFactor(r, cfg) > 0.0
  {
    PenaltyBelow(cfg.errorPenaltyWeight, r.errorRate, cfg.maxErrorRate, cfg.errorPenaltyWeight * cfg.maxErrorRate);
  }

  // ------------------------------------------------------------------ normalisation

  lemma {:induction false} RatioBound(best: real, value: real)
    requires 0.0 <= best <= value && value > 0.0
    ensures 0.0 <= best / value <= 1.0
  {
    var x := best / value;
    assert x * value == best && value != 0.0;
    if x > 1.0 {
      ProductOrder(1.0, x, value, value);
      assert false;
    }
    if x < 0.0 {
      ProductOrder(0.0, -x, 0.0, value);
      assert false;
    }
  }

  lemma {:induction false} ScaleBound(weight: real, x: real)
    requires weight >= 0.0 && 0.0 <= x <= 1.0
    ensures 0.0 <= weight * x <= weight
  {
    ProductOrder(0.0, x, 0.0, weight);
    ProductOrder(x, 1.0, weight, weight);
  }

  lemma {:induction false} MeanBound(l: Option<real>, t: Option<real>, p: Option<real>)
    requires l.Some? ==> 0.0 <= l.value <= 1.0
    requires t.Some? ==> 0.0 <= t.value <= 1.0
    requires p.Some? ==> 0.0 <= p.value <= 1.0
    ensures 0.0 <= LatencyMean(l, t, p) <= 1.0
  {
    var total := Weight(0.5, l) + Weight(0.25, t) + Weight(0.25, p);
    var parts := Part(0.5, l) + Part(0.25, t) + Part(0.25, p);
    if total > 0.0 {
      RatioBound(parts, total);
    }
  }

  /** A measured metric of a valid result is no better than the best one. */
  lemma {:induction false} OptionalBest(values: seq<Option<real>>, i: nat)
    requires i < |values| && forall j :: 0 <= j < |values| && values[j].Some? ==> values[j].value >= 0.0
    ensures var ratio := Ratio(Least(Measured(values)), values[i]);
            ratio.Some? ==> 0.0 <= ratio.value <= 1.0
  {
    if values[i].Some? && values[i].value > 0.0 {
      assert values[i] in values;
      assert values[i].value in Measured(values);
      var best := Least(Measured(values)).value;
      assert Some(best) in values;
      RatioBound(best, values[i].value);
    }
  }

  /** Latency and balanced scores of valid results with meaningful measurements lie between 0 and 1. */
  lemma {:induction false} NormalisedScores(
    results: seq<BenchmarkResult>, r: BenchmarkResult, objective: Objective, cfg: ScoringConfig, root: real -> real)
    requires objective != THROUGHPUT && IsRoot(root) && cfg.errorPenaltyWeight >= 0.0
    requires r in results && IsValid(r, cfg) && r.errorRate >= 0.0
    requires forall q :: q in results ==> Measurable(q)
    ensures 0.0 <= Score(r, objective, BestsOf(ValidOnes(results, cfg)), cfg, root) <= 1.0
  {
    hide BestsOf, IsValid, Score, ErrorFactor, IsRoot, Measurable, ValidOnes;
    var valid := ValidOnes(results, cfg);
    FactorBound(r, cfg);
    MeasurableBound(valid, r);
    if objective == LATENCY {
      OptionalBests(valid, r);
      LatencyScoreBound(r, BestsOf(valid), cfg, root);
    } else {
      BalancedScoreBound(r, BestsOf(valid), cfg, root);
    }
  }

  lemma {:induction false} FactorBound(r: BenchmarkResult, cfg: ScoringConfig)
    requires cfg.errorPenaltyWeight >= 0.0 && r.errorRate >= 0.0
    ensures 0.0 <= ErrorFactor(r, cfg) <= 1.0
  {
    ProductOrder(0.0, cfg.errorPenaltyWeight, 0.0, r.errorRate);
  }

  lemma {:induction false} MeasurableBound(valid: seq<BenchmarkResult>, r: BenchmarkResult)
    requires r in valid && Measurable(r)
    ensures BestsOf(valid).tps.Some? && 0.0 <= r.tokensPerSecond <= BestsOf(valid).tps.value
    ensures BestsOf(valid).latency.Some? && 0.0 < BestsOf(valid).latency.value <= r.latencyP95
  {
    hide BestsOf;
    BestsBound(valid, r);
  }

  /** All three ratios are at most one, and so is their weighted mean. */
  lemma {:induction false} LatencyScoreBound(r: BenchmarkResult, bests: Bests, cfg: ScoringConfig, root: real -> real)
    requires 0.0 <= ErrorFactor(r, cfg) <= 1.0
    requires bests.latency.Some? && 0.0 < bests.latency.value <= r.latencyP95
    requires Ratio(bests.ttft, r.ttftP95).Some? ==> 0.0 <= Ratio(bests.ttft, r.ttftP95).value <= 1.0
    requires Ratio(bests.tpot, r.tpotP95).Some? ==> 0.0 <= Ratio(bests.tpot, r.tpotP95).value <= 1.0
    ensures 0.0 <= Score(r, LATENCY, bests, cfg, root) <= 1.0
  {
    hide LatencyMean, ErrorFactor;
    var l := Ratio(bests.latency, Some(r.latencyP95));
    RatioBound(bests.latency.value, r.latencyP95);
    assert l == Some(bests.latency.value / r.latencyP95);
    hide Ratio;
    var mean := LatencyMean(l, Ratio(bests.ttft, r.ttftP95), Ratio(bests.tpot, r.tpotP95));
    MeanBound(l, Ratio(bests.ttft, r.ttftP95), Ratio(bests.tpot, r.tpotP95));
    UnitProduct(mean, ErrorFactor(r, cfg));
  }

  lemma {:induction false} BalancedScoreBound(r: BenchmarkResult, bests: Bests, cfg: ScoringConfig, root: real -> real)
    requires 0.0 <= ErrorFactor(r, cfg) <= 1.0 && IsRoot(root)
    requires bests.tps.Some? && 0.0 <= r.tokensPerSecond <= bests.tps.value
    requires bests.latency.Some? && 0.0 < bests.latency.value <= r.latencyP95
    ensures 0.0 <= Score(r, BALANCED, bests, cfg, root) <= 1.0
  {
    hide ErrorFactor, BalancedProduct;
    ProductBound(r, bests);
    var x := BalancedProduct(r, bests);
    RootBound(root, x);
    hide IsRoot;
    UnitProduct(root(x), ErrorFactor(r, cfg));
  }

  lemma {:induction false} RootBound(root: real -> real, x: real)
    requires IsRoot(root) && 0.0 <= x <= 1.0
    ensures 0.0 <= root(x) <= 1.0
  {
    assert root(0.0) == 0.0 && root(1.0) == 1.0;
  }

  lemma {:induction false} UnitProduct(x: real, y: real)
    requires 0.0 <= x <= 1.0 && 0.0 <= y <= 1.0
    ensures 0.0 <= x * y <= 1.0
  {
    ProductOrder(0.0, x, 0.0, y);
    ProductOrder(x, 1.0, y, 1.0);
  }

  predicate Measurable(q: BenchmarkResult) {
    && q.tokensPerSecond >= 0.0 && q.latencyP95 > 0.0
    && (q.ttftP95.Some? ==> q.ttftP95.value >= 0.0) && (q.tpotP95.Some? ==> q.tpotP95.value >= 0.0)
  }

  lemma {:induction false} OptionalBests(valid: seq<BenchmarkResult>, r: BenchmarkResult)
    requires r in valid && forall q :: q in valid ==> Measurable(q)
    ensures var ratio := Ratio(BestsOf(valid).ttft, r.ttftP95);
            ratio.Some? ==> 0.0 <= ratio.value <= 1.0
    ensures var ratio := Ratio(BestsOf(valid).tpot, r.tpotP95);
            ratio.Some? ==> 0.0 <= ratio.value <= 1.0
  {
    hide Ratio;
    var i :| 0 <= i < |valid| && valid[i] == r;
    assert forall j :: 0 <= j < |valid| ==> Measurable(valid[j]);
    OptionalBest(Ttfts(valid), i);
    OptionalBest(Tpots(valid), i);
  }

  lemma {:induction false} ProductBound(r: BenchmarkResult, bests: Bests)
    requires bests.tps.Some? && 0.0 <= r.tokensPerSecond <= bests.tps.value
    requires bests.latency.Some? && 0.0 < bests.latency.value <= r.latencyP95
    ensures 0.0 <= BalancedProduct(r, bests) <= 1.0
  {
    RatioBound(bests.latency.value, r.latencyP95);
    if bests.tps.value > 0.0 {
      RatioBound(r.tokensPerSecond, bests.tps.value);
      ScaleBound(r.tokensPerSecond / bests.tps.value, bests.latency.value / r.latencyP95);
    }
  }
}
