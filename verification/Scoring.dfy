/** Objective scores, SLO filtering, selection and the plateau rule for concurrency sweeps. */
module Scoring {
  import opened Wrappers
  import opened Sorting
  import opened Numbers

  datatype Objective = THROUGHPUT | LATENCY | BALANCED

  datatype BenchmarkResult = BenchmarkResult(
    concurrency: int,
    successfulRequests: int,
    tokensPerSecond: real,
    latencyP95: real,
    ttftP95: Option<real>,
    tpotP95: Option<real>,
    errorRate: real)

  datatype LatencyConstraints = LatencyConstraints(
    maxTtft: Option<real>, maxLatency: Option<real>, maxTpot: Option<real>)
  {
    predicate IsEmpty() {
      maxTtft.None? && maxLatency.None? && maxTpot.None?
    }
  }

  datatype ScoringConfig = ScoringConfig(
    maxErrorRate: real, errorPenaltyWeight: real, plateauMinGain: real, plateauLatencyRise: real,
    throughputDropStop: real)

  const DEFAULT_CONFIG := ScoringConfig(0.01, 5.0, 0.02, 0.1, 0.05)

  // ------------------------------------------------------------------ validity and SLO

  predicate IsValid(r: BenchmarkResult, cfg: ScoringConfig) {
    r.successfulRequests != 0 && r.errorRate <= cfg.maxErrorRate
  }

  /** A limit on a metric that may not have been measured. */
  predicate Meets(value: Option<real>, limit: Option<real>) {
    limit.Some? ==> value.Some? && value.value <= limit.value
  }

  /** `slo_violations` finds nothing. */
  predicate Satisfies(r: BenchmarkResult, slo: Option<LatencyConstraints>) {
    slo.Some? ==>
      && Meets(r.ttftP95, slo.value.maxTtft)
      && Meets(Some(r.latencyP95), slo.value.maxLatency)
      && Meets(r.tpotP95, slo.value.maxTpot)
  }

  /** A limit on what was not measured is violated; no limit at all is met by anything. */
  lemma {:induction false} UnmeasuredViolates(r: BenchmarkResult, slo: Option<LatencyConstraints>)
    ensures !HasSlo(slo) ==> Satisfies(r, slo)
    ensures slo.Some? && slo.value.maxTtft.Some? && r.ttftP95.None? ==> !Satisfies(r, slo)
    ensures slo.Some? && slo.value.maxTpot.Some? && r.tpotP95.None? ==> !Satisfies(r, slo)
  {
  }

  /** The SLO is met exactly when every limit, taken alone, is. */
  lemma {:induction false} EveryLimit(r: BenchmarkResult, limits: LatencyConstraints)
    ensures Satisfies(r, Some(limits)) <==>
      && Satisfies(r, Some(LatencyConstraints(limits.maxTtft, None, None)))
      && Satisfies(r, Some(LatencyConstraints(None, limits.maxLatency, None)))
      && Satisfies(r, Some(LatencyConstraints(None, None, limits.maxTpot)))
  {
  }

  predicate Eligible(r: BenchmarkResult, slo: Option<LatencyConstraints>, cfg: ScoringConfig) {
    IsValid(r, cfg) && Satisfies(r, slo)
  }

  function ValidOnes(results: seq<BenchmarkResult>, cfg: ScoringConfig): (v: seq<BenchmarkResult>)
    ensures forall r :: r in v <==> r in results && IsValid(r, cfg)
  {
    if results == [] then []
    else if IsValid(results[0], cfg) then [results[0]] + ValidOnes(results[1..], cfg)
    else ValidOnes(results[1..], cfg)
  }

  function SatisfyingOnes(results: seq<BenchmarkResult>, slo: Option<LatencyConstraints>): (v: seq<BenchmarkResult>)
    ensures forall r :: r in v <==> r in results && Satisfies(r, slo)
  {
    if results == [] then []
    else if Satisfies(results[0], slo) then [results[0]] + SatisfyingOnes(results[1..], slo)
    else SatisfyingOnes(results[1..], slo)
  }

  // ------------------------------------------------------------------ the plateau walk

  predicate ByConcurrency(a: BenchmarkResult, b: BenchmarkResult) {
    a.concurrency <= b.concurrency
  }

  function AtLeast(x: real, floor: real): (r: real)
    ensures r >= floor && r >= x
  {
    if x >= floor then x else floor
  }

  /** Relative gain of `next` over `current`. */
  function Gain(current: real, next: real): real {
    (next - current) / AtLeast(current, 0.000000001)
  }

  /** The plateau rule: `next` is worth its concurrency. */
  predicate Improves(current: BenchmarkResult, next: BenchmarkResult, cfg: ScoringConfig) {
    var gain := Gain(current.tokensPerSecond, next.tokensPerSecond);
    gain > 0.0
    && !(gain < cfg.plateauMinGain && Gain(current.latencyP95, next.latencyP95) > cfg.plateauLatencyRise)
  }

  /** `next` is faster, and gains enough or keeps latency within what the rule allows. */
  predicate WorthIt(current: BenchmarkResult, next: BenchmarkResult, cfg: ScoringConfig) {
    var tps, latency := AtLeast(current.tokensPerSecond, 0.000000001), AtLeast(current.latencyP95, 0.000000001);
    && next.tokensPerSecond > current.tokensPerSecond
    && (|| next.tokensPerSecond >= current.tokensPerSecond + Scaled(cfg.plateauMinGain, tps)
        || next.latencyP95 <= current.latencyP95 + Scaled(cfg.plateauLatencyRise, latency))
  }

  /** The rule compares quotients; it can as well compare products. */
  lemma {:induction false} ImprovesExactly(current: BenchmarkResult, next: BenchmarkResult, cfg: ScoringConfig)
    ensures Improves(current, next, cfg) <==> WorthIt(current, next, cfg)
  {
    hide Scaled, Gain;
    GainSign(current.tokensPerSecond, next.tokensPerSecond);
    GainExactly(current.tokensPerSecond, next.tokensPerSecond, cfg.plateauMinGain);
    GainExactly(current.latencyP95, next.latencyP95, cfg.plateauLatencyRise);
  }

  lemma {:induction false} GainExactly(current: real, next: real, limit: real)
    ensures Gain(current, next) < limit <==> next < current + Scaled(limit, AtLeast(current, 0.000000001))
    ensures Gain(current, next) > limit <==> next > current + Scaled(limit, AtLeast(current, 0.000000001))
  {
    hide Scaled, Gain;
    var base := AtLeast(current, 0.000000001);
    GainScaled(current, next);
    if Gain(current, next) < limit {
      ScaleUpStrictly(Gain(current, next), limit, base);
    } else if Gain(current, next) > limit {
      ScaleUpStrictly(limit, Gain(current, next), base);
    }
  }

  /**
   * The positions a walk along `pool` moves to: from each to the first later one worth it. Points in
   * between were compared with where the walk stood, and were not.
   */
  ghost predicate StepsAlong(pool: seq<BenchmarkResult>, path: seq<nat>, cfg: ScoringConfig) {
    && path != [] && path[|path| - 1] < |pool|
    && if |path| == 1 then path[0] == 0
       else
         var before, here := path[..|path| - 1], path[|path| - 1];
         var prev := before[|before| - 1];
         && StepsAlong(pool, before, cfg)
         && prev < here && WorthIt(pool[prev], pool[here], cfg)
         && forall j :: prev < j < here ==> !WorthIt(pool[prev], pool[j], cfg)
  }

  /** The walk's last step; nothing behind it is worth another. */
  ghost predicate WalkEnds(pool: seq<BenchmarkResult>, path: seq<nat>, chosen: BenchmarkResult, cfg: ScoringConfig) {
    && StepsAlong(pool, path, cfg)
    && chosen == pool[path[|path| - 1]]
    && forall j :: path[|path| - 1] < j < |pool| ==> !WorthIt(chosen, pool[j], cfg)
  }

  lemma {:induction false} OneMoreStep(pool: seq<BenchmarkResult>, path: seq<nat>, here: nat, cfg: ScoringConfig)
    requires StepsAlong(pool, path, cfg) && path[|path| - 1] < here < |pool|
    requires var prev := path[|path| - 1];
             WorthIt(pool[prev], pool[here], cfg) && forall j :: prev < j < here ==> !WorthIt(pool[prev], pool[j], cfg)
    ensures StepsAlong(pool, path + [here], cfg)
  {
    assert (path + [here])[..|path|] == path;
  }

  /** No point of `pool` beats `chosen` by more than the gain the rule asks for. */
  ghost predicate WithinRegret(pool: seq<BenchmarkResult>, chosen: BenchmarkResult, cfg: ScoringConfig) {
    forall p :: p in pool ==>
      p.tokensPerSecond <= chosen.tokensPerSecond
                           + Scaled(cfg.plateauMinGain, AtLeast(chosen.tokensPerSecond, 0.000000001))
  }

  lemma {:induction false} GainScaled(current: real, next: real)
    ensures Scaled(Gain(current, next), AtLeast(current, 0.000000001)) == next - current
  {
    ScaledQuotient(next - current, AtLeast(current, 0.000000001));
  }

  lemma {:induction false} GainSign(current: real, next: real)
    ensures Gain(current, next) > 0.0 <==> next > current
  {
    hide Scaled, Gain;
    var base := AtLeast(current, 0.000000001);
    GainScaled(current, next);
    if Gain(current, next) > 0.0 {
      ScaledPositive(Gain(current, next), base);
    } else {
      ScaledZero(base);
      ScaleUp(Gain(current, next), 0.0, base);
    }
  }

  lemma {:induction false} RegretSkip(current: BenchmarkResult, next: BenchmarkResult, cfg: ScoringConfig)
    requires !Improves(current, next, cfg) && cfg.plateauMinGain >= 0.0
    ensures WithinRegret([next], current, cfg)
  {
    hide Scaled, Gain;
    GainSign(current.tokensPerSecond, next.tokensPerSecond);
    if Gain(current.tokensPerSecond, next.tokensPerSecond) > 0.0 {
      GainExactly(current.tokensPerSecond, next.tokensPerSecond, cfg.plateauMinGain);
    }
  }

  lemma {:induction false} RegretStep(
    pool: seq<BenchmarkResult>, current: BenchmarkResult, next: BenchmarkResult, cfg: ScoringConfig)
    requires WithinRegret(pool, current, cfg) && Improves(current, next, cfg) && cfg.plateauMinGain >= 0.0
    ensures WithinRegret(pool + [next], next, cfg)
  {
    hide Scaled, Gain;
    GainSign(current.tokensPerSecond, next.tokensPerSecond);
    ScaleOrder(
      cfg.plateauMinGain, AtLeast(current.tokensPerSecond, 0.000000001), AtLeast(next.tokensPerSecond, 0.000000001));
  }

  /** Where the plateau rule leaves a walk along `pool`. */
  function Plateau(pool: seq<BenchmarkResult>, cfg: ScoringConfig): BenchmarkResult
    requires pool != []
  {
    var last := |pool| - 1;
    if last == 0 then pool[0]
    else
      var current := Plateau(pool[..last], cfg);
      if Improves(current, pool[last], cfg) then pool[last] else current
  }

  /**
   * The walk's outcome: it got there by steps that each were worth it, later points are not, and no
   * point beats it by much.
   */
  method Walk(pool: seq<BenchmarkResult>, cfg: ScoringConfig) returns (chosen: BenchmarkResult, ghost path: seq<nat>)
    requires pool != []
    ensures chosen == Plateau(pool, cfg) && WalkEnds(pool, path, chosen, cfg)
    ensures chosen.tokensPerSecond >= pool[0].tokensPerSecond
    ensures cfg.plateauMinGain >= 0.0 ==> WithinRegret(pool, chosen, cfg)
  {
    hide Improves, WithinRegret, WorthIt, StepsAlong;
    chosen, path := pool[0], [0];
    FirstRegret(pool[0], cfg);
    FirstStep(pool, cfg);
    assert pool[..1] == [pool[0]];
    for i := 1 to |pool|
      invariant path != [] && path[|path| - 1] < i && StepsAlong(pool, path, cfg)
      invariant chosen == pool[path[|path| - 1]] && chosen == Plateau(pool[..i], cfg)
      invariant forall k :: path[|path| - 1] < k < i ==> !WorthIt(chosen, pool[k], cfg)
      invariant chosen.tokensPerSecond >= pool[0].tokensPerSecond
      invariant cfg.plateauMinGain >= 0.0 ==> WithinRegret(pool[..i], chosen, cfg)
    {
      assert pool[..i + 1] == pool[..i] + [pool[i]];
      assert pool[..i + 1][..i] == pool[..i];
      RegretAfter(pool[..i], chosen, pool[i], cfg);
      ImprovesExactly(chosen, pool[i], cfg);
      if Improves(chosen, pool[i], cfg) {
        OneMoreStep(pool, path, i, cfg);
        chosen, path := pool[i], path + [i];
      }
    }
    assert pool[..|pool|] == pool;
  }

  lemma {:induction false} FirstStep(pool: seq<BenchmarkResult>, cfg: ScoringConfig)
    requires pool != []
    ensures StepsAlong(pool, [0], cfg)
  {
  }

  lemma {:induction false} FirstRegret(r: BenchmarkResult, cfg: ScoringConfig)
    ensures cfg.plateauMinGain >= 0.0 ==> WithinRegret([r], r, cfg)
  {
    hide Scaled;
  }

  lemma {:induction false} RegretAfter(
    seen: seq<BenchmarkResult>, current: BenchmarkResult, next: BenchmarkResult, cfg: ScoringConfig)
    ensures Improves(current, next, cfg) ==> next.tokensPerSecond > current.tokensPerSecond
    ensures cfg.plateauMinGain >= 0.0 && WithinRegret(seen, current, cfg) ==>
      WithinRegret(seen + [next], if Improves(current, next, cfg) then next else current, cfg)
  {
    GainSign(current.tokensPerSecond, next.tokensPerSecond);
    if cfg.plateauMinGain >= 0.0 && WithinRegret(seen, current, cfg) {
      if Improves(current, next, cfg) {
        RegretStep(seen, current, next, cfg);
      } else {
        RegretSkip(current, next, cfg);
        assert forall p :: p in seen + [next] ==> p in seen || p in [next];
      }
    }
  }

  // ------------------------------------------------------------------ choosing the operating point

  lemma {:induction false} SatisfyingSorted(
    results: seq<BenchmarkResult>, slo: Option<LatencyConstraints>, le: (BenchmarkResult, BenchmarkResult) -> bool)
    requires SortedBy(results, le)
    ensures SortedBy(SatisfyingOnes(results, slo), le)
  {
    if results != [] {
      var rest := SatisfyingOnes(results[1..], slo);
      SatisfyingSorted(results[1..], slo, le);
      assert forall k :: 0 <= k < |rest| ==> rest[k] in rest;
    }
  }

  predicate HasSlo(slo: Option<LatencyConstraints>) {
    slo.Some? && !slo.value.IsEmpty()
  }

  /** The points the choice is made from: the eligible ones, or all valid ones when none is eligible. */
  function Pool(history: seq<BenchmarkResult>, slo: Option<LatencyConstraints>, cfg: ScoringConfig)
    : (pool: seq<BenchmarkResult>)
  {
    var points := StableSort(ValidOnes(history, cfg), ByConcurrency);
    var eligible := SatisfyingOnes(points, slo);
    if eligible != [] then eligible else points
  }

  /** `p` is one of the points the choice is made from. */
  ghost predicate Considered(
    p: BenchmarkResult, history: seq<BenchmarkResult>, slo: Option<LatencyConstraints>, cfg: ScoringConfig)
  {
    p in history && IsValid(p, cfg) && (Satisfies(p, slo) || forall e :: e in history ==> !Eligible(e, slo, cfg))
  }

  lemma {:induction false} SortedSame(results: seq<BenchmarkResult>, cfg: ScoringConfig)
    ensures forall p :: p in StableSort(ValidOnes(results, cfg), ByConcurrency) <==> p in results && IsValid(p, cfg)
  {
    var valid := ValidOnes(results, cfg);
    var points := StableSort(valid, ByConcurrency);
    forall p
      ensures p in points <==> p in valid
    {
      assert p in multiset(points) <==> p in multiset(valid);
    }
  }

  lemma {:induction false} PoolIsConsidered(
    history: seq<BenchmarkResult>, slo: Option<LatencyConstraints>, cfg: ScoringConfig)
    ensures forall p :: p in Pool(history, slo, cfg) <==> Considered(p, history, slo, cfg)
    ensures SortedBy(Pool(history, slo, cfg), ByConcurrency)
    ensures Pool(history, slo, cfg) == [] ==> forall p :: p in history ==> !IsValid(p, cfg)
  {
    hide StableSort, ValidOnes, SatisfyingOnes, IsValid, Satisfies;
    SortedSame(history, cfg);
    StableSortSorted(ValidOnes(history, cfg), ByConcurrency);
    var points := StableSort(ValidOnes(history, cfg), ByConcurrency);
    SatisfyingSorted(points, slo, ByConcurrency);
    var eligible := SatisfyingOnes(points, slo);
    if eligible != [] {
      assert eligible[0] in eligible;
    }
  }

  predicate ByLatency(a: BenchmarkResult, b: BenchmarkResult) {
    a.latencyP95 <= b.latencyP95
  }

  predicate ByMostConcurrency(a: BenchmarkResult, b: BenchmarkResult) {
    a.concurrency >= b.concurrency
  }

  /** The operating point of a sweep, if it has a valid point. */
  function Choice(history: seq<BenchmarkResult>, objective: Objective, slo: Option<LatencyConstraints>, cfg: ScoringConfig)
    : Option<BenchmarkResult>
  {
    var pool := Pool(history, slo, cfg);
    if pool == [] then None
    else if objective != LATENCY then Some(Plateau(pool, cfg))
    else if HasSlo(slo) && Satisfies(pool[0], slo) then Some(First(pool, ByMostConcurrency))
    else Some(First(pool, ByLatency))
  }

  /**
   * The operating point of a sweep. For throughput it is where the plateau walk ends: no busier point
   * is faster and gains enough or keeps latency, and none at all is much faster; for latency it is the busiest eligible point under an SLO and the fastest point without one.
   */
  method ChooseConcurrency(
    history: seq<BenchmarkResult>, objective: Objective, slo: Option<LatencyConstraints>, cfg: ScoringConfig)
    returns (choice: Option<BenchmarkResult>)
    ensures choice == Choice(history, objective, slo, cfg)
    ensures choice.None? <==> forall p :: p in history ==> !IsValid(p, cfg)
    ensures choice.Some? ==> Considered(choice.value, history, slo, cfg)
    ensures choice.Some? && objective != LATENCY ==>
      && (exists path :: WalkEnds(Pool(history, slo, cfg), path, choice.value, cfg))
      && (forall p :: Considered(p, history, slo, cfg) && p.concurrency > choice.value.concurrency ==>
            !WorthIt(choice.value, p, cfg))
      && (cfg.plateauMinGain >= 0.0 ==> forall p :: Considered(p, history, slo, cfg) ==>
            WithinRegret([p], choice.value, cfg))
    ensures choice.Some? && objective == LATENCY && HasSlo(slo) && Satisfies(choice.value, slo) ==>
      forall p :: Considered(p, history, slo, cfg) ==> p.concurrency <= choice.value.concurrency
    ensures choice.Some? && objective == LATENCY && !(HasSlo(slo) && Satisfies(choice.value, slo)) ==>
      forall p :: Considered(p, history, slo, cfg) ==> choice.value.latencyP95 <= p.latencyP95
  {
    hide Improves, WorthIt, IsValid, Satisfies;
    var pool := Pool(history, slo, cfg);
    PoolIsConsidered(history, slo, cfg);
    hide Pool;
    if pool == [] {
      return None;
    }
    assert pool[0] in pool;
    if objective == LATENCY {
      FirstIsLeast(pool, ByLatency);
      FirstIsLeast(pool, ByMostConcurrency);
      if HasSlo(slo) && Satisfies(pool[0], slo) {
        return Some(First(pool, ByMostConcurrency));
      }
      return Some(First(pool, ByLatency));
    }
    var chosen, path := Walk(pool, cfg);
    choice := Some(chosen);
  }
}
