/** Whether one replica fits on its GPUs, by how much it misses, and the smallest group that fits. */
module MemoryEstimates {
  import opened Wrappers
  import opened Sequences
  import opened Numbers
  import opened KvCache
  import opened Memory

  datatype Gpu = Gpu(total: nat, free: nat)

  datatype Confidence = UNKNOWN | LOW | MEDIUM | HIGH

  datatype EstimateError = NoGpus

  /** The smallest of some sizes. */
  function LeastOf(sizes: seq<nat>): (r: nat)
    requires sizes != []
    ensures r in sizes && forall x :: x in sizes ==> r <= x
  {
    if |sizes| == 1 then sizes[0]
    else
      assert sizes == [sizes[0]] + sizes[1..];
      var rest := LeastOf(sizes[1..]);
      if sizes[0] <= rest then sizes[0] else rest
  }

  function Totals(gpus: seq<Gpu>): (r: seq<nat>)
    ensures |r| == |gpus| && forall i :: 0 <= i < |r| ==> r[i] == gpus[i].total
  {
    seq(|gpus|, i requires 0 <= i < |gpus| => gpus[i].total)
  }

  function Frees(gpus: seq<Gpu>): (r: seq<nat>)
    ensures |r| == |gpus| && forall i :: 0 <= i < |r| ==> r[i] == gpus[i].free
  {
    seq(|gpus|, i requires 0 <= i < |gpus| => gpus[i].free)
  }

  function ShardedWeights(weights: nat, shards: nat, cfg: MemoryModelConfig): (r: nat)
    requires Sensible(cfg)
  {
    if shards <= 1 then weights
    else
      ShareOrder(weights as real, shards as real, shards as real);
      Truncate(Scaled(weights as real / shards as real, 1.0 + cfg.weightShardOverhead))
  }

  /** What one estimate is about: the tightest GPU of the group, the shape of the replica, the model. */
  datatype Request = Request(
    total: nat, free: nat, tp: nat, pp: nat, weightBytes: Option<nat>, kvPerGpu: Option<nat>, context: nat,
    forced: Option<real>)
  {
    function Fraction(cfg: MemoryModelConfig): real
      requires Sensible(cfg)
    {
      if forced.Some? then forced.value else MemoryFraction(total, free, cfg)
    }

    function Budget(cfg: MemoryModelConfig): int
      requires Sensible(cfg)
    {
      EngineBudget(Fraction(cfg), total)
    }

    function Weights(cfg: MemoryModelConfig): Option<nat>
      requires Sensible(cfg)
    {
      if weightBytes.Some? then Some(ShardedWeights(weightBytes.value, tp * pp, cfg)) else None
    }

    function Activations(cfg: MemoryModelConfig): int {
      Truncate(Scaled(cfg.activationFraction, total as real))
    }

    function Comm(cfg: MemoryModelConfig): nat {
      if tp > 1 then cfg.commBufferBytesPerTpRank else 0
    }

    /** Everything but the KV cache. */
    function Fixed(cfg: MemoryModelConfig): int
      requires Sensible(cfg)
    {
      var weights := if weightBytes.Some? then Weights(cfg).value else 0;
      weights + Activations(cfg) + cfg.cudaGraphBytes + Comm(cfg) + cfg.engineOverheadBytes
    }

    function KvAvailable(cfg: MemoryModelConfig): int
      requires Sensible(cfg)
    {
      Budget(cfg) - Fixed(cfg)
    }

    /** Pipeline stages share the layers. */
    function Kv(): Option<nat> {
      if kvPerGpu.Some? && pp > 1 then
        Some(if kvPerGpu.value / pp >= 1 then kvPerGpu.value / pp else 1)
      else kvPerGpu
    }

    /** The cache a replica must have room for. */
    function RequiredKv(cfg: MemoryModelConfig): nat {
      if weightBytes.Some? && Given(Kv()) then Kv().value * context * cfg.minKvSequences
      else UNKNOWN_KV_MIN_SPARE_BYTES
    }

    predicate Enough(cfg: MemoryModelConfig)
      requires Sensible(cfg)
    {
      KvAvailable(cfg) >= RequiredKv(cfg)
    }

    /** A forced fraction claims memory that is not free. */
    predicate Overclaims(cfg: MemoryModelConfig)
      requires Sensible(cfg)
    {
      forced.Some? && Budget(cfg) > free
    }

    predicate TooOccupied(cfg: MemoryModelConfig)
      requires Sensible(cfg)
    {
      Fraction(cfg) < cfg.minMemoryFraction
    }

    predicate Fits(cfg: MemoryModelConfig)
      requires Sensible(cfg)
    {
      Enough(cfg) && !Overclaims(cfg) && !TooOccupied(cfg)
    }
  }

  datatype MemoryEstimate = MemoryEstimate(
    fraction: real, budget: int, free: nat, reserve: nat, weights: Option<nat>, fixed: int, kvAvailable: Option<int>,
    kvPerGpu: Option<nat>, tokens: Option<int>, maxConcurrencyP50: Option<int>, maxConcurrencyP95: Option<int>,
    fits: bool, shortfall: int, confidence: Confidence)

  /** The request an estimate for a group of GPUs is about. */
  function RequestFor(
    gpus: seq<Gpu>, tp: nat, pp: nat, weightBytes: Option<nat>, kvPerGpu: Option<nat>, context: nat, forced: Option<real>)
    : Request
    requires gpus != []
  {
    Request(LeastOf(Totals(gpus)), LeastOf(Frees(gpus)), tp, pp, weightBytes, kvPerGpu, context, forced)
  }

  /** The shortfall reported besides a verdict. */
  function Shortfall(r: Request, cfg: MemoryModelConfig): int
    requires Sensible(cfg)
  {
    var missing := if r.weightBytes.Some? && !r.Enough(cfg) then r.RequiredKv(cfg) - r.KvAvailable(cfg) else 0;
    var claimed := if r.Overclaims(cfg) then Larger(missing, r.Budget(cfg) - r.free) else missing;
    if r.TooOccupied(cfg) then
      Larger(claimed, Truncate(Scaled(cfg.minMemoryFraction - r.Fraction(cfg), r.total as real)))
    else claimed
  }

  /** The estimate says of the request what the request's own numbers say. */
  predicate Describes(e: MemoryEstimate, r: Request, cfg: MemoryModelConfig)
    requires Sensible(cfg)
  {
    && e.fraction == r.Fraction(cfg) && e.budget == r.Budget(cfg) && e.free == r.free
    && e.reserve == SafetyReserve(r.total, cfg) && e.fixed == r.Fixed(cfg)
    && e.weights == r.Weights(cfg) && e.kvPerGpu == r.Kv()
    && e.fits == r.Fits(cfg)
    && e.shortfall == AtLeastZero(Shortfall(r, cfg))
    && (e.kvAvailable.Some? <==> r.weightBytes.Some?)
    && (e.kvAvailable.Some? ==> e.kvAvailable.value == AtLeastZero(r.KvAvailable(cfg)))
    && (e.tokens.Some? <==> r.weightBytes.Some? && Given(r.Kv()) && r.KvAvailable(cfg) > 0)
    && (e.tokens.Some? ==> WholeTokens(e.tokens.value, r.Kv().value, r.KvAvailable(cfg)))
  }

  /** As many tokens as there is room for. */
  predicate WholeTokens(tokens: int, perToken: nat, bytes: int) {
    tokens * perToken <= bytes < (tokens + 1) * perToken
  }

  /** How far the estimate can be trusted. */
  function ConfidenceIn(r: Request, weightsExact: bool, kv: KvConfidence): Confidence {
    if r.weightBytes.None? then UNKNOWN
    else if !Given(r.Kv()) then LOW
    else if weightsExact && kv != Medium then HIGH
    else MEDIUM
  }

  method EstimateMemory(
    gpus: seq<Gpu>, tp: nat, pp: nat, weightBytes: Option<nat>, weightsExact: bool, kv: KvEstimate, context: nat,
    p50: int, p95: int, forced: Option<real>, cfg: MemoryModelConfig)
    returns (e: Result<MemoryEstimate, EstimateError>)
    requires Sensible(cfg)
    ensures e.Err? <==> gpus == []
    ensures e.Ok? ==>
      var r := RequestFor(gpus, tp, pp, weightBytes, kv.perGpu, context, forced);
      && Describes(e.value, r, cfg) && e.value.confidence == ConfidenceIn(r, weightsExact, kv.confidence)
      && e.value.maxConcurrencyP50 == (if e.value.tokens.Some? then Some(PerSequence(e.value.tokens.value, p50)) else None)
      && e.value.maxConcurrencyP95 == (if e.value.tokens.Some? then Some(PerSequence(e.value.tokens.value, p95)) else None)
  {
    hide SafetyReserve, ShardedWeights, MemoryFraction, EngineBudget, Scaled, Truncate, WholeTokens, PerSequence;
    if gpus == [] {
      return Err(NoGpus);
    }
    var r := RequestFor(gpus, tp, pp, weightBytes, kv.perGpu, context, forced);
    hide RequestFor;
    var fraction, budget := r.Fraction(cfg), r.Budget(cfg);
    var weights, fixed := r.Weights(cfg), r.Fixed(cfg);
    var kvAvailable, kvPerGpu := budget - fixed, r.Kv();
    var confidence := if weights.None? then UNKNOWN else if weightsExact then HIGH else MEDIUM;
    var tokens, c50, c95: Option<int>, shortfall, fits := None, None, None, 0, false;
    if weights.None? {
      fits := kvAvailable >= UNKNOWN_KV_MIN_SPARE_BYTES;
    } else if Given(kvPerGpu) {
      var required := kvPerGpu.value * context * cfg.minKvSequences;
      fits := kvAvailable >= required;
      if !fits {
        shortfall := required - kvAvailable;
      }
      if kvAvailable > 0 {
        var n := kvAvailable / kvPerGpu.value;
        Divided(kvAvailable, kvPerGpu.value);
        tokens := Some(n);
        c50, c95 := Some(PerSequence(n, p50)), Some(PerSequence(n, p95));
      }
      if kv.confidence == Medium && confidence == HIGH {
        confidence := MEDIUM;
      }
    } else {
      fits := kvAvailable >= UNKNOWN_KV_MIN_SPARE_BYTES;
      if !fits {
        shortfall := UNKNOWN_KV_MIN_SPARE_BYTES - kvAvailable;
      }
      confidence := LOW;
    }
    if forced.Some? && budget > r.free {
      fits := false;
      shortfall := Larger(shortfall, budget - r.free);
    }
    if fraction < cfg.minMemoryFraction {
      fits := false;
      shortfall := Larger(shortfall, Truncate(Scaled(cfg.minMemoryFraction - fraction, r.total as real)));
    }
    e := Ok(MemoryEstimate(
      fraction, budget, r.free, SafetyReserve(r.total, cfg), weights, fixed,
      if weights.Some? then Some(AtLeastZero(kvAvailable)) else None, kvPerGpu, tokens, c50, c95,
      fits, AtLeastZero(shortfall), confidence));
  }

  /** `max(0, tokens // max(1, sequence))`. */
  function PerSequence(tokens: int, sequence: int): int {
    AtLeastZero(tokens / Larger(1, sequence))
  }

  lemma {:induction false} Divided(bytes: int, perToken: nat)
    requires perToken >= 1
    ensures WholeTokens(bytes / perToken, perToken, bytes)
  {
  }

  /** `check_memory`: a plan passes when it fits, or misses by no more than a share of the budget. */
  predicate Passes(e: MemoryEstimate, tolerance: real) {
    e.fits || e.shortfall as real <= tolerance * e.budget as real
  }

  // ------------------------------------------------------------------ what the parts are

  /** The shards hold the weights and the overhead of splitting, each up to a byte; unsplit weights have none. */
  lemma {:induction false} ShardsHoldWeights(weights: nat, shards: nat, cfg: MemoryModelConfig)
    requires Sensible(cfg)
    ensures shards <= 1 ==> ShardedWeights(weights, shards, cfg) == weights
    ensures shards >= 2 ==>
      var each, all := ShardedWeights(weights, shards, cfg), Scaled(weights as real, 1.0 + cfg.weightShardOverhead);
      Scaled(each as real, shards as real) <= all < Scaled(each as real + 1.0, shards as real)
  {
    if shards >= 2 {
      var n, factor := shards as real, 1.0 + cfg.weightShardOverhead;
      var exact := Scaled(weights as real / n, factor);
      ShareOrder(weights as real, n, n);
      ScaledQuotient(weights as real, n);
      assert Scaled(exact, n) == Scaled(weights as real, factor) by {
        assert (weights as real / n * factor) * n == (weights as real / n * n) * factor;
      }
      var each := ShardedWeights(weights, shards, cfg);
      hide Scaled;
      ScaleUp(each as real, exact, n);
      ScaleUpStrictly(exact, each as real + 1.0, n);
    }
  }

  /**
   * What a GPU holds besides the cache: its shard of the weights, an activation share of the whole
   * device, the graphs, the engine, and a communication buffer as soon as there is anybody to talk to.
   */
  lemma {:induction false} FixedParts(r: Request, cfg: MemoryModelConfig)
    requires Sensible(cfg)
    ensures var share := Scaled(cfg.activationFraction, r.total as real);
            var rest := cfg.cudaGraphBytes + cfg.engineOverheadBytes + (if r.tp >= 2 then cfg.commBufferBytesPerTpRank else 0)
                        + (if r.weightBytes.Some? then ShardedWeights(r.weightBytes.value, r.tp * r.pp, cfg) else 0);
            rest as real + share - 1.0 < r.Fixed(cfg) as real <= rest as real + share
  {
    hide Scaled, ShardedWeights;
  }

  /** Pipeline stages share the layers, each holding at least a byte of cache a token. */
  lemma {:induction false} StagesShare(r: Request)
    requires r.pp >= 1 && r.kvPerGpu.Some?
    ensures r.Kv().Some? && (r.pp == 1 ==> r.Kv() == r.kvPerGpu)
    ensures r.pp >= 2 ==> var kv := r.Kv().value;
      kv >= 1 && r.kvPerGpu.value < r.pp * (kv + 1) && (r.pp * kv <= r.kvPerGpu.value || kv == 1)
  {
    var q := r.kvPerGpu.value / r.pp;
    assert r.pp * q <= r.kvPerGpu.value < r.pp * (q + 1);
    if q == 0 {
      assert r.pp * 2 >= r.pp * 1;
    }
  }

  /** As many sequences at a time as have room for all their tokens. */
  lemma {:induction false} SequencesFit(tokens: nat, sequence: nat)
    requires sequence >= 1
    ensures var n := PerSequence(tokens, sequence);
            n >= 0 && n * sequence <= tokens < (n + 1) * sequence
  {
  }

  // ------------------------------------------------------------------ what a verdict means

  /**
   * With known weights and cache size a replica fits exactly when the fixed parts and the cache it
   * needs are within the budget, the GPU is not too occupied, and nothing is claimed that is not free.
   */
  lemma {:induction false} FitsExactly(r: Request, cfg: MemoryModelConfig)
    requires Sensible(cfg) && r.weightBytes.Some? && Given(r.Kv())
    ensures r.Fits(cfg) <==>
      && r.Fixed(cfg) + r.Kv().value * r.context * cfg.minKvSequences <= r.Budget(cfg)
      && r.Fraction(cfg) >= cfg.minMemoryFraction
      && (r.forced.Some? ==> r.Budget(cfg) <= r.free)
  {
    hide Request.Fraction, Request.Budget, Request.Fixed;
  }

  /** Whatever fits without a forced fraction leaves the safety reserve in free memory untouched. */
  lemma {:induction false} FitsLeavesReserve(r: Request, cfg: MemoryModelConfig)
    requires Sensible(cfg) && r.forced.None? && cfg.minMemoryFraction > 0.0 && r.Fits(cfg)
    ensures r.Fixed(cfg) + r.RequiredKv(cfg) + SafetyReserve(r.total, cfg) <= r.free
  {
    hide Request.Fixed, Request.RequiredKv, SafetyReserve, EngineBudget;
    BudgetSafe(r.total, r.free, cfg);
    if r.free < SafetyReserve(r.total, cfg) {
      OccupiedWithoutRoom(r.total, r.free, cfg);
    }
  }

  lemma {:induction false} OccupiedWithoutRoom(total: nat, free: nat, cfg: MemoryModelConfig)
    requires Sensible(cfg) && free < SafetyReserve(total, cfg)
    ensures MemoryFraction(total, free, cfg) == 0.0
  {
  }

  /**
   * A verdict against a replica comes without a shortfall exactly when only unknown weights or a
   * sub-byte lack of usable memory speak against it; such a replica passes `check_memory`.
   */
  lemma {:induction false} HiddenShortfall(r: Request, cfg: MemoryModelConfig)
    requires Sensible(cfg)
    ensures !r.Fits(cfg) && AtLeastZero(Shortfall(r, cfg)) == 0 <==>
      && (!r.Enough(cfg) || r.TooOccupied(cfg))
      && (r.Enough(cfg) || r.weightBytes.None?)
      && !r.Overclaims(cfg)
      && (r.TooOccupied(cfg) ==> Truncate(Scaled(cfg.minMemoryFraction - r.Fraction(cfg), r.total as real)) <= 0)
  {
    hide Request.Fraction, Request.Budget, Request.Fixed, Request.RequiredKv, Scaled, Truncate;
  }

  /** Whatever the estimate says, `check_memory` without tolerance lets exactly these through. */
  lemma {:induction false} PassesExactly(e: MemoryEstimate, r: Request, cfg: MemoryModelConfig)
    requires Sensible(cfg) && Describes(e, r, cfg)
    ensures Passes(e, 0.0) <==> r.Fits(cfg) || AtLeastZero(Shortfall(r, cfg)) == 0
  {
    hide Request.Fits, Shortfall;
    assert 0.0 * e.budget as real == 0.0;
  }

  /** With unknown weights, a GPU with too little room still passes. */
  lemma {:induction false} UnknownWeightsPass(e: MemoryEstimate, r: Request, cfg: MemoryModelConfig)
    requires Sensible(cfg) && Describes(e, r, cfg)
    requires r.weightBytes.None? && r.forced.None? && !r.TooOccupied(cfg) && !r.Enough(cfg)
    ensures !e.fits && Passes(e, 0.0)
  {
    hide Describes, Request.Enough, Request.TooOccupied;
    HiddenShortfall(r, cfg);
    PassesExactly(e, r, cfg);
    VerdictOf(e, r, cfg);
  }

  lemma {:induction false} VerdictOf(e: MemoryEstimate, r: Request, cfg: MemoryModelConfig)
    requires Sensible(cfg) && Describes(e, r, cfg)
    ensures e.fits == r.Fits(cfg)
  {
  }

  // ------------------------------------------------------------------ wider groups

  lemma {:induction false} TruncateOrder(x: real, y: real)
    requires 0.0 <= x <= y
    ensures 0 <= Truncate(x) <= Truncate(y)
  {
  }

  /** From two shards on, more shards never mean more weight bytes per GPU. */
  lemma {:induction false} WeightsShrink(weights: nat, shards: nat, more: nat, cfg: MemoryModelConfig)
    requires Sensible(cfg) && 2 <= shards <= more
    ensures ShardedWeights(weights, more, cfg) <= ShardedWeights(weights, shards, cfg)
  {
    ShareOrder(weights as real, shards as real, more as real);
    var x, y := weights as real / more as real, weights as real / shards as real;
    ScaleUp(x, y, 1.0 + cfg.weightShardOverhead);
    ScaleUp(0.0, x, 1.0 + cfg.weightShardOverhead);
    ScaledZero(1.0 + cfg.weightShardOverhead);
    hide Scaled;
    TruncateOrder(Scaled(x, 1.0 + cfg.weightShardOverhead), Scaled(y, 1.0 + cfg.weightShardOverhead));
  }

  lemma {:induction false} NatProductOrder(a: nat, b: nat, c: nat)
    requires a <= b
    ensures a * c <= b * c
  {
  }

  lemma {:induction false} StageOrder(few: nat, many: nat, pp: nat)
    requires 1 <= many <= few && pp >= 1
    ensures many / pp <= few / pp
  {
    var d := many / pp - few / pp;
    assert d * pp == (many - many % pp) - (few - few % pp);
    Multiple(d, pp);
  }

  lemma {:induction false} Multiple(d: int, m: nat)
    ensures d >= 1 ==> d * m >= m
  {
  }

  /** The per-GPU cache of the wider group, known or unknown like the narrower one's, and no larger. */
  predicate NoLargerKv(many: Option<nat>, few: Option<nat>) {
    (many.Some? <==> few.Some?) && (few.Some? ==> (few.value == many.value || 1 <= many.value <= few.value))
  }

  lemma {:induction false} RequirementShrinks(r: Request, more: nat, kv: Option<nat>, cfg: MemoryModelConfig)
    requires Sensible(cfg) && NoLargerKv(kv, r.kvPerGpu)
    ensures r.(tp := more, kvPerGpu := kv).RequiredKv(cfg) <= r.RequiredKv(cfg)
  {
    var wide := r.(tp := more, kvPerGpu := kv);
    if r.kvPerGpu.Some? && r.kvPerGpu != kv {
      if r.pp > 1 {
        StageOrder(r.kvPerGpu.value, kv.value, r.pp);
      }
      assert 1 <= wide.Kv().value <= r.Kv().value;
      NatProductOrder(wide.Kv().value, r.Kv().value, r.context);
      NatProductOrder(wide.Kv().value * r.context, r.Kv().value * r.context, cfg.minKvSequences);
    }
  }

  /** What fits on a group of two or more fits on every wider one. */
  lemma {:induction false} WiderFits(r: Request, more: nat, kv: Option<nat>, cfg: MemoryModelConfig)
    requires Sensible(cfg) && 2 <= r.tp <= more && r.pp >= 1 && NoLargerKv(kv, r.kvPerGpu)
    requires r.Fits(cfg)
    ensures r.(tp := more, kvPerGpu := kv).Fits(cfg)
  {
    hide ShardedWeights, Request.RequiredKv, MemoryFraction, EngineBudget, Scaled, Truncate;
    RequirementShrinks(r, more, kv, cfg);
    if r.weightBytes.Some? {
      ShardsGrow(r.tp, more, r.pp);
      WeightsShrink(r.weightBytes.value, r.tp * r.pp, more * r.pp, cfg);
    }
  }

  lemma {:induction false} ShardsGrow(tp: nat, more: nat, pp: nat)
    requires 2 <= tp <= more && pp >= 1
    ensures 2 <= tp * pp <= more * pp
  {
    NatProductOrder(tp, more, pp);
    NatProductOrder(1, pp, tp);
  }

  /** For standard attention the estimator supplies exactly such sizes. */
  lemma {:induction false} StandardWiderFits(
    r: Request, m: ModelShape, more: nat, perElem: real, cfg: MemoryModelConfig)
    requires Sensible(cfg) && 2 <= r.tp <= more && r.pp >= 1 && perElem >= 0.5
    requires r.kvPerGpu == StandardEstimate(m, r.tp, perElem).perGpu && r.Fits(cfg)
    ensures r.(tp := more, kvPerGpu := StandardEstimate(m, more, perElem).perGpu).Fits(cfg)
  {
    hide StandardEstimate, Request.Fits;
    StandardMonotone(m, r.tp, more, perElem);
    WiderFits(r, more, StandardEstimate(m, more, perElem).perGpu, cfg);
  }

  /** Splitting one GPU's weights over two pays for the communication buffer. */
  predicate SplitPays(r: Request, more: nat, cfg: MemoryModelConfig)
    requires Sensible(cfg)
  {
    r.weightBytes.Some? &&
    ShardedWeights(r.weightBytes.value, more * r.pp, cfg) + cfg.commBufferBytesPerTpRank
      <= ShardedWeights(r.weightBytes.value, r.pp, cfg)
  }

  /** From one GPU to several, fitting carries over when the split pays for its buffer. */
  lemma {:induction false} FirstSplitFits(r: Request, more: nat, kv: Option<nat>, cfg: MemoryModelConfig)
    requires Sensible(cfg) && r.tp == 1 && more >= 2 && r.pp >= 1 && NoLargerKv(kv, r.kvPerGpu)
    requires r.Fits(cfg) && SplitPays(r, more, cfg)
    ensures r.(tp := more, kvPerGpu := kv).Fits(cfg)
  {
    hide ShardedWeights, Request.RequiredKv, MemoryFraction, EngineBudget, Scaled, Truncate;
    RequirementShrinks(r, more, kv, cfg);
  }

  /** For latent attention every rank holds the same cache, so a wider group needs only its weights to shrink. */
  lemma {:induction false} MlaWiderFits(r: Request, m: ModelShape, more: nat, perElem: real, cfg: MemoryModelConfig)
    requires Sensible(cfg) && 2 <= r.tp <= more && r.pp >= 1 && perElem >= 0.0
    requires r.kvPerGpu == MlaEstimate(m, perElem).perGpu && r.Fits(cfg)
    ensures r.(tp := more).Fits(cfg)
  {
    hide MlaEstimate, Request.Fits;
    assert r.(tp := more, kvPerGpu := r.kvPerGpu) == r.(tp := more);
    WiderFits(r, more, r.kvPerGpu, cfg);
  }

  /** Cache bytes for each token of context, when the requirement depends on the context. */
  function PerContext(r: Request, cfg: MemoryModelConfig): nat {
    if r.weightBytes.Some? && Given(r.Kv()) then r.Kv().value * cfg.minKvSequences else 0
  }

  /** The longest context there is cache for; any, counted as 0, when it does not matter. */
  function LongestContext(r: Request, cfg: MemoryModelConfig): nat
    requires Sensible(cfg)
  {
    var perToken := PerContext(r, cfg);
    if perToken == 0 || r.KvAvailable(cfg) < 0 then 0 else r.KvAvailable(cfg) / perToken
  }

  /** Only the cache requirement depends on the context, in proportion. */
  lemma {:induction false} ContextCost(r: Request, c: nat, cfg: MemoryModelConfig)
    requires Sensible(cfg)
    ensures var at := r.(context := c);
            && at.KvAvailable(cfg) == r.KvAvailable(cfg) && PerContext(at, cfg) == PerContext(r, cfg)
            && at.Overclaims(cfg) == r.Overclaims(cfg) && at.TooOccupied(cfg) == r.TooOccupied(cfg)
            && at.RequiredKv(cfg) ==
               if r.weightBytes.Some? && Given(r.Kv()) then PerContext(r, cfg) * c else UNKNOWN_KV_MIN_SPARE_BYTES
  {
    hide ShardedWeights, MemoryFraction, EngineBudget, Scaled, Truncate;
    if r.weightBytes.Some? && Given(r.Kv()) {
      var kv, n := r.Kv().value, cfg.minKvSequences;
      assert kv * c * n == kv * n * c;
    }
  }

  lemma {:induction false} LongestIsLongest(bytes: nat, perToken: nat, c: nat)
    requires perToken >= 1
    ensures perToken * c <= bytes <==> c <= bytes / perToken
  {
    var most := bytes / perToken;
    if c <= most {
      NatProductOrder(c, most, perToken);
    } else {
      NatProductOrder(most + 1, c, perToken);
      assert (most + 1) * perToken == most * perToken + perToken;
    }
  }

  /** A replica that fits at some context fits exactly up to its longest. */
  lemma {:induction false} FitsUpToLongest(r: Request, c: nat, cfg: MemoryModelConfig)
    requires Sensible(cfg)
    ensures r.(context := c).Fits(cfg) <==>
            r.(context := 0).Fits(cfg) && (PerContext(r, cfg) > 0 ==> c <= LongestContext(r, cfg))
  {
    ContextCost(r, c, cfg);
    ContextCost(r, 0, cfg);
    hide Request.KvAvailable, Request.RequiredKv, Request.Overclaims, Request.TooOccupied;
    if PerContext(r, cfg) > 0 && r.KvAvailable(cfg) >= 0 {
      LongestIsLongest(r.KvAvailable(cfg), PerContext(r, cfg), c);
    }
    if PerContext(r, cfg) > 0 && r.KvAvailable(cfg) < 0 {
      assert PerContext(r, cfg) * c >= 0;
    }
  }

  /** Whatever fits on one GPU fits, at the same context length, on several. */
  ghost predicate SplitCarriesOver(r: Request, more: nat, kv: Option<nat>, cfg: MemoryModelConfig)
    requires Sensible(cfg)
  {
    forall c: nat :: r.(context := c).Fits(cfg) ==> r.(tp := more, kvPerGpu := kv, context := c).Fits(cfg)
  }

  /** It is enough to look at the longest context that fits on one. */
  lemma {:induction false} LongestDecides(r: Request, more: nat, kv: Option<nat>, cfg: MemoryModelConfig)
    requires Sensible(cfg) && r.tp == 1 && more >= 2 && NoLargerKv(kv, r.kvPerGpu)
    ensures SplitCarriesOver(r, more, kv, cfg) <==>
            (r.(context := 0).Fits(cfg) ==> r.(tp := more, kvPerGpu := kv, context := LongestContext(r, cfg)).Fits(cfg))
  {
    var wide, longest := r.(tp := more, kvPerGpu := kv), LongestContext(r, cfg);
    hide Request.Fits, LongestContext;
    FitsUpToLongest(r, longest, cfg);
    FitsUpToLongest(wide, longest, cfg);
    assert PerContext(r, cfg) == 0 ==> PerContext(wide, cfg) == 0;
    forall c: nat | r.(context := c).Fits(cfg) && wide.(context := longest).Fits(cfg)
      ensures wide.(context := c).Fits(cfg)
    {
      FitsUpToLongest(r, c, cfg);
      FitsUpToLongest(wide, c, cfg);
      assert r.(tp := more, kvPerGpu := kv, context := c) == wide.(context := c);
    }
    assert r.(tp := more, kvPerGpu := kv, context := longest) == wide.(context := longest);
  }

  /** A single GPU takes the model at some context: there is room beside the fixed parts. */
  predicate RunsOnOne(r: Request, cfg: MemoryModelConfig)
    requires Sensible(cfg)
  {
    && !r.Overclaims(cfg) && !r.TooOccupied(cfg)
    && r.KvAvailable(cfg) >= if CacheKnown(r) then 0 else UNKNOWN_KV_MIN_SPARE_BYTES
  }

  /** Weights and cache size are known, so that the requirement grows with the context. */
  predicate CacheKnown(r: Request) {
    r.weightBytes.Some? && Given(r.Kv())
  }

  /** Bytes the weights of one GPU's share give up when it is split; none if they are not known. */
  function WeightsSaved(r: Request, more: nat, cfg: MemoryModelConfig): int
    requires Sensible(cfg)
  {
    if r.weightBytes.None? then 0
    else ShardedWeights(r.weightBytes.value, r.pp, cfg) - ShardedWeights(r.weightBytes.value, more * r.pp, cfg)
  }

  /** The cache one of several GPUs needs for the longest context of one, or the spare room demanded instead. */
  function CacheOfLongest(r: Request, wide: Request, cfg: MemoryModelConfig): nat
    requires Sensible(cfg)
  {
    if CacheKnown(r) then PerContext(wide, cfg) * LongestContext(r, cfg) else UNKNOWN_KV_MIN_SPARE_BYTES
  }

  /**
   * Going from one GPU to several, fitting carries over at every context length exactly when one GPU
   * never fits, or the communication buffer and the cache that several need for the longest context
   * of one GPU find room in what one GPU has for its cache and what the weights give up. Where the
   * weights or the cache size are unknown, the spare room demanded instead takes the cache's place.
   */
  lemma {:induction false} FirstSplitExactly(r: Request, more: nat, kv: Option<nat>, cfg: MemoryModelConfig)
    requires Sensible(cfg) && r.tp == 1 && more >= 2 && NoLargerKv(kv, r.kvPerGpu)
    ensures SplitCarriesOver(r, more, kv, cfg) <==>
            !RunsOnOne(r, cfg) ||
            cfg.commBufferBytesPerTpRank + CacheOfLongest(r, r.(tp := more, kvPerGpu := kv), cfg)
              <= r.KvAvailable(cfg) + WeightsSaved(r, more, cfg)
  {
    var wide, longest := r.(tp := more, kvPerGpu := kv), LongestContext(r, cfg);
    LongestDecides(r, more, kv, cfg);
    hide SplitCarriesOver;
    ContextCost(r, 0, cfg);
    ContextCost(wide, longest, cfg);
    RoomAfterSplit(r, more, kv, cfg);
    hide Request.KvAvailable, Request.RequiredKv, Request.Overclaims, Request.TooOccupied, PerContext, LongestContext;
    hide WeightsSaved;
    assert CacheKnown(wide) == CacheKnown(r);
    assert PerContext(r, cfg) * 0 == 0;
    assert r.(tp := more, kvPerGpu := kv, context := longest) == wide.(context := longest);
  }

  /** The buffer comes in, the weights shrink; the budget and the other parts stay. */
  lemma {:induction false} RoomAfterSplit(r: Request, more: nat, kv: Option<nat>, cfg: MemoryModelConfig)
    requires Sensible(cfg) && r.tp == 1 && more >= 2
    ensures var wide := r.(tp := more, kvPerGpu := kv);
            && wide.KvAvailable(cfg) == r.KvAvailable(cfg) + WeightsSaved(r, more, cfg) - cfg.commBufferBytesPerTpRank
            && wide.Overclaims(cfg) == r.Overclaims(cfg) && wide.TooOccupied(cfg) == r.TooOccupied(cfg)
  {
    hide ShardedWeights, MemoryFraction, EngineBudget, Scaled, Truncate;
  }

  // ------------------------------------------------------------------ two requests that show the limits

  /** Five GiB, all free, and weights nobody knows: there is no room, and the plan passes. */
  lemma {:induction false} SmallGpuPasses(r: Request, e: MemoryEstimate)
    requires r == Request(5 * GIB, 5 * GIB, 1, 1, None, None, 4096, None) && Describes(e, r, DEFAULT_CONFIG)
    ensures !e.fits && Passes(e, 0.0)
  {
    var cfg := DEFAULT_CONFIG;
    assert SafetyReserve(r.total, cfg) == GIB;
    assert Hundredths(4 * GIB, 5 * GIB) == 80;
    assert r.Fraction(cfg) == 0.8 && r.Budget(cfg) == 4 * GIB;
    assert r.KvAvailable(cfg) < 2 * GIB;
    UnknownWeightsPass(e, r, cfg);
  }

  /** A small model with a latent cache on a GPU of 100 GiB, at the longest context. */
  function SmallModel(tp: nat): Request {
    Request(100 * GIB, 100 * GIB, tp, 1, Some(256 * MIB), Some(MIB), 88832, None)
  }

  /** It fits on one GPU and not on two: the communication buffer outweighs half the weights. */
  lemma {:induction false} FirstSplitCanFail()
    ensures SmallModel(1).Fits(DEFAULT_CONFIG) && !SmallModel(2).Fits(DEFAULT_CONFIG)
  {
    var cfg := DEFAULT_CONFIG;
    assert SafetyReserve(100 * GIB, cfg) == 8 * GIB;
    assert Hundredths(92 * GIB, 100 * GIB) == 92;
    forall tp: nat
      ensures SmallModel(tp).Fraction(cfg) == 0.92 && SmallModel(tp).Budget(cfg) == 92 * GIB
      ensures SmallModel(tp).Activations(cfg) == 5 * GIB / 2
    {
    }
    assert SmallModel(1).KvAvailable(cfg) == 88832 * MIB;
    assert SmallModel(2).KvAvailable(cfg) < 88832 * MIB;
  }

  // ------------------------------------------------------------------ the smallest group that fits

  /** Tries the sizes in ascending order. */
  method MinimumTpThatFits(r: Request, kvForTp: nat -> Option<nat>, cfg: MemoryModelConfig, candidates: seq<nat>)
    returns (tp: Option<nat>)
    requires Sensible(cfg)
    ensures tp.None? <==> forall c :: c in candidates ==> !r.(tp := c, kvPerGpu := kvForTp(c)).Fits(cfg)
    ensures tp.Some? ==>
      && tp.value in candidates && r.(tp := tp.value, kvPerGpu := kvForTp(tp.value)).Fits(cfg)
      && forall c :: c in candidates && c < tp.value ==> !r.(tp := c, kvPerGpu := kvForTp(c)).Fits(cfg)
  {
    hide Request.Fits;
    var sizes := Sorted(candidates);
    for i := 0 to |sizes|
      invariant forall j :: 0 <= j < i ==> sizes[j] >= 0 && !r.(tp := sizes[j], kvPerGpu := kvForTp(sizes[j])).Fits(cfg)
    {
      assert sizes[i] in sizes;
      var size: nat := sizes[i];
      if r.(tp := size, kvPerGpu := kvForTp(size)).Fits(cfg) {
        return Some(size);
      }
    }
    return None;
  }
}
