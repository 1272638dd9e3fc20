/** KV-cache size per token, for the whole model and per GPU of a tensor-parallel group. */
module KvCache {
  import opened Wrappers
  import opened Numbers

  datatype KvConfidence = High | Medium | Unknown

  datatype KvEstimate = KvEstimate(total: Option<nat>, perGpu: Option<nat>, confidence: KvConfidence)

  /** The attention layout as the model configuration gives it. */
  datatype ModelShape = ModelShape(
    layers: Option<nat>, kvHeads: Option<nat>, attentionHeads: Option<nat>, hiddenSize: Option<nat>,
    headDim: Option<nat>, slidingWindow: bool, kvLoraRank: Option<nat>, qkRopeHeadDim: Option<nat>)

  /** Python's truth of an optional number. */
  predicate Given(x: Option<nat>) {
    x.Some? && x.value != 0
  }

  /** The configured head size, or the one inferred from the hidden size. */
  function HeadDim(m: ModelShape): Option<nat> {
    if Given(m.headDim) then m.headDim
    else if Given(m.hiddenSize) && Given(m.attentionHeads) then Some(m.hiddenSize.value / m.attentionHeads.value)
    else None
  }

  /** A configured head size counts; without one the heads divide the hidden size among them. */
  lemma {:induction false} HeadDimKnown(m: ModelShape)
    ensures Given(m.headDim) ==> HeadDim(m) == m.headDim
    ensures !Given(m.headDim) ==> (HeadDim(m).Some? <==> Given(m.hiddenSize) && Given(m.attentionHeads))
    ensures !Given(m.headDim) && HeadDim(m).Some? ==>
      var d, heads := HeadDim(m).value, m.attentionHeads.value; d * heads <= m.hiddenSize.value < (d + 1) * heads
  {
  }

  function AtLeastOne(x: real): (r: real)
    ensures r >= 1.0 && r >= x && (r == x || r == 1.0)
  {
    if x >= 1.0 then x else 1.0
  }

  /** `int(x)` of a number that is not negative. */
  function Floor(x: real): (r: nat)
    requires x >= 0.0
    ensures r as real <= x < r as real + 1.0
  {
    x.Floor
  }

  /** `2 * layers * heads * head_dim * per_elem`. */
  function CacheBytes(layers: nat, heads: real, headDim: nat, perElem: real): (r: real)
    requires heads >= 0.0 && perElem >= 0.0
    ensures r >= 0.0
  {
    Scaled(Unit(layers, headDim, perElem), heads)
  }

  /** Bytes of one head per token. */
  function Unit(layers: nat, headDim: nat, perElem: real): (r: real)
    requires perElem >= 0.0
    ensures r >= 0.0
    ensures layers >= 1 && headDim >= 1 && perElem >= 0.5 ==> r >= 1.0
  {
    var cells := 2 * layers * headDim;
    assert layers >= 1 && headDim >= 1 ==> cells >= 2 by {
      if layers >= 1 && headDim >= 1 {
        assert layers * headDim >= 1;
      }
    }
    assert perElem >= 0.5 && cells >= 2 ==> cells as real * perElem >= 2.0 * 0.5 by {
      if perElem >= 0.5 && cells >= 2 {
        assert (cells as real - 2.0) * perElem >= 0.0;
      }
    }
    cells as real * perElem
  }

  function HeadsPerRank(kvHeads: nat, tp: nat): (r: real)
    requires tp >= 1
    ensures r >= 1.0
  {
    AtLeastOne(kvHeads as real / tp as real)
  }

  /** Heads are sharded across ranks, and replicated once there are more ranks than heads. */
  function StandardEstimate(m: ModelShape, tp: nat, perElem: real): KvEstimate
    requires tp >= 1 && perElem >= 0.0
  {
    var headDim := HeadDim(m);
    if !Given(m.layers) || !Given(m.kvHeads) || !Given(headDim) then KvEstimate(None, None, Unknown)
    else
      KvEstimate(
        Some(Floor(CacheBytes(m.layers.value, m.kvHeads.value as real, headDim.value, perElem))),
        Some(Floor(CacheBytes(m.layers.value, HeadsPerRank(m.kvHeads.value, tp), headDim.value, perElem))),
        if m.headDim.None? || m.slidingWindow then Medium else High)
  }

  /** The compressed latent and the rotary key are replicated on every rank. */
  function MlaEstimate(m: ModelShape, perElem: real): KvEstimate
    requires perElem >= 0.0
  {
    if !Given(m.layers) || !Given(m.kvLoraRank) then KvEstimate(None, None, Unknown)
    else
      var latent := m.kvLoraRank.value + if m.qkRopeHeadDim.Some? then m.qkRopeHeadDim.value else 0;
      var total := Floor(Scaled((m.layers.value * latent) as real, perElem));
      KvEstimate(Some(total), Some(total), Medium)
  }

  // ------------------------------------------------------------------ what the estimates promise

  lemma {:induction false} AtLeastOneByte(x: real)
    requires x >= 1.0
    ensures Floor(x) >= 1
  {
  }

  /** The latent cache is known or not, and at least a byte, whatever the group; all of it sits on every rank. */
  lemma {:induction false} MlaPerToken(m: ModelShape, perElem: real)
    requires perElem >= 0.5
    ensures var e := MlaEstimate(m, perElem);
            && e.perGpu == e.total
            && (e.perGpu.Some? <==> Given(m.layers) && Given(m.kvLoraRank))
            && (e.perGpu.Some? && m.layers.value * m.kvLoraRank.value >= 2 ==> e.perGpu.value >= 1)
  {
    if Given(m.layers) && Given(m.kvLoraRank) {
      var layers, lora := m.layers.value, m.kvLoraRank.value;
      var latent := lora + if m.qkRopeHeadDim.Some? then m.qkRopeHeadDim.value else 0;
      var cells := layers * latent;
      assert cells >= layers * lora by { assert layers * (latent - lora) >= 0; }
      if layers * lora >= 2 {
        ScaleUp(2.0, cells as real, perElem);
        ScaleOrder(2.0, 0.5, perElem);
        assert Scaled(2.0, 0.5) == 1.0;
        hide Scaled;
        AtLeastOneByte(Scaled(cells as real, perElem));
      }
    }
  }

  lemma {:induction false} FloorOrder(x: real, y: real)
    requires 0.0 <= x <= y
    ensures Floor(x) <= Floor(y)
  {
  }

  lemma {:induction false} Factor(d: real, f: real)
    requires f > 0.0 && d * f >= 0.0
    ensures d >= 0.0
  {
  }

  lemma {:induction false} ShareOrder(heads: real, few: real, many: real)
    requires heads >= 0.0 && 0.0 < few <= many
    ensures 0.0 <= heads / many <= heads / few
  {
    var x, y := heads / few, heads / many;
    assert x * few == heads && y * many == heads;
    Factor(y, many);
    assert y * (many - few) >= 0.0;
    assert (x - y) * few == y * (many - few);
    Factor(x - y, few);
  }

  lemma {:induction false} PerRankOrder(kvHeads: nat, tp: nat, more: nat, unit: real)
    requires 1 <= tp <= more && unit >= 1.0
    ensures 1 <= Floor(Scaled(unit, HeadsPerRank(kvHeads, more))) <= Floor(Scaled(unit, HeadsPerRank(kvHeads, tp)))
  {
    HeadsOrder(kvHeads, tp, more);
    var heads, fewer := HeadsPerRank(kvHeads, tp), HeadsPerRank(kvHeads, more);
    assert Scaled(unit, 1.0) == unit;
    hide HeadsPerRank, Floor, Scaled;
    ScaleOrder(unit, fewer, heads);
    ScaleOrder(unit, 1.0, fewer);
    FloorOrder(Scaled(unit, fewer), Scaled(unit, heads));
  }

  lemma {:induction false} HeadsOrder(kvHeads: nat, tp: nat, more: nat)
    requires 1 <= tp <= more
    ensures HeadsPerRank(kvHeads, more) <= HeadsPerRank(kvHeads, tp)
  {
    ShareOrder(kvHeads as real, tp as real, more as real);
  }

  /** Wider groups never hold more cache per GPU, and never lose it to rounding. */
  lemma {:induction false} StandardMonotone(m: ModelShape, tp: nat, more: nat, perElem: real)
    requires 1 <= tp <= more && perElem >= 0.5
    ensures var few, many := StandardEstimate(m, tp, perElem), StandardEstimate(m, more, perElem);
            && (few.perGpu.Some? <==> many.perGpu.Some?)
            && (few.perGpu.Some? ==> 1 <= many.perGpu.value <= few.perGpu.value)
            && few.total == many.total && few.confidence == many.confidence
  {
    hide HeadDim, Unit, HeadsPerRank, Scaled;
    if StandardEstimate(m, tp, perElem).perGpu.Some? {
      var layers, heads, headDim := m.layers.value, m.kvHeads.value, HeadDim(m).value;
      var unit := Unit(layers, headDim, perElem);
      PerRankOrder(heads, tp, more, unit);
    }
  }

  lemma {:induction false} RanksCover(unit: real, heads: real, ranks: real, perRank: real, total: real, held: real)
    requires unit >= 0.0 && ranks > 0.0 && perRank >= heads / ranks
    requires total <= Scaled(unit, heads) && held > Scaled(unit, perRank)
    ensures total < held * ranks
  {
    var share := heads / ranks;
    assert share * ranks == heads;
    assert (perRank - share) * ranks >= 0.0;
    ScaleOrder(unit, heads, perRank * ranks);
    assert unit * (perRank * ranks) == (unit * perRank) * ranks;
    assert (held - unit * perRank) * ranks > 0.0;
  }

  /** All ranks together hold the whole cache, up to the rounding of each. */
  lemma {:induction false} RanksHoldCache(m: ModelShape, tp: nat, perElem: real)
    requires tp >= 1 && perElem >= 0.0
    ensures var e := StandardEstimate(m, tp, perElem);
            e.total.Some? ==> e.total.value < tp * (e.perGpu.value + 1)
  {
    hide HeadDim, Unit, Scaled;
    var e := StandardEstimate(m, tp, perElem);
    if e.total.Some? {
      var unit := Unit(m.layers.value, HeadDim(m).value, perElem);
      var held := e.perGpu.value + 1;
      RanksCover(unit, m.kvHeads.value as real, tp as real, HeadsPerRank(m.kvHeads.value, tp), e.total.value as real, held as real);
      assert held as real * tp as real == (tp * held) as real;
    }
  }

  lemma {:induction false} WholeProduct(x: nat, y: nat)
    ensures Scaled(x as real, y as real) == (x * y) as real
    ensures Floor((x * y) as real) == x * y
  {
  }

  /** Bytes of one head per token: a key and a value of each element of each layer. */
  lemma {:induction false} UnitBytes(layers: nat, headDim: nat, bytes: nat)
    ensures Unit(layers, headDim, bytes as real) == (layers * headDim * (bytes + bytes)) as real
  {
    var cells := 2 * layers * headDim;
    WholeProduct(cells, bytes);
    assert cells * bytes == layers * headDim * (bytes + bytes);
  }

  lemma {:induction false} WholeCache(layers: nat, heads: nat, headDim: nat, bytes: nat)
    ensures Floor(CacheBytes(layers, heads as real, headDim, bytes as real)) == layers * headDim * (bytes + bytes) * heads
  {
    hide Unit;
    UnitBytes(layers, headDim, bytes);
    WholeProduct(layers * headDim * (bytes + bytes), heads);
  }

  /**
   * With whole bytes per element the cache is a key and a value for every element of every head of
   * every layer. Heads that divide among the ranks do so exactly; when there are as many ranks as
   * heads or more, each holds one head.
   */
  lemma {:induction false} KeysAndValues(m: ModelShape, tp: nat, bytes: nat)
    requires tp >= 1 && Given(m.layers) && Given(m.kvHeads) && Given(HeadDim(m))
    ensures var e, heads := StandardEstimate(m, tp, bytes as real), m.kvHeads.value;
            var head := m.layers.value * HeadDim(m).value * (bytes + bytes);
            && e.total == Some(head * heads)
            && (forall share: nat :: heads == tp * share ==> e.perGpu == Some(head * share))
            && (heads <= tp ==> e.perGpu == Some(head))
  {
    hide HeadDim, CacheBytes, Floor, HeadsPerRank;
    var layers, heads, headDim := m.layers.value, m.kvHeads.value, HeadDim(m).value;
    WholeCache(layers, heads, headDim, bytes);
    forall share: nat | heads == tp * share
      ensures StandardEstimate(m, tp, bytes as real).perGpu == Some(layers * headDim * (bytes + bytes) * share)
    {
      EvenShare(heads, tp, share);
      WholeCache(layers, share, headDim, bytes);
    }
    if heads <= tp {
      OneHead(heads, tp);
      WholeCache(layers, 1, headDim, bytes);
    }
  }

  lemma {:induction false} EvenShare(heads: nat, tp: nat, share: nat)
    requires tp >= 1 && heads >= 1 && heads == tp * share
    ensures HeadsPerRank(heads, tp) == share as real && share >= 1
  {
    assert share >= 1;
    assert heads as real == tp as real * share as real;
    assert heads as real / tp as real == share as real;
  }

  lemma {:induction false} OneHead(heads: nat, tp: nat)
    requires 1 <= heads <= tp
    ensures HeadsPerRank(heads, tp) == 1.0
  {
    var x := heads as real / tp as real;
    assert x * tp as real == heads as real;
    if x > 1.0 {
      ScaleUpStrictly(1.0, x, tp as real);
    }
  }

  /** The latent cache holds the latent and the rotary key of every layer once, whatever the group. */
  lemma {:induction false} LatentBytes(m: ModelShape, bytes: nat)
    requires Given(m.layers) && Given(m.kvLoraRank)
    ensures var latent := m.kvLoraRank.value + if m.qkRopeHeadDim.Some? then m.qkRopeHeadDim.value else 0;
            MlaEstimate(m, bytes as real).total == Some(m.layers.value * latent * bytes)
  {
    var latent := m.kvLoraRank.value + if m.qkRopeHeadDim.Some? then m.qkRopeHeadDim.value else 0;
    WholeProduct(m.layers.value * latent, bytes);
  }
}
