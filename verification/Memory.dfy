/** The static per-GPU memory model: budget, estimate and the smallest tensor-parallel size that fits. */
module Memory {
  import opened Numbers

  const MIB := 1024 * 1024
  const GIB := 1024 * MIB
  const UNKNOWN_KV_MIN_SPARE_BYTES := 2 * GIB

  datatype MemoryModelConfig = MemoryModelConfig(
    headroomFraction: real, minHeadroomBytes: nat, engineOverheadBytes: nat, cudaGraphBytes: nat,
    commBufferBytesPerTpRank: nat, activationFraction: real, weightShardOverhead: real,
    maxMemoryFraction: real, minMemoryFraction: real, minKvSequences: nat)

  const DEFAULT_CONFIG := MemoryModelConfig(0.08, GIB, 3 * GIB / 2, GIB, 256 * MIB, 0.025, 0.01, 0.95, 0.3, 1)

  /** Fractions and sizes a configuration may hold. */
  predicate Sensible(cfg: MemoryModelConfig) {
    && cfg.headroomFraction >= 0.0 && cfg.activationFraction >= 0.0 && cfg.weightShardOverhead >= 0.0
    && cfg.maxMemoryFraction >= 0.0
  }

  /** `int(x)`: towards zero. */
  function Truncate(x: real): (r: int)
    ensures x >= 0.0 ==> r as real <= x < r as real + 1.0 && r >= 0
    ensures x < 0.0 ==> x <= r as real < x + 1.0 && r <= 0
  {
    if x >= 0.0 then x.Floor else -((-x).Floor)
  }

  function Max(x: real, y: real): (r: real)
    ensures r >= x && r >= y && (r == x || r == y)
  {
    if x >= y then x else y
  }

  function Min(x: real, y: real): (r: real)
    ensures r <= x && r <= y && (r == x || r == y)
  {
    if x <= y then x else y
  }

  // ------------------------------------------------------------------ the budget

  function SafetyReserve(total: nat, cfg: MemoryModelConfig): (r: nat)
    requires Sensible(cfg)
  {
    Truncate(Max(Scaled(cfg.headroomFraction, total as real), cfg.minHeadroomBytes as real))
  }

  /** The reserve is the share of the device or the least that is always kept, whichever is more. */
  lemma {:induction false} ReserveIsLarger(total: nat, cfg: MemoryModelConfig)
    requires Sensible(cfg)
    ensures var r, share := SafetyReserve(total, cfg) as real, Scaled(cfg.headroomFraction, total as real);
            && r >= cfg.minHeadroomBytes as real && r > share - 1.0
            && (r == cfg.minHeadroomBytes as real || r <= share)
  {
    var share, least := Scaled(cfg.headroomFraction, total as real), cfg.minHeadroomBytes;
    hide Scaled, Truncate, Max;
    LargerWhole(share, least);
  }

  lemma {:induction false} LargerWhole(share: real, least: nat)
    requires share >= 0.0
    ensures var r := Truncate(Max(share, least as real));
            r >= least && r as real > share - 1.0 && (r == least || r as real <= share)
  {
    if share < least as real {
      assert (least as real).Floor == least;
    } else {
      assert share.Floor >= least;
    }
  }

  /** `math.floor(budget / total * 100)`. */
  function Hundredths(budget: int, total: nat): (h: int)
    requires total > 0
    ensures Scaled(h as real, total as real) <= budget as real * 100.0 < Scaled(h as real + 1.0, total as real)
  {
    var h := (budget as real / total as real * 100.0).Floor;
    QuotientBounds(budget as real, total as real, h as real);
    h
  }

  lemma {:induction false} QuotientBounds(budget: real, total: real, h: real)
    requires total > 0.0 && h <= budget / total * 100.0 < h + 1.0
    ensures Scaled(h, total) <= budget * 100.0 < Scaled(h + 1.0, total)
  {
    QuotientScaled(budget, total);
    hide Scaled;
    ScaleUp(h, budget / total * 100.0, total);
    ScaleUpStrictly(budget / total * 100.0, h + 1.0, total);
  }

  lemma {:induction false} QuotientScaled(budget: real, total: real)
    requires total > 0.0
    ensures Scaled(budget / total * 100.0, total) == budget * 100.0
  {
    var q := budget / total;
    assert q * total == budget;
    assert (q * 100.0) * total == (q * total) * 100.0;
  }

  /** The largest engine fraction that leaves the reserve untouched, in hundredths. */
  function MemoryFraction(total: nat, free: nat, cfg: MemoryModelConfig): (f: real)
    requires Sensible(cfg)
    ensures f >= 0.0
  {
    if total == 0 then 0.0
    else Max(0.0, Min(cfg.maxMemoryFraction, Hundredths(free - SafetyReserve(total, cfg), total) as real / 100.0))
  }

  function EngineBudget(fraction: real, total: nat): int {
    Truncate(Scaled(fraction, total as real))
  }

  lemma {:induction false} HundredthsScaled(h: real, total: real)
    ensures Scaled(h / 100.0, total) == Scaled(h, total) / 100.0
    ensures Scaled((h + 1.0) / 100.0, total) == Scaled(h / 100.0, total) + total / 100.0
  {
  }

  /**
   * The engine's budget and the reserve together fit in free memory exactly when free memory covers
   * the reserve; and unless the fraction is capped, the budget is within a hundredth of the device,
   * plus a byte, of all that can be given.
   */
  lemma {:induction false} BudgetSafe(total: nat, free: nat, cfg: MemoryModelConfig)
    requires Sensible(cfg)
    ensures var budget, reserve := EngineBudget(MemoryFraction(total, free, cfg), total), SafetyReserve(total, cfg);
            && budget >= 0
            && (budget + reserve <= free <==> reserve <= free)
            && (free < reserve ==> budget == 0)
            && MemoryFraction(total, free, cfg) <= cfg.maxMemoryFraction
            && (total > 0 && reserve <= free && MemoryFraction(total, free, cfg) < cfg.maxMemoryFraction ==>
                  (free - reserve) as real < budget as real + total as real / 100.0 + 1.0)
  {
    var reserve := SafetyReserve(total, cfg);
    ScaledZero(total as real);
    if total > 0 {
      var h := Hundredths(free - reserve, total);
      var fraction := MemoryFraction(total, free, cfg);
      HundredthsScaled(h as real, total as real);
      hide Scaled;
      if fraction > 0.0 {
        ScaleUp(fraction, h as real / 100.0, total as real);
      }
      ScaleUp(0.0, fraction, total as real);
      HundredthsSign(h, total);
      if fraction < cfg.maxMemoryFraction {
        ScaleUp(h as real / 100.0, fraction, total as real);
        HundredthsScaled(h as real, total as real);
        NearlyAll(h as real, total, (free - reserve) as real, fraction, EngineBudget(fraction, total));
      }
    }
  }

  lemma {:induction false} HundredthsSign(h: int, total: nat)
    ensures h < 0 ==> Scaled(h as real + 1.0, total as real) <= 0.0
    ensures h >= 0 ==> Scaled(h as real, total as real) >= 0.0
  {
    ScaledZero(total as real);
    if h < 0 {
      assert h as real + 1.0 <= 0.0;
      ScaleUp(h as real + 1.0, 0.0, total as real);
    }
  }

  lemma {:induction false} NearlyAll(h: real, total: nat, spare: real, fraction: real, budget: int)
    requires total > 0 && spare * 100.0 < Scaled(h + 1.0, total as real)
    requires fraction >= h / 100.0 && Scaled(h / 100.0, total as real) <= Scaled(fraction, total as real)
    requires Scaled(fraction, total as real) < budget as real + 1.0
    ensures spare < budget as real + total as real / 100.0 + 1.0
  {
    HundredthsScaled(h, total as real);
    hide Scaled;
    assert Scaled((h + 1.0) / 100.0, total as real) == Scaled(h + 1.0, total as real) / 100.0 by {
      HundredthsScaled(h + 1.0, total as real);
    }
  }
}
