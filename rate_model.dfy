/**
 * Pacing of the delivery loop: the pause after a successful send
 * (TelegramSender.calculate_delay) and the clamp applied to a FloodWait
 * cooldown requested by the platform (send_to_target).
 */
module RateModel {

  import opened TelegramConfig

  /** The two end points handed to random.uniform, in seconds. */
  datatype Interval = Interval(lo: real, hi: real)

  /** A value of random.random(): a fraction in [0, 1). */
  type Fraction = u: real | 0.0 <= u < 1.0 witness 0.0

  /** The longest FloodWait cooldown that is honoured, in seconds. */
  const FloodWaitCeiling: nat := 300

  /** `d` lies between the end points of `iv`, whichever of them is the smaller. */
  predicate Within(d: real, iv: Interval) {
    if iv.lo <= iv.hi then iv.lo <= d <= iv.hi else iv.hi <= d <= iv.lo
  }

  /**
   * random.uniform(a, b), which CPython computes as a + (b - a) * random():
   * the result lies between a and b even when a > b.
   */
  function Uniform(iv: Interval, u: Fraction): (d: real)
    ensures Within(d, iv)
    ensures iv.lo < iv.hi ==> d < iv.hi
  {
    var width := iv.hi - iv.lo;
    // width * u and width * (1 - u) add up to the width, and neither has the opposite sign
    var p := width * u;
    var q := width * (1.0 - u);
    assert p + q == width;
    if iv.lo <= iv.hi then
      ProductNonNegative(width, u);
      ProductNonNegative(width, 1.0 - u);
      assert 0.0 < width ==> 0.0 < q by {
        if 0.0 < width {
          ProductPositive(width, 1.0 - u);
        }
      }
      iv.lo + p
    else
      ProductNonNegative(-width, u);
      ProductNonNegative(-width, 1.0 - u);
      assert -width * u == -p;
      assert -width * (1.0 - u) == -q;
      iv.lo + p
  }

  lemma ProductNonNegative(a: real, b: real)
    requires 0.0 <= a && 0.0 <= b
    ensures 0.0 <= a * b
  {
  }

  lemma ProductPositive(a: real, b: real)
    requires 0.0 < a && 0.0 < b
    ensures 0.0 < a * b
  {
  }

  /** The anti-flood schedule: widening ranges as the number of sends grows. */
  function AntiFloodTier(sentCount: nat): (iv: Interval)
    ensures 1.0 <= iv.lo < iv.hi <= 30.0
  {
    if sentCount < 10 then Interval(1.0, 3.0)
    else if sentCount < 30 then Interval(3.0, 7.0)
    else if sentCount < 50 then Interval(7.0, 15.0)
    else Interval(15.0, 30.0)
  }

  /** The range a delay is drawn from, for a sender whose counter reads `sentCount`. */
  function DelayRange(cfg: Config, sentCount: nat): Interval {
    if cfg.autoAntiFlood then AntiFloodTier(sentCount)
    else Interval(cfg.minDelay as real, cfg.maxDelay as real)
  }

  /** calculate_delay, with the draw of random.random() passed in as `u`. */
  function CalculateDelay(cfg: Config, sentCount: nat, u: Fraction): (d: real)
    ensures Within(d, DelayRange(cfg, sentCount))
    ensures cfg.autoAntiFlood && sentCount < 10 ==> 1.0 <= d < 3.0
    ensures cfg.autoAntiFlood && 10 <= sentCount < 30 ==> 3.0 <= d < 7.0
    ensures cfg.autoAntiFlood && 30 <= sentCount < 50 ==> 7.0 <= d < 15.0
    ensures cfg.autoAntiFlood && 50 <= sentCount ==> 15.0 <= d < 30.0
    ensures !cfg.autoAntiFlood && cfg.minDelay <= cfg.maxDelay ==>
              cfg.minDelay as real <= d <= cfg.maxDelay as real
    ensures !cfg.autoAntiFlood && cfg.maxDelay <= cfg.minDelay ==>
              cfg.maxDelay as real <= d <= cfg.minDelay as real
  {
    Uniform(DelayRange(cfg, sentCount), u)
  }

  /** The tiers only move up: neither end point falls as the send count grows. */
  lemma TierBoundsMonotone(m: nat, n: nat)
    requires m <= n
    ensures AntiFloodTier(m).lo <= AntiFloodTier(n).lo
    ensures AntiFloodTier(m).hi <= AntiFloodTier(n).hi
  {
  }

  /** The cooldown actually slept for a FloodWait of `seconds`: min(seconds, 300). */
  function ForcedWait(seconds: nat): (w: nat)
    ensures w <= seconds && w <= FloodWaitCeiling
    ensures w == seconds || w == FloodWaitCeiling
  {
    if seconds < FloodWaitCeiling then seconds else FloodWaitCeiling
  }
}
