/**
 * The timing-step update of the software PLL in `demod`: the next sample spacing is
 * the ideal spacing corrected by the phase estimate times the loop gain, saturated
 * to a band of plus or minus 5% around the ideal.
 */
module M17Timing {

  /** symbol_rate / sample_rate = 4800 / 48000. */
  const IdealDt: real := 0.1
  const MinDt: real := 0.095
  const MaxDt: real := 0.105

  function Max(a: real, b: real): (r: real)
    ensures r >= a && r >= b && (r == a || r == b)
  {
    if a < b then b else a
  }

  function Min(a: real, b: real): (r: real)
    ensures r <= a && r <= b && (r == a || r == b)
  {
    if b < a then b else a
  }

  /** `std::min(std::max(0.095f, x), 0.105f)`: saturate `x` to the band. */
  function ClampDt(x: real): (r: real)
    ensures MinDt <= r <= MaxDt
    ensures MinDt <= x <= MaxDt ==> r == x
    ensures x < MinDt ==> r == MinDt
    ensures x > MaxDt ==> r == MaxDt
  {
    Min(Max(MinDt, x), MaxDt)
  }

  /**
   * The spacing after one `demod` step. It lies in the band whatever the phase
   * estimate, and follows the unsaturated correction exactly while that correction
   * is at most 0.005 in size.
   */
  function NextDt(phaseEstimate: real, gain: real): (r: real)
    ensures MinDt <= r <= MaxDt
    ensures -0.005 <= phaseEstimate * gain <= 0.005 ==> r == IdealDt - phaseEstimate * gain
    ensures phaseEstimate * gain > 0.005 ==> r == MinDt
    ensures phaseEstimate * gain < -0.005 ==> r == MaxDt
  {
    ClampDt(IdealDt - phaseEstimate * gain)
  }

  /**
   * Saturation is monotone: a larger correction never gives a longer spacing, so
   * the loop always pushes the sampling instant in the direction the phase error asks.
   */
  lemma NextDtMonotone(p: real, q: real, gain: real)
    requires gain >= 0.0 && p <= q
    ensures NextDt(q, gain) <= NextDt(p, gain)
  {
    MulNonNegative(q - p, gain);
    assert p * gain <= q * gain;
    ClampDtMonotone(IdealDt - q * gain, IdealDt - p * gain);
  }

  lemma MulNonNegative(a: real, b: real)
    requires a >= 0.0 && b >= 0.0
    ensures a * b >= 0.0
  {
    if a > 0.0 && b > 0.0 {
      assert a * b > 0.0 * b;
    }
  }

  lemma ClampDtMonotone(x: real, y: real)
    requires x <= y
    ensures ClampDt(x) <= ClampDt(y)
  {
  }
}
