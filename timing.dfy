/**
 * The half-pulse delay derived from a requested speed, in exact real
 * arithmetic: one revolution at `rpm` takes 60 / rpm seconds and is made of
 * n pulses, each held high and then low for the same delay.
 */
module Timing {

  function HalfStepDelay(rpm: real, n: nat): (delay: real)
    requires rpm != 0.0 && n > 0
    ensures (n as real) * 2.0 * delay * rpm == 60.0
    ensures delay > 0.0 <==> rpm > 0.0
    ensures delay < 0.0 <==> rpm < 0.0
  {
    (60.0 / rpm) / ((n as real) * 2.0)
  }

  /** A faster requested speed gives a strictly shorter delay. */
  lemma DelayDecreasesWithRpm(slow: real, fast: real, n: nat)
    requires 0.0 < slow < fast && n > 0
    ensures HalfStepDelay(fast, n) < HalfStepDelay(slow, n)
  {
    var d1, d2 := HalfStepDelay(slow, n), HalfStepDelay(fast, n);
    var c := (n as real) * 2.0;
    assert c * d1 * slow == c * d2 * fast;
    assert d2 * fast < d2 * fast + d1 * (fast - slow);
  }

  /** More steps per revolution give a strictly shorter delay at the same speed. */
  lemma DelayDecreasesWithSteps(rpm: real, coarse: nat, fine: nat)
    requires rpm > 0.0 && 0 < coarse < fine
    ensures HalfStepDelay(rpm, fine) < HalfStepDelay(rpm, coarse)
  {
    var d1, d2 := HalfStepDelay(rpm, coarse), HalfStepDelay(rpm, fine);
    assert (coarse as real) * d1 == (fine as real) * d2;
  }
}
