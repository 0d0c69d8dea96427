/**
 The incremental (first-difference) form of the discrete PID algorithm, and
 the positional form it is derived from:

   M(n) = KP * (E(n) + KI * SUM(i <= n) E(i) * dT(i) + KD * (E(n) - E(n-1)) / dT(n))

 The record computes delM(n) = M(n) - M(n-1) directly, so the integral sum
 never accumulates inside the controller.
 */
module PidAlgorithm {

  /** The change of output for one scan: `e` is the new error, `ep` the
      previous error, `dep` the previous change in error, `dt` and `dtp` the
      current and previous delta times. The derivative part is skipped while
      the previous delta time is zero. */
  function Increment(kp: real, ki: real, kd: real, e: real, ep: real, dep: real, dt: real, dtp: real): real
    requires dt != 0.0
  {
    var de := e - ep;
    var p := de + e * dt * ki;
    var d := if dtp != 0.0 then p + kd * (de / dt - dep / dtp) else p;
    kp * d
  }

  /** The integral sum SUM(i < |es|) es[i] * dts[i]. */
  function Integral(es: seq<real>, dts: seq<real>): real
    requires |es| == |dts|
  {
    if |es| == 0 then 0.0
    else Integral(es[..|es| - 1], dts[..|dts| - 1]) + es[|es| - 1] * dts[|dts| - 1]
  }

  /** The positional output M(n) after the samples `es`/`dts` (midrange term
      left out: it cancels in every difference). */
  function Positional(kp: real, ki: real, kd: real, es: seq<real>, dts: seq<real>): real
    requires |es| == |dts| >= 2
    requires dts[|dts| - 1] != 0.0
  {
    var n := |es|;
    kp * (es[n - 1] + ki * Integral(es, dts) + kd * (es[n - 1] - es[n - 2]) / dts[n - 1])
  }

  /** The increment the record computes at sample n, from the samples. */
  function IncrementAt(kp: real, ki: real, kd: real, es: seq<real>, dts: seq<real>): real
    requires |es| == |dts| >= 3
    requires dts[|dts| - 1] != 0.0
  {
    var n := |es|;
    Increment(kp, ki, kd, es[n - 1], es[n - 2], es[n - 2] - es[n - 3], dts[n - 1], dts[n - 2])
  }

  /** All delta times from index 1 on are non-zero (index 0 only feeds the integral). */
  predicate NonZeroSteps(dts: seq<real>)
  {
    forall i :: 1 <= i < |dts| ==> dts[i] != 0.0
  }

  lemma DistributeKp(kp: real, x: real, y: real)
    ensures kp * x - kp * y == kp * (x - y)
  {
  }

  lemma IntegralPart(ki: real, i0: real, e: real, dt: real)
    ensures ki * (i0 + e * dt) - ki * i0 == e * dt * ki
  {
  }

  lemma DerivativePart(kd: real, x: real, y: real, dt: real, dtp: real)
    requires dt != 0.0 && dtp != 0.0
    ensures kd * x / dt - kd * y / dtp == kd * (x / dt - y / dtp)
  {
  }

  /** The algebra of one first difference, on plain numbers: `i0` is the
      integral up to the previous sample. */
  lemma FirstDifferenceAlgebra(kp: real, ki: real, kd: real, e: real, ep: real, epp: real, dt: real, dtp: real, i0: real)
    requires dt != 0.0 && dtp != 0.0
    ensures kp * ((e - ep) + e * dt * ki + kd * ((e - ep) / dt - (ep - epp) / dtp))
         == kp * (e + ki * (i0 + e * dt) + kd * (e - ep) / dt) - kp * (ep + ki * i0 + kd * (ep - epp) / dtp)
  {
    IntegralPart(ki, i0, e, dt);
    DerivativePart(kd, e - ep, ep - epp, dt, dtp);
    DistributeKp(kp, e + ki * (i0 + e * dt) + kd * (e - ep) / dt, ep + ki * i0 + kd * (ep - epp) / dtp);
  }

  /** The integral extended by its last sample. */
  lemma {:induction false} IntegralLast(es: seq<real>, dts: seq<real>)
    requires |es| == |dts| >= 1
    ensures Integral(es, dts) == Integral(es[..|es| - 1], dts[..|dts| - 1]) + es[|es| - 1] * dts[|dts| - 1]
  {
  }

  /** The positional output after the previous sample, in terms of the samples. */
  lemma PositionalPrevious(kp: real, ki: real, kd: real, es: seq<real>, dts: seq<real>, e1: real, e2: real, dt1: real)
    requires |es| == |dts| >= 3
    requires e1 == es[|es| - 2] && e2 == es[|es| - 3] && dt1 == dts[|dts| - 2] && dt1 != 0.0
    ensures Positional(kp, ki, kd, es[..|es| - 1], dts[..|dts| - 1])
         == kp * (e1 + ki * Integral(es[..|es| - 1], dts[..|dts| - 1]) + kd * (e1 - e2) / dt1)
  {
    var pe, pd := es[..|es| - 1], dts[..|dts| - 1];
    assert pe[|pe| - 1] == e1 && pe[|pe| - 2] == e2 && pd[|pd| - 1] == dt1;
  }

  /** The positional output at the last sample, with the integral split at
      that sample. */
  lemma PositionalLast(kp: real, ki: real, kd: real, es: seq<real>, dts: seq<real>,
                       e: real, ep: real, dt: real, i0: real)
    requires |es| == |dts| >= 2
    requires e == es[|es| - 1] && ep == es[|es| - 2] && dt == dts[|dts| - 1] && dt != 0.0
    requires i0 == Integral(es[..|es| - 1], dts[..|dts| - 1])
    ensures Positional(kp, ki, kd, es, dts) == kp * (e + ki * (i0 + e * dt) + kd * (e - ep) / dt)
  {
    IntegralLast(es, dts);
  }

  /** The increment the record computes, spelled out. */
  lemma IncrementValue(kp: real, ki: real, kd: real, e: real, ep: real, epp: real, dt: real, dtp: real)
    requires dt != 0.0 && dtp != 0.0
    ensures Increment(kp, ki, kd, e, ep, ep - epp, dt, dtp)
         == kp * ((e - ep) + e * dt * ki + kd * ((e - ep) / dt - (ep - epp) / dtp))
  {
  }

  /** Once the previous delta time is non-zero, the incremental output is
      exactly the first difference of the positional output. */
  lemma IncrementIsFirstDifference(kp: real, ki: real, kd: real, es: seq<real>, dts: seq<real>)
    requires |es| == |dts| >= 3
    requires NonZeroSteps(dts)
    ensures IncrementAt(kp, ki, kd, es, dts)
         == Positional(kp, ki, kd, es, dts) - Positional(kp, ki, kd, es[..|es| - 1], dts[..|dts| - 1])
  {
    var n := |es|;
    var e, ep, epp, dt, dtp := es[n - 1], es[n - 2], es[n - 3], dts[n - 1], dts[n - 2];
    var i0 := Integral(es[..n - 1], dts[..n - 1]);
    PositionalLast(kp, ki, kd, es, dts, e, ep, dt, i0);
    PositionalPrevious(kp, ki, kd, es, dts, ep, epp, dtp);
    IncrementValue(kp, ki, kd, e, ep, epp, dt, dtp);
    FirstDifferenceAlgebra(kp, ki, kd, e, ep, epp, dt, dtp, i0);
  }

  /** The sum of the increments of samples 3..|es|. */
  function SumOfIncrements(kp: real, ki: real, kd: real, es: seq<real>, dts: seq<real>): real
    requires |es| == |dts| >= 2
    requires NonZeroSteps(dts)
  {
    if |es| == 2 then 0.0
    else SumOfIncrements(kp, ki, kd, es[..|es| - 1], dts[..|dts| - 1]) + IncrementAt(kp, ki, kd, es, dts)
  }

  /** Applying every increment to the output of the second sample reproduces
      the positional output: the incremental form loses nothing and keeps no
      integral sum of its own. */
  lemma {:induction false} IncrementsTelescope(kp: real, ki: real, kd: real, es: seq<real>, dts: seq<real>)
    requires |es| == |dts| >= 2
    requires NonZeroSteps(dts)
    ensures Positional(kp, ki, kd, es[..2], dts[..2]) + SumOfIncrements(kp, ki, kd, es, dts)
         == Positional(kp, ki, kd, es, dts)
  {
    if |es| > 2 {
      var pe, pd := es[..|es| - 1], dts[..|dts| - 1];
      assert pe[..2] == es[..2] && pd[..2] == dts[..2];
      IncrementsTelescope(kp, ki, kd, pe, pd);
      IncrementIsFirstDifference(kp, ki, kd, es, dts);
    } else {
      assert es[..2] == es && dts[..2] == dts;
    }
  }
}
