/**
 * The per-step scalars of the optimizer step builder: the apply-step
 * indicator of gradient accumulation with the betas it gates, and the blend
 * coefficient of the two-loss multiple-gradient descent (MGDA) strategy.
 */
module OptimizerSchedule {

  import opened Shapes

  // ---------------------------------------------------------------------------
  // Step indicator and beta gating
  // ---------------------------------------------------------------------------

  /**
   * `step`: 1 when `manualStep + 1` is a multiple of the accumulation window,
   * else 0. A window of 0 makes the floating-point modulus NaN, which never
   * equals 0.
   */
  function StepIndicator(manualStep: nat, window: nat): (r: nat)
    ensures r <= 1
  {
    if window == 0 then 0
    else if (manualStep + 1) % window == 0 then 1 else 0
  }

  /** Within the first window only the last micro-step applies. */
  lemma FirstWindow(j: nat, window: nat)
    requires j < window
    ensures StepIndicator(j, window) == 1 <==> j == window - 1
  {
    if j + 1 < window {
      assert (j + 1) % window == j + 1;
    } else {
      assert (j + 1) % window == 0;
    }
  }

  /** The indicator repeats with the window. */
  lemma StepPeriodic(manualStep: nat, window: nat)
    requires window >= 1
    ensures StepIndicator(manualStep + window, window) == StepIndicator(manualStep, window)
  {
    var x := manualStep + 1;
    var q := x / window;
    assert x == q * window + x % window;
    DivModUnique(x + window, window, q + 1, x % window);
  }

  /** Every window of micro-steps ends in exactly one apply step. */
  lemma {:induction false} OneApplyPerWindow(w: nat, j: nat, window: nat)
    requires j < window
    ensures StepIndicator(w * window + j, window) == 1 <==> j == window - 1
    decreases w
  {
    if w == 0 {
      FirstWindow(j, window);
    } else {
      OneApplyPerWindow(w - 1, j, window);
      StepPeriodic((w - 1) * window + j, window);
      assert (w - 1) * window + j + window == w * window + j;
    }
  }

  /** The scalars that gate the optimizers' state updates on one micro-step. */
  datatype Gating = Gating(step: real, mstep: real, beta1: real, beta2: real)

  /** `step`, `mstep = 1 - step` and `beta_i = 1 - step * (1 - opt_beta_i)`. */
  function Gate(manualStep: nat, window: nat, optBeta1: real, optBeta2: real): (r: Gating)
    ensures StepIndicator(manualStep, window) == 1 ==>
      r == Gating(1.0, 0.0, optBeta1, optBeta2)
    ensures StepIndicator(manualStep, window) == 0 ==>
      r == Gating(0.0, 1.0, 1.0, 1.0)
  {
    var step := StepIndicator(manualStep, window) as real;
    Gating(step, 1.0 - step, 1.0 - step * (1.0 - optBeta1), 1.0 - step * (1.0 - optBeta2))
  }

  // ---------------------------------------------------------------------------
  // MGDA blend coefficient
  // ---------------------------------------------------------------------------

  /**
   * The blend coefficient as written, from the accumulated inner products
   * `v11 = g1·g1`, `v12 = g1·g2`, `v22 = g2·g2`: 0.999 when `v12 >= v11`,
   * else 0.001 when `v12 >= v22`, else `(v22 - v12) / (v11 + v22 + 2 v12)`.
   * The reciprocal is evaluated on every branch, so a zero denominator makes
   * the result NaN whatever the branch; the model excludes it.
   */
  function GammaAsWritten(v11: real, v12: real, v22: real): (r: real)
    requires v11 + v22 + 2.0 * v12 != 0.0
    ensures v12 >= v11 ==> r == 0.999
    ensures v12 < v11 && v12 >= v22 ==> r == 0.001
    ensures v12 < v11 && v12 < v22 ==> r == (v22 - v12) / (v11 + v22 + 2.0 * v12)
  {
    var gamma := if v12 >= v11 then 1.0 - 0.001 else 0.0;
    var gamma := gamma + if v12 >= v22 && gamma == 0.0 then 0.001 else 0.0;
    gamma + if gamma == 0.0 then -1.0 * (v12 - v22) / (v11 + v22 + 2.0 * v12) else 0.0
  }

  /**
   * The gradients g1 = (1, 0) and g2 = (-1, 0.1) give v11 = 1, v12 = -1,
   * v22 = 1.01, and the coefficient as written is 201: far outside [0, 1].
   */
  lemma GammaAsWrittenLeavesUnitInterval()
    ensures var g1 := (1.0, 0.0);
      var g2 := (-1.0, 0.1);
      var v11 := g1.0 * g1.0 + g1.1 * g1.1;
      var v12 := g1.0 * g2.0 + g1.1 * g2.1;
      var v22 := g2.0 * g2.0 + g2.1 * g2.1;
      v11 + v22 + 2.0 * v12 != 0.0 && GammaAsWritten(v11, v12, v22) == 201.0
  {
  }

  /**
   * The min-norm coefficient the rule intends: the denominator is
   * `v11 + v22 - 2 v12 = |g1 - g2|^2`.
   */
  function MinNormGamma(v11: real, v12: real, v22: real): (r: real)
    ensures v12 >= v11 ==> r == 0.999
    ensures v12 < v11 && v12 >= v22 ==> r == 0.001
    ensures 0.0 < r < 1.0
  {
    if v12 >= v11 then 0.999
    else if v12 >= v22 then 0.001
    else
      var d := v11 + v22 - 2.0 * v12;
      ProperFraction(v22 - v12, d);
      (v22 - v12) / d
  }

  /** A positive quotient of a smaller by a larger number is a proper fraction. */
  lemma ProperFraction(a: real, d: real)
    requires 0.0 < a < d
    ensures 0.0 < a / d < 1.0
  {
    var g := a / d;
    assert g * d == a;
    assert (1.0 - g) * d == d - a;
    PositiveFactor(g, d);
    PositiveFactor(1.0 - g, d);
  }

  lemma PositiveFactor(x: real, y: real)
    requires y > 0.0 && x * y > 0.0
    ensures x > 0.0
  {
  }

  /** `|t g1 + (1 - t) g2|^2` in terms of the inner products. */
  function NormSquared(t: real, v11: real, v12: real, v22: real): real
  {
    t * t * v11 + 2.0 * t * (1.0 - t) * v12 + (1.0 - t) * (1.0 - t) * v22
  }

  /**
   * In the interior branch the corrected coefficient minimises the norm of
   * the blended gradient: every other blend is longer by `|g1 - g2|^2 (t - gamma)^2`.
   */
  lemma MinNormGammaMinimises(v11: real, v12: real, v22: real, t: real)
    requires v12 < v11 && v12 < v22
    ensures var gamma := MinNormGamma(v11, v12, v22);
      NormSquared(t, v11, v12, v22) - NormSquared(gamma, v11, v12, v22)
      == (v11 + v22 - 2.0 * v12) * (t - gamma) * (t - gamma)
  {
    var d := v11 + v22 - 2.0 * v12;
    var gamma := MinNormGamma(v11, v12, v22);
    assert gamma * d == v22 - v12;
    assert NormSquared(t, v11, v12, v22) == d * t * t - 2.0 * t * (v22 - v12) + v22;
    assert NormSquared(gamma, v11, v12, v22) == d * gamma * gamma - 2.0 * gamma * (v22 - v12) + v22;
    calc {
      d * (t - gamma) * (t - gamma);
      d * t * t - 2.0 * t * (gamma * d) + gamma * (gamma * d);
      d * t * t - 2.0 * t * (v22 - v12) + gamma * (v22 - v12);
    }
  }

  /**
   * The loss the step builder differentiates for loss head `idx`: under the
   * MGDA strategy the third head is replaced by the blend
   * `gamma * loss_0 + (1 - gamma) * loss_1`.
   */
  function LossForHead(losses: seq<real>, idx: nat, mgda: bool, gamma: real): (r: real)
    requires idx < |losses|
    ensures !(mgda && idx == 2) ==> r == losses[idx]
  {
    if mgda && idx == 2 then gamma * losses[0] + (1.0 - gamma) * losses[1] else losses[idx]
  }

  lemma NonNegativeProduct(x: real, y: real)
    requires x >= 0.0 && y >= 0.0
    ensures x * y >= 0.0
  {
  }

  /** With a coefficient in [0, 1] the blended loss lies between the two losses it blends. */
  lemma BlendBetween(losses: seq<real>, gamma: real)
    requires |losses| >= 3 && 0.0 <= gamma <= 1.0
    ensures var r := LossForHead(losses, 2, true, gamma);
      (losses[0] <= r <= losses[1]) || (losses[1] <= r <= losses[0])
  {
    var a := losses[0];
    var b := losses[1];
    assert LossForHead(losses, 2, true, gamma) == b + gamma * (a - b);
    if a <= b {
      NonNegativeProduct(gamma, b - a);
      NonNegativeProduct(1.0 - gamma, b - a);
    } else {
      NonNegativeProduct(gamma, a - b);
      NonNegativeProduct(1.0 - gamma, a - b);
    }
  }

  /** With the coefficient as written the blend can leave that range: losses 1 and 0 blend to 201. */
  lemma BlendAsWrittenOutside()
    ensures var gamma := GammaAsWritten(1.0, -1.0, 1.01);
      LossForHead([1.0, 0.0, 5.0], 2, true, gamma) == 201.0
  {
    GammaAsWrittenLeavesUnitInterval();
  }

  /** The MGDA loss of the third head with the corrected coefficient. */
  function MgdaLoss(losses: seq<real>, v11: real, v12: real, v22: real): (r: real)
    requires |losses| >= 3
    ensures (losses[0] <= r <= losses[1]) || (losses[1] <= r <= losses[0])
  {
    var gamma := MinNormGamma(v11, v12, v22);
    BlendBetween(losses, gamma);
    LossForHead(losses, 2, true, gamma)
  }
}
