/**
 The per-element update rule of the Custom pulsed device: what one pulse
 coincidence on one weight does, for the noise-free and the noisy sparse loop
 bodies and for the dense loop body.
 */
module Pulse {
  import opened Bounds

  /** One pulse coincidence as the update loop hands it to the loop body: the
      column `j` of the weight and the resolved `sign`. */
  datatype Event = Event(col: int, sign: int)

  /** The device parameters of one weight: the step down and up, and the bounds. */
  datatype Cell = Cell(scaleDown: real, scaleUp: real, minBound: real, maxBound: real)

  /** Which loop body applies an event. `Plain` is the sparse body taken when
      `dw_min_std` is not positive, `Noisy` the sparse body taken when it is,
      and `Dense` the dense body, which decides about noise per event. */
  datatype Rule = Plain | Noisy(std: real) | Dense(std: real)

  /** Whether the loop body asks the generator for one Gaussian sample per event. */
  predicate Draws(rule: Rule) {
    match rule
    case Plain => false
    case Noisy(_) => true
    case Dense(std) => std > 0.0
  }

  /** The relative noise of one step, `dw_min_std` times a Gaussian sample.
      This and `Scaled` name the two products of a loop body, so that every
      body and every lemma about them build each product as the same term. */
  function Noise(std: real, g: real): (r: real) {
    std * g
  }

  /** The magnitude of a step: a gain times the per-element scale. */
  function Scaled(gain: real, scale: real): (r: real) {
    gain * scale
  }

  /** The weight after the step and before the clip, as each loop body computes it. */
  function PreClip(rule: Rule, w: real, sign: int, g: real, c: Cell): (r: real) {
    match rule
    case Plain =>
      if sign > 0 then w - c.scaleDown else w + c.scaleUp
    case Noisy(std) =>
      if sign > 0 then w - Scaled(1.0 + Noise(std, g), c.scaleDown)
      else w + Scaled(1.0 + Noise(std, g), c.scaleUp)
    case Dense(std) =>
      var dw := if std > 0.0 then Noise(std, g) else 0.0;
      if sign > 0 then w - Scaled(1.0 + dw, c.scaleDown)
      else w + Scaled(1.0 + dw, c.scaleUp)
  }

  /** One event on one weight: step, then clip. `g` is the Gaussian sample the
      event draws; a rule that does not draw ignores it. */
  function Step(rule: Rule, w: real, sign: int, g: real, c: Cell): (r: real)
    ensures WithinBounds(r, c.minBound, c.maxBound)
  {
    Clip(PreClip(rule, w, sign, g, c), c.minBound, c.maxBound)
  }

  // ---------------------------------------------------------------------------
  // A single reference definition of the step, shared by the three bodies.

  /** The multiplicative gain of an event's step: 1 without noise, and
      `1 + dw_min_std * g` when a sample is drawn. */
  function Gain(rule: Rule, g: real): (r: real) {
    match rule
    case Plain => 1.0
    case Noisy(std) => 1.0 + Noise(std, g)
    case Dense(std) => if std > 0.0 then 1.0 + Noise(std, g) else 1.0
  }

  /** The signed change an event asks for: `scale_down` subtracted for a positive
      sign, `scale_up` added for any other sign, both times the gain. */
  function Delta(sign: int, gain: real, c: Cell): (r: real) {
    if sign > 0 then -Scaled(gain, c.scaleDown) else Scaled(gain, c.scaleUp)
  }

  /** Every loop body steps the weight by the signed, gained scale of its event. */
  lemma PreClipIsDelta(rule: Rule, w: real, sign: int, g: real, c: Cell)
    ensures PreClip(rule, w, sign, g, c) == w + Delta(sign, Gain(rule, g), c)
  {
  }

  /** The noisy body with sample `g` subtracts `(1 + dw_min_std * g) * scale_down`
      for a positive sign and adds `(1 + dw_min_std * g) * scale_up` otherwise,
      then clips. */
  lemma NoisyStepValue(std: real, w: real, sign: int, g: real, down: real, up: real, lo: real, hi: real)
    ensures sign > 0 ==> Step(Noisy(std), w, sign, g, Cell(down, up, lo, hi)) == Clip(w - (1.0 + std * g) * down, lo, hi)
    ensures sign <= 0 ==> Step(Noisy(std), w, sign, g, Cell(down, up, lo, hi)) == Clip(w + (1.0 + std * g) * up, lo, hi)
  {
    assert Noise(std, g) == std * g;
  }

  /** A rule that draws no sample computes the same value whatever sample is
      offered: the noise-free bodies are deterministic. */
  lemma StepIgnoresSample(rule: Rule, w: real, sign: int, g1: real, g2: real, c: Cell)
    requires !Draws(rule)
    ensures Step(rule, w, sign, g1, c) == Step(rule, w, sign, g2, c)
  {
  }

  /** The dense body agrees with the sparse body the sparse loop would pick for
      the same `dw_min_std`: with the sample when noise is on, and with the
      noise-free step when `dw_min_std <= 0`. */
  lemma DenseStepIsSparseStep(std: real, w: real, sign: int, g: real, c: Cell)
    ensures Step(Dense(std), w, sign, g, c)
         == Step(if std > 0.0 then Noisy(std) else Plain, w, sign, g, c)
    ensures Draws(Dense(std)) == Draws(if std > 0.0 then Noisy(std) else Plain)
  {
    PreClipIsDelta(Dense(std), w, sign, g, c);
    PreClipIsDelta(if std > 0.0 then Noisy(std) else Plain, w, sign, g, c);
  }

  /** Direction of change: for a weight within its bounds (for crossed bounds
      that is the lower bound itself) and a step of non-negative magnitude, a positive sign never raises the weight and any
      other sign never lowers it. Before the clip the change is strict when the
      magnitude is positive. */
  lemma StepDirection(rule: Rule, w: real, sign: int, g: real, c: Cell)
    requires WithinBounds(w, c.minBound, c.maxBound)
    ensures sign > 0 && Scaled(Gain(rule, g), c.scaleDown) >= 0.0 ==> Step(rule, w, sign, g, c) <= w
    ensures sign <= 0 && Scaled(Gain(rule, g), c.scaleUp) >= 0.0 ==> Step(rule, w, sign, g, c) >= w
    ensures sign > 0 && Scaled(Gain(rule, g), c.scaleDown) > 0.0 ==> PreClip(rule, w, sign, g, c) < w
    ensures sign <= 0 && Scaled(Gain(rule, g), c.scaleUp) > 0.0 ==> PreClip(rule, w, sign, g, c) > w
  {
    var pre := PreClip(rule, w, sign, g, c);
    PreClipIsDelta(rule, w, sign, g, c);
    if sign > 0 && Scaled(Gain(rule, g), c.scaleDown) >= 0.0 {
      ClipMonotone(pre, w, c.minBound, c.maxBound);
    }
    if sign <= 0 && Scaled(Gain(rule, g), c.scaleUp) >= 0.0 {
      ClipMonotone(w, pre, c.minBound, c.maxBound);
    }
  }

  /** The noisy gain is not clamped at zero: a sample below `-1 / dw_min_std`
      turns a decrement into an increment. Here `dw_min_std = 0.5` and `g = -4`
      make a positive-sign event raise the weight from 0 to 0.1. */
  lemma NoisyGainCanReverseStep()
    ensures Step(Noisy(0.5), 0.0, 1, -4.0, Cell(0.1, 0.1, -1.0, 1.0)) > 0.0
  {
    assert PreClip(Noisy(0.5), 0.0, 1, -4.0, Cell(0.1, 0.1, -1.0, 1.0)) == 0.1;
  }
}
