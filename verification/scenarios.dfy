/**
 Worked examples of the Custom device's update on small rows.
 */
module Scenarios {
  import opened Bounds
  import opened Pulse
  import opened RowUpdate
  import opened CustomDevice

  /** A device of `n` columns on one row with step 0.1 up and down, bounds
      [-1, 1], and noise standard deviation `std`. */
  function UniformDevice(n: nat, std: real): (dev: Device) {
    Device(CustomParams(0.1, std),
           [seq(n, _ => 0.1)], [seq(n, _ => 0.1)],
           [seq(n, _ => -1.0)], [seq(n, _ => 1.0)])
  }

  /** The device of the dense worked example: four columns, noise-free. */
  function ExampleDevice(): (dev: Device) {
    UniformDevice(4, 0.0)
  }

  /** First event of the dense worked example: a positive sign on column 0
      steps 0 down to -0.1. */
  lemma WorkedStepZero(gauss: nat -> real)
    ensures SparseUpdate([[0.0, 0.95, -0.95, 0.5]], ExampleDevice(), 0, [Event(0, 1)], gauss, 0)
            == Outcome([[-0.1, 0.95, -0.95, 0.5]], 0)
  {
    var dev, w := ExampleDevice(), [[0.0, 0.95, -0.95, 0.5]];
    assert dev.scaleDown[0][0] == 0.1 && dev.minBound[0][0] == -1.0 && dev.maxBound[0][0] == 1.0;
    SparsePlainEvent(w, dev, 0, 0, 1, gauss, 0);
    assert Max(Min(0.0 - 0.1, 1.0), -1.0) == -0.1;
    assert w[0][0 := -0.1] == [-0.1, 0.95, -0.95, 0.5];
    assert w[0 := w[0][0 := -0.1]] == [[-0.1, 0.95, -0.95, 0.5]];
  }

  /** Second event: a negative sign on column 1 steps 0.95 up to 1.05, which
      the clip brings back to 1. */
  lemma WorkedStepOne(gauss: nat -> real)
    ensures SparseUpdate([[-0.1, 0.95, -0.95, 0.5]], ExampleDevice(), 0, [Event(1, -1)], gauss, 0)
            == Outcome([[-0.1, 1.0, -0.95, 0.5]], 0)
  {
    var dev, w := ExampleDevice(), [[-0.1, 0.95, -0.95, 0.5]];
    assert dev.scaleUp[0][1] == 0.1 && dev.minBound[0][1] == -1.0 && dev.maxBound[0][1] == 1.0;
    SparsePlainEvent(w, dev, 0, 1, -1, gauss, 0);
    assert Max(Min(0.95 + 0.1, 1.0), -1.0) == 1.0;
    assert w[0][1 := 1.0] == [-0.1, 1.0, -0.95, 0.5];
    assert w[0 := w[0][1 := 1.0]] == [[-0.1, 1.0, -0.95, 0.5]];
  }

  /** Third event: a positive sign on column 2 steps -0.95 down to -1.05,
      which the clip brings back to -1. */
  lemma WorkedStepTwo(gauss: nat -> real)
    ensures SparseUpdate([[-0.1, 1.0, -0.95, 0.5]], ExampleDevice(), 0, [Event(2, 1)], gauss, 0)
            == Outcome([[-0.1, 1.0, -1.0, 0.5]], 0)
  {
    var dev, w := ExampleDevice(), [[-0.1, 1.0, -0.95, 0.5]];
    assert dev.scaleDown[0][2] == 0.1 && dev.minBound[0][2] == -1.0 && dev.maxBound[0][2] == 1.0;
    SparsePlainEvent(w, dev, 0, 2, 1, gauss, 0);
    assert Max(Min(-0.95 - 0.1, 1.0), -1.0) == -1.0;
    assert w[0][2 := -1.0] == [-0.1, 1.0, -1.0, 0.5];
    assert w[0 := w[0][2 := -1.0]] == [[-0.1, 1.0, -1.0, 0.5]];
  }

  /** A dense call without noise on `[0, 0.95, -0.95, 0.5]`: a positive sign
      on column 0 steps it down to -0.1, a negative sign on column 1 steps it
      up to 1.05 which the clip brings to 1, a positive sign on column 2 steps
      it down to -1.05 which the clip brings to -1, and column 3, named by no
      event, stays 0.5. No sample is drawn. */
  lemma DenseWorkedExample(gauss: nat -> real)
    ensures DenseUpdate([[0.0, 0.95, -0.95, 0.5]], ExampleDevice(),
                        [Event(0, 1), Event(1, -1), Event(2, 1)], gauss, 0)
            == Outcome([[-0.1, 1.0, -1.0, 0.5]], 0)
  {
    var dev, w := ExampleDevice(), [[0.0, 0.95, -0.95, 0.5]];
    var e0, e1, e2 := Event(0, 1), Event(1, -1), Event(2, 1);
    assert dev.HasRow(0, 4);
    DenseIsSparseOnRowZero(w, dev, [e0, e1, e2], gauss, 0);
    assert [e0, e1, e2] == [e0, e1] + [e2] && [e0, e1] == [e0] + [e1];
    WorkedStepZero(gauss);
    WorkedStepOne(gauss);
    WorkedStepTwo(gauss);
    SparseSequential(w, dev, 0, [e0], [e1], gauss, 0);
    SparseSequential(w, dev, 0, [e0, e1], [e2], gauss, 0);
  }

  /** The clip follows every event, not the whole call: stepping 0.95 up and
      then down by 0.1 gives 0.9, because the intermediate 1.05 is clipped to
      1, while clipping the summed change once would leave 0.95. */
  lemma ClipFollowsEveryEvent(gauss: nat -> real)
    ensures SparseUpdate([[0.95]], UniformDevice(1, 0.0), 0, [Event(0, -1), Event(0, 1)], gauss, 0).weights
            == [[0.9]]
    ensures Clip(0.95 + 0.1 - 0.1, -1.0, 1.0) == 0.95
  {
    var dev := UniformDevice(1, 0.0);
    assert dev.scaleDown[0][0] == 0.1 && dev.scaleUp[0][0] == 0.1;
    assert dev.minBound[0][0] == -1.0 && dev.maxBound[0][0] == 1.0;
    var w := [[0.95]];
    var up, down := Event(0, -1), Event(0, 1);
    SparseSequential(w, dev, 0, [up], [down], gauss, 0);
    var r0 := SparseUpdate(w, dev, 0, [up], gauss, 0);
    SparsePlainEvent(w, dev, 0, 0, -1, gauss, 0);
    assert Max(Min(0.95 + 0.1, 1.0), -1.0) == 1.0;
    assert r0 == Outcome(w[0 := w[0][0 := 1.0]], 0);
    assert w[0][0 := 1.0] == [1.0];
    assert r0.weights == [[1.0]];
    var r1 := SparseUpdate(r0.weights, dev, 0, [down], gauss, 0);
    SparsePlainEvent(r0.weights, dev, 0, 0, 1, gauss, 0);
    assert Max(Min(1.0 - 0.1, 1.0), -1.0) == 0.9;
    assert r1 == Outcome(r0.weights[0 := r0.weights[0][0 := 0.9]], 0);
    assert r0.weights[0][0 := 0.9] == [0.9];
    assert r1.weights == [[0.9]];
    assert [up] + [down] == [up, down];
  }
}
