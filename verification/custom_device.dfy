/**
 The Custom pulsed device: its meta-parameter, its per-element parameter
 arrays, and its two update entry points. `SparseUpdate` updates the columns
 named by the events on row `i`, choosing the noisy or the noise-free loop body
 once for the whole call; `DenseUpdate` works on row 0 and decides about noise
 inside its loop body.
 */
module CustomDevice {
  import opened Bounds
  import opened Pulse
  import opened RowUpdate

  /** The meta-parameter fields the Custom device reads: the nominal step
      `dw_min` and the relative standard deviation of the step noise. */
  datatype CustomParams = CustomParams(dwMin: real, dwMinStd: real)

  /** The weight granularity of the Custom device is its nominal step. */
  function WeightGranularity(p: CustomParams): (r: real) {
    p.dwMin
  }

  /** A device: its meta-parameter and the per-element arrays, one row per
      row of the weight matrix. */
  datatype Device = Device(
    par: CustomParams,
    scaleDown: seq<seq<real>>,
    scaleUp: seq<seq<real>>,
    minBound: seq<seq<real>>,
    maxBound: seq<seq<real>>)
  {
    /** Row `i` exists in all four arrays and has width `n` in each. */
    predicate HasRow(i: int, n: nat) {
      && 0 <= i < |scaleDown| && i < |scaleUp| && i < |minBound| && i < |maxBound|
      && |scaleDown[i]| == n && |scaleUp[i]| == n && |minBound[i]| == n && |maxBound[i]| == n
    }

    /** Row `i` of the per-element arrays. */
    function Row(i: int): (rp: RowParams)
      requires 0 <= i < |scaleDown| && i < |scaleUp| && i < |minBound| && i < |maxBound|
      ensures HasRow(i, |scaleDown[i]|) ==> rp.Fits(|scaleDown[i]|)
    {
      RowParams(scaleDown[i], scaleUp[i], minBound[i], maxBound[i])
    }
  }

  /** The weights after a call and the number of Gaussian samples it consumed. */
  datatype Outcome = Outcome(weights: seq<seq<real>>, drawn: nat)

  /** The loop body of a rule. */
  function BodyOf(rule: Rule): (body: Body) {
    (w, sign, g, c) => Step(rule, w, sign, g, c)
  }

  /** Every loop body of the device clips its result to the weight's bounds. */
  lemma BodyOfClips(rule: Rule)
    ensures Clips(BodyOf(rule))
  {
    forall w, sign, g, c
      ensures WithinBounds(BodyOf(rule)(w, sign, g, c), c.minBound, c.maxBound)
    {
      assert BodyOf(rule)(w, sign, g, c) == Step(rule, w, sign, g, c);
    }
  }

  /** The sparse update chooses its loop body once per call: the noisy body
      when `dw_min_std` is positive, the noise-free one otherwise (also for a
      negative `dw_min_std`). */
  function SparseRule(std: real): (rule: Rule)
    ensures Draws(rule) <==> std > 0.0
  {
    if std > 0.0 then Noisy(std) else Plain
  }

  /** Row `i` of the weights is a row of the device with the same width, and
      every event names one of its columns. */
  predicate Addresses(weights: seq<seq<real>>, dev: Device, i: int, events: seq<Event>) {
    && 0 <= i < |weights|
    && dev.HasRow(i, |weights[i]|)
    && InRange(events, |weights[i]|)
  }

  /** One call on row `i` of the weights: the event loop with `body` over
      that row. Only row `i` changes, and a drawing body takes one sample per
      event while any other takes none. */
  function UpdateRow(weights: seq<seq<real>>, i: int, body: Body, draws: bool, rp: RowParams,
                     events: seq<Event>, gauss: nat -> real, pos: nat): (r: Outcome)
    requires 0 <= i < |weights| && rp.Fits(|weights[i]|)
    ensures |r.weights| == |weights| && |r.weights[i]| == |weights[i]| && r.weights == weights[i := r.weights[i]]
    ensures r.drawn == if draws then |events| else 0
  {
    var out := Apply(body, draws, rp, weights[i], gauss, pos, events);
    Outcome(weights[i := out.row], out.drawn)
  }

  /** A call on row `i` with events `a + b` is a call with `a` followed by a
      call with `b` on the weights and the stream position `first` left. */
  lemma UpdateRowSplit(weights: seq<seq<real>>, i: int, body: Body, draws: bool, rp: RowParams,
                       a: seq<Event>, b: seq<Event>, gauss: nat -> real, pos: nat, first: Outcome)
    requires 0 <= i < |weights| && rp.Fits(|weights[i]|)
    requires first == UpdateRow(weights, i, body, draws, rp, a, gauss, pos)
    ensures UpdateRow(weights, i, body, draws, rp, a + b, gauss, pos)
            == Outcome(UpdateRow(first.weights, i, body, draws, rp, b, gauss, pos + first.drawn).weights,
                       first.drawn + UpdateRow(first.weights, i, body, draws, rp, b, gauss, pos + first.drawn).drawn)
  {
    ApplySplit(body, draws, rp, weights[i], gauss, pos, a, b);
    var out := Apply(body, draws, rp, weights[i], gauss, pos, a);
    assert first.weights[i] == out.row;
  }

  /** The sparse update of row `i`: only row `i` changes, and a positive
      `dw_min_std` draws one sample per event while any other draws none. */
  function SparseUpdate(weights: seq<seq<real>>, dev: Device, i: int, events: seq<Event>,
                        gauss: nat -> real, pos: nat): (r: Outcome)
    requires Addresses(weights, dev, i, events)
    ensures |r.weights| == |weights| && |r.weights[i]| == |weights[i]| && r.weights == weights[i := r.weights[i]]
    ensures r.drawn == if dev.par.dwMinStd > 0.0 then |events| else 0
  {
    var rule := SparseRule(dev.par.dwMinStd);
    UpdateRow(weights, i, BodyOf(rule), Draws(rule), dev.Row(i), events, gauss, pos)
  }

  /** What a sparse update writes in row `i`: columns no event names keep
      their value, and every named column ends within its bounds. */
  lemma SparseFrame(weights: seq<seq<real>>, dev: Device, i: int, events: seq<Event>,
                    gauss: nat -> real, pos: nat)
    requires Addresses(weights, dev, i, events)
    ensures forall j :: 0 <= j < |weights[i]| && !Addressed(events, j) ==>
              SparseUpdate(weights, dev, i, events, gauss, pos).weights[i][j] == weights[i][j]
    ensures forall j :: 0 <= j < |weights[i]| && Addressed(events, j) ==>
              WithinBounds(SparseUpdate(weights, dev, i, events, gauss, pos).weights[i][j],
                           dev.minBound[i][j], dev.maxBound[i][j])
  {
    var rule := SparseRule(dev.par.dwMinStd);
    BodyOfClips(rule);
    ApplyFrame(BodyOf(rule), Draws(rule), dev.Row(i), weights[i], gauss, pos, events);
  }

  /** The dense update, on row 0: only row 0 changes, and a positive
      `dw_min_std` draws one sample per event while any other draws none. */
  function DenseUpdate(weights: seq<seq<real>>, dev: Device, events: seq<Event>,
                       gauss: nat -> real, pos: nat): (r: Outcome)
    requires Addresses(weights, dev, 0, events)
    ensures |r.weights| == |weights| && |r.weights[0]| == |weights[0]| && r.weights == weights[0 := r.weights[0]]
    ensures r.drawn == if dev.par.dwMinStd > 0.0 then |events| else 0
  {
    var rule := Dense(dev.par.dwMinStd);
    UpdateRow(weights, 0, BodyOf(rule), Draws(rule), dev.Row(0), events, gauss, pos)
  }

  /** What a dense update writes in row 0: columns no event names keep their
      value, and every named column ends within its bounds. */
  lemma DenseFrame(weights: seq<seq<real>>, dev: Device, events: seq<Event>,
                   gauss: nat -> real, pos: nat)
    requires Addresses(weights, dev, 0, events)
    ensures forall j :: 0 <= j < |weights[0]| && !Addressed(events, j) ==>
              DenseUpdate(weights, dev, events, gauss, pos).weights[0][j] == weights[0][j]
    ensures forall j :: 0 <= j < |weights[0]| && Addressed(events, j) ==>
              WithinBounds(DenseUpdate(weights, dev, events, gauss, pos).weights[0][j],
                           dev.minBound[0][j], dev.maxBound[0][j])
  {
    var rule := Dense(dev.par.dwMinStd);
    BodyOfClips(rule);
    ApplyFrame(BodyOf(rule), Draws(rule), dev.Row(0), weights[0], gauss, pos, events);
  }

  // ---------------------------------------------------------------------------
  // One event

  /** One event of a sparse call: the weight it names takes the value of the
      chosen loop body, computed with the next sample of the stream when the
      body draws; no other weight changes, and one sample is drawn exactly
      when the body draws. */
  lemma SparseOneEvent(weights: seq<seq<real>>, dev: Device, i: int, j: int, sign: int,
                       gauss: nat -> real, pos: nat, rule: Rule, g: real)
    requires Addresses(weights, dev, i, [Event(j, sign)])
    requires rule == SparseRule(dev.par.dwMinStd) && g == if Draws(rule) then gauss(pos) else 0.0
    ensures 0 <= j < |weights[i]|
    ensures SparseUpdate(weights, dev, i, [Event(j, sign)], gauss, pos)
            == Outcome(weights[i := weights[i][j := Step(rule, weights[i][j], sign, g,
                                                           Cell(dev.scaleDown[i][j], dev.scaleUp[i][j],
                                                                dev.minBound[i][j], dev.maxBound[i][j]))]],
                       if Draws(rule) then 1 else 0)
  {
    var es := [Event(j, sign)];
    assert es[1..] == [];
    assert 0 <= j < |weights[i]| by { assert es[0].col == j; }
    var rp := dev.Row(i);
    var c := rp.At(j);
    assert c == Cell(dev.scaleDown[i][j], dev.scaleUp[i][j], dev.minBound[i][j], dev.maxBound[i][j]);
    var d := if Draws(rule) then 1 else 0;
    var next := weights[i][j := Step(rule, weights[i][j], sign, g, c)];
    assert Fire(BodyOf(rule), Draws(rule), rp, weights[i], gauss, pos, es[0]) == RowOutcome(next, d);
    assert Apply(BodyOf(rule), Draws(rule), rp, weights[i], gauss, pos, es) == RowOutcome(next, d);
  }

  /** Without noise (`dw_min_std <= 0`), an event with a positive sign sets
      its weight to `MAX(MIN(w - scale_down, max_bound), min_bound)` and any
      other sign to `MAX(MIN(w + scale_up, max_bound), min_bound)`; no other
      weight changes and no sample is drawn. */
  lemma SparsePlainEvent(weights: seq<seq<real>>, dev: Device, i: int, j: int, sign: int,
                         gauss: nat -> real, pos: nat)
    requires dev.par.dwMinStd <= 0.0
    requires Addresses(weights, dev, i, [Event(j, sign)])
    ensures 0 <= j < |weights[i]|
    ensures sign > 0 ==>
              SparseUpdate(weights, dev, i, [Event(j, sign)], gauss, pos)
              == Outcome(weights[i := weights[i][j := Max(Min(weights[i][j] - dev.scaleDown[i][j], dev.maxBound[i][j]),
                                                          dev.minBound[i][j])]], 0)
    ensures sign <= 0 ==>
              SparseUpdate(weights, dev, i, [Event(j, sign)], gauss, pos)
              == Outcome(weights[i := weights[i][j := Max(Min(weights[i][j] + dev.scaleUp[i][j], dev.maxBound[i][j]),
                                                          dev.minBound[i][j])]], 0)
  {
    SparseOneEvent(weights, dev, i, j, sign, gauss, pos, Plain, 0.0);
  }

  /** With noise (`dw_min_std > 0`), an event with a positive sign draws
      exactly one sample `g`, the next of the stream, and sets its weight to
      the clip of `w - (1 + dw_min_std * g) * scale_down`; no other weight
      changes. */
  lemma SparseNoisyDown(weights: seq<seq<real>>, dev: Device, i: int, j: int, sign: int,
                        gauss: nat -> real, pos: nat)
    requires dev.par.dwMinStd > 0.0 && sign > 0
    requires Addresses(weights, dev, i, [Event(j, sign)])
    ensures 0 <= j < |weights[i]|
    ensures SparseUpdate(weights, dev, i, [Event(j, sign)], gauss, pos)
            == Outcome(weights[i := weights[i][j := Clip(weights[i][j] - (1.0 + dev.par.dwMinStd * gauss(pos)) * dev.scaleDown[i][j],
                                                         dev.minBound[i][j], dev.maxBound[i][j])]], 1)
  {
    assert Draws(Noisy(dev.par.dwMinStd));
    SparseOneEvent(weights, dev, i, j, sign, gauss, pos, Noisy(dev.par.dwMinStd), gauss(pos));
    NoisyStepValue(dev.par.dwMinStd, weights[i][j], sign, gauss(pos),
                   dev.scaleDown[i][j], dev.scaleUp[i][j], dev.minBound[i][j], dev.maxBound[i][j]);
    var c := Cell(dev.scaleDown[i][j], dev.scaleUp[i][j], dev.minBound[i][j], dev.maxBound[i][j]);
    var v := Step(Noisy(dev.par.dwMinStd), weights[i][j], sign, gauss(pos), c);
    assert SparseUpdate(weights, dev, i, [Event(j, sign)], gauss, pos) == Outcome(weights[i := weights[i][j := v]], 1);
    assert v == Clip(weights[i][j] - (1.0 + dev.par.dwMinStd * gauss(pos)) * dev.scaleDown[i][j],
                     dev.minBound[i][j], dev.maxBound[i][j]);
  }

  /** With noise (`dw_min_std > 0`), an event with any other sign draws
      exactly one sample `g`, the next of the stream, and sets its weight to
      the clip of `w + (1 + dw_min_std * g) * scale_up`; no other weight
      changes. */
  lemma SparseNoisyUp(weights: seq<seq<real>>, dev: Device, i: int, j: int, sign: int,
                      gauss: nat -> real, pos: nat)
    requires dev.par.dwMinStd > 0.0 && sign <= 0
    requires Addresses(weights, dev, i, [Event(j, sign)])
    ensures 0 <= j < |weights[i]|
    ensures SparseUpdate(weights, dev, i, [Event(j, sign)], gauss, pos)
            == Outcome(weights[i := weights[i][j := Clip(weights[i][j] + (1.0 + dev.par.dwMinStd * gauss(pos)) * dev.scaleUp[i][j],
                                                         dev.minBound[i][j], dev.maxBound[i][j])]], 1)
  {
    assert Draws(Noisy(dev.par.dwMinStd));
    SparseOneEvent(weights, dev, i, j, sign, gauss, pos, Noisy(dev.par.dwMinStd), gauss(pos));
    NoisyStepValue(dev.par.dwMinStd, weights[i][j], sign, gauss(pos),
                   dev.scaleDown[i][j], dev.scaleUp[i][j], dev.minBound[i][j], dev.maxBound[i][j]);
    var c := Cell(dev.scaleDown[i][j], dev.scaleUp[i][j], dev.minBound[i][j], dev.maxBound[i][j]);
    var v := Step(Noisy(dev.par.dwMinStd), weights[i][j], sign, gauss(pos), c);
    assert SparseUpdate(weights, dev, i, [Event(j, sign)], gauss, pos) == Outcome(weights[i := weights[i][j := v]], 1);
    assert v == Clip(weights[i][j] + (1.0 + dev.par.dwMinStd * gauss(pos)) * dev.scaleUp[i][j],
                     dev.minBound[i][j], dev.maxBound[i][j]);
  }

  // ---------------------------------------------------------------------------
  // Whole calls

  /** Without noise the sparse update neither draws nor depends on the stream:
      two calls with the same events give the same weights whatever the
      generator's state. */
  lemma SparseNoiseFreeIsDeterministic(weights: seq<seq<real>>, dev: Device, i: int, events: seq<Event>,
                                       g1: nat -> real, p1: nat, g2: nat -> real, p2: nat)
    requires dev.par.dwMinStd <= 0.0
    requires Addresses(weights, dev, i, events)
    ensures SparseUpdate(weights, dev, i, events, g1, p1) == SparseUpdate(weights, dev, i, events, g2, p2)
    ensures SparseUpdate(weights, dev, i, events, g1, p1).drawn == 0
  {
    ApplyIgnoresStream(BodyOf(Plain), dev.Row(i), weights[i], g1, p1, g2, p2, events);
  }

  /** The sparse update of row `i` reads nothing of the device but
      `dw_min_std` and row `i` of its arrays, and nothing of the weights but
      row `i`: devices and weight matrices that agree there give the same
      new row `i` and draw the same samples. */
  lemma SparseReadsOnlyRow(w1: seq<seq<real>>, d1: Device, w2: seq<seq<real>>, d2: Device, i: int,
                           events: seq<Event>, gauss: nat -> real, pos: nat)
    requires Addresses(w1, d1, i, events) && Addresses(w2, d2, i, events)
    requires w1[i] == w2[i]
    requires d1.par.dwMinStd == d2.par.dwMinStd && d1.Row(i) == d2.Row(i)
    ensures var r1, r2 := SparseUpdate(w1, d1, i, events, gauss, pos), SparseUpdate(w2, d2, i, events, gauss, pos);
            r1.weights[i] == r2.weights[i] && r1.drawn == r2.drawn
  {
  }

  /** Events are applied one after the other, each with its own clip: one
      call with `a + b` is a call with `a` followed by a call with `b` that
      continues the stream where the first left it. In particular a column
      addressed twice in one call is stepped and clipped twice. */
  lemma SparseSequential(weights: seq<seq<real>>, dev: Device, i: int, a: seq<Event>, b: seq<Event>,
                         gauss: nat -> real, pos: nat)
    requires Addresses(weights, dev, i, a) && Addresses(weights, dev, i, b)
    ensures Addresses(weights, dev, i, a + b)
    ensures var first := SparseUpdate(weights, dev, i, a, gauss, pos);
            var second := SparseUpdate(first.weights, dev, i, b, gauss, pos + first.drawn);
            SparseUpdate(weights, dev, i, a + b, gauss, pos) == Outcome(second.weights, first.drawn + second.drawn)
  {
    InRangeConcat(a, b, |weights[i]|);
    var rule := SparseRule(dev.par.dwMinStd);
    UpdateRowSplit(weights, i, BodyOf(rule), Draws(rule), dev.Row(i), a, b, gauss, pos,
                   SparseUpdate(weights, dev, i, a, gauss, pos));
  }

  /** Bounds invariant: a row `i` whose every weight is within its bounds
      before a sparse update is within them after it. */
  lemma SparseKeepsRowWithinBounds(weights: seq<seq<real>>, dev: Device, i: int, events: seq<Event>,
                                   gauss: nat -> real, pos: nat)
    requires Addresses(weights, dev, i, events)
    requires forall j :: 0 <= j < |weights[i]| ==> WithinBounds(weights[i][j], dev.minBound[i][j], dev.maxBound[i][j])
    ensures var r := SparseUpdate(weights, dev, i, events, gauss, pos);
            forall j :: 0 <= j < |weights[i]| ==> WithinBounds(r.weights[i][j], dev.minBound[i][j], dev.maxBound[i][j])
  {
    var r := SparseUpdate(weights, dev, i, events, gauss, pos);
    SparseFrame(weights, dev, i, events, gauss, pos);
    forall j | 0 <= j < |weights[i]|
      ensures WithinBounds(r.weights[i][j], dev.minBound[i][j], dev.maxBound[i][j])
    {
      if !Addressed(events, j) {
        assert r.weights[i][j] == weights[i][j];
      }
    }
  }

  /** The dense update is the sparse update of row 0 with the same events:
      the same weights and the same number of samples, for every
      `dw_min_std`. With `dw_min_std <= 0` it is the noise-free sparse update
      and draws nothing; with `dw_min_std > 0` it draws one sample per event
      and gains each step by it exactly as the noisy sparse body does. */
  lemma DenseIsSparseOnRowZero(weights: seq<seq<real>>, dev: Device, events: seq<Event>,
                               gauss: nat -> real, pos: nat)
    requires Addresses(weights, dev, 0, events)
    ensures DenseUpdate(weights, dev, events, gauss, pos) == SparseUpdate(weights, dev, 0, events, gauss, pos)
  {
    var std := dev.par.dwMinStd;
    forall w, sign, g, c
      ensures BodyOf(Dense(std))(w, sign, g, c) == BodyOf(SparseRule(std))(w, sign, g, c)
    {
      DenseStepIsSparseStep(std, w, sign, g, c);
    }
    ApplyCongruent(BodyOf(Dense(std)), BodyOf(SparseRule(std)), Draws(Dense(std)),
                   dev.Row(0), weights[0], gauss, pos, events);
  }

  /** Bounds invariant of the dense update: a row 0 whose every weight is
      within its bounds before a dense update is within them after it. */
  lemma DenseKeepsRowWithinBounds(weights: seq<seq<real>>, dev: Device, events: seq<Event>,
                                  gauss: nat -> real, pos: nat)
    requires Addresses(weights, dev, 0, events)
    requires forall j :: 0 <= j < |weights[0]| ==> WithinBounds(weights[0][j], dev.minBound[0][j], dev.maxBound[0][j])
    ensures var r := DenseUpdate(weights, dev, events, gauss, pos);
            forall j :: 0 <= j < |weights[0]| ==> WithinBounds(r.weights[0][j], dev.minBound[0][j], dev.maxBound[0][j])
  {
    DenseIsSparseOnRowZero(weights, dev, events, gauss, pos);
    SparseKeepsRowWithinBounds(weights, dev, 0, events, gauss, pos);
  }

  /** Without noise the dense update neither draws nor depends on the stream:
      its conditional noise term is 0 for every event. */
  lemma DenseNoiseFreeIsDeterministic(weights: seq<seq<real>>, dev: Device, events: seq<Event>,
                                      g1: nat -> real, p1: nat, g2: nat -> real, p2: nat)
    requires dev.par.dwMinStd <= 0.0
    requires Addresses(weights, dev, 0, events)
    ensures DenseUpdate(weights, dev, events, g1, p1) == DenseUpdate(weights, dev, events, g2, p2)
    ensures DenseUpdate(weights, dev, events, g1, p1).drawn == 0
  {
    DenseIsSparseOnRowZero(weights, dev, events, g1, p1);
    DenseIsSparseOnRowZero(weights, dev, events, g2, p2);
    SparseNoiseFreeIsDeterministic(weights, dev, 0, events, g1, p1, g2, p2);
  }

  /** The dense update reads nothing of the device but `dw_min_std` and row 0
      of its arrays, and nothing of the weights but row 0. */
  lemma DenseReadsOnlyRowZero(w1: seq<seq<real>>, d1: Device, w2: seq<seq<real>>, d2: Device,
                              events: seq<Event>, gauss: nat -> real, pos: nat)
    requires Addresses(w1, d1, 0, events) && Addresses(w2, d2, 0, events)
    requires w1[0] == w2[0]
    requires d1.par.dwMinStd == d2.par.dwMinStd && d1.Row(0) == d2.Row(0)
    ensures var r1, r2 := DenseUpdate(w1, d1, events, gauss, pos), DenseUpdate(w2, d2, events, gauss, pos);
            r1.weights[0] == r2.weights[0] && r1.drawn == r2.drawn
  {
  }
}
