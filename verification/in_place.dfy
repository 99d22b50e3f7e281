/**
 The update entry points as the device runs them: a loop over the events that
 overwrites one weight per event, and the two entry points around it. Each is
 shown to compute exactly what the functional model describes.
 */
module InPlace {
  import opened Pulse
  import opened RowUpdate
  import opened CustomDevice

  /** The update loop: for each event in order, take a sample when the body
      draws, and overwrite the event's column with the body's value. The
      result is the functional loop `Apply`, so in particular only named
      columns change and a drawing body consumes one sample per event. */
  method RunLoop(body: Body, draws: bool, rp: RowParams, row: seq<real>, gauss: nat -> real,
                 pos: nat, events: seq<Event>) returns (w: seq<real>, drawn: nat)
    requires rp.Fits(|row|) && InRange(events, |row|)
    ensures RowOutcome(w, drawn) == Apply(body, draws, rp, row, gauss, pos, events)
  {
    w, drawn := row, 0;
    var k := 0;
    while k < |events|
      invariant 0 <= k <= |events| && |w| == |row|
      invariant drawn == if draws then k else 0
      invariant InRange(events[k..], |w|)
      invariant Apply(body, draws, rp, row, gauss, pos, events)
                == Then(body, draws, rp, gauss, pos, RowOutcome(w, drawn), events[k..])
    {
      var e := events[k];
      var g := 0.0;
      if draws {
        g := gauss(pos + drawn);
      }
      var d := if draws then 1 else 0;
      var next := w[e.col := body(w[e.col], e.sign, g, rp.At(e.col))];
      ThenFire(body, draws, rp, gauss, pos, RowOutcome(w, drawn), events[k..], RowOutcome(next, d));
      assert events[k..][1..] == events[k + 1..];
      w, drawn, k := next, drawn + d, k + 1;
    }
    assert events[k..] == [];
  }

  /** `doSparseUpdate`: reads row `i` of the device, splits on `dw_min_std > 0`
      once, outside the loop, and runs the noisy or the noise-free body over
      the events. */
  method DoSparseUpdate(weights: seq<seq<real>>, dev: Device, i: int, events: seq<Event>,
                        gauss: nat -> real, pos: nat) returns (result: seq<seq<real>>, drawn: nat)
    requires Addresses(weights, dev, i, events)
    ensures Outcome(result, drawn) == SparseUpdate(weights, dev, i, events, gauss, pos)
  {
    var rp := dev.Row(i);
    var std := dev.par.dwMinStd;
    var w: seq<real>;
    if std > 0.0 {
      w, drawn := RunLoop(BodyOf(Noisy(std)), true, rp, weights[i], gauss, pos, events);
    } else {
      w, drawn := RunLoop(BodyOf(Plain), false, rp, weights[i], gauss, pos, events);
    }
    result := weights[i := w];
  }

  /** `doDenseUpdate`: reads row 0 of the device and of the weights and runs
      the dense body, which decides per event whether to draw. */
  method DoDenseUpdate(weights: seq<seq<real>>, dev: Device, events: seq<Event>,
                       gauss: nat -> real, pos: nat) returns (result: seq<seq<real>>, drawn: nat)
    requires Addresses(weights, dev, 0, events)
    ensures Outcome(result, drawn) == DenseUpdate(weights, dev, events, gauss, pos)
  {
    var std := dev.par.dwMinStd;
    var w: seq<real>;
    w, drawn := RunLoop(BodyOf(Dense(std)), std > 0.0, dev.Row(0), weights[0], gauss, pos, events);
    result := weights[0 := w];
  }
}
