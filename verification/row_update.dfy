/**
 The pulsed update loop over one row of weights. The loop takes its body as a
 parameter, as the device's update loops are written around a loop body: every
 event, in order, replaces the value of its column by what the body computes
 from that value, the event's sign, a Gaussian sample and the column's device
 parameters. A body that draws takes the next sample of the stream per event.
 */
module RowUpdate {
  import opened Bounds
  import opened Pulse

  /** Row `i` of the device's per-element arrays `w_scale_down_`, `w_scale_up_`,
      `w_min_bound_` and `w_max_bound_`. */
  datatype RowParams = RowParams(
    scaleDown: seq<real>,
    scaleUp: seq<real>,
    minBound: seq<real>,
    maxBound: seq<real>)
  {
    /** All four arrays have one entry per weight of a row of width `n`. */
    predicate Fits(n: nat) {
      |scaleDown| == n && |scaleUp| == n && |minBound| == n && |maxBound| == n
    }

    /** The parameters of column `j`. */
    function At(j: int): (c: Cell)
      requires 0 <= j < |scaleDown| && Fits(|scaleDown|)
    {
      Cell(scaleDown[j], scaleUp[j], minBound[j], maxBound[j])
    }
  }

  /** A loop body: the new value of a weight from its current value, the
      event's sign, the sample drawn for the event and the weight's parameters. */
  type Body = (real, int, real, Cell) -> real

  /** A body whose every result satisfies the bounds of its weight. */
  ghost predicate Clips(body: Body) {
    forall w, sign, g, c :: WithinBounds(body(w, sign, g, c), c.minBound, c.maxBound)
  }

  lemma ClipsAt(body: Body, w: real, sign: int, g: real, c: Cell)
    requires Clips(body)
    ensures WithinBounds(body(w, sign, g, c), c.minBound, c.maxBound)
  {
  }

  /** The row after a call and the number of Gaussian samples it consumed. */
  datatype RowOutcome = RowOutcome(row: seq<real>, drawn: nat)

  /** Every event names a column of a row of width `n`. */
  predicate InRange(events: seq<Event>, n: nat) {
    forall k :: 0 <= k < |events| ==> 0 <= events[k].col < n
  }

  /** Some event names column `j`. */
  predicate Addressed(events: seq<Event>, j: int) {
    exists k :: 0 <= k < |events| && events[k].col == j
  }

  /** Column `j` satisfies its own bounds. */
  predicate CellWithinBounds(row: seq<real>, rp: RowParams, j: int)
    requires 0 <= j < |row| && rp.Fits(|row|)
  {
    WithinBounds(row[j], rp.minBound[j], rp.maxBound[j])
  }

  /** One event: its column takes the body's value, computed with the next
      sample of the stream when the body draws and with 0 otherwise. */
  function Fire(body: Body, draws: bool, rp: RowParams, row: seq<real>, gauss: nat -> real,
                pos: nat, e: Event): (r: RowOutcome)
    requires rp.Fits(|row|)
    ensures |r.row| == |row| && r.drawn == if draws then 1 else 0
  {
    var g := if draws then gauss(pos) else 0.0;
    var next := if 0 <= e.col < |row| then row[e.col := body(row[e.col], e.sign, g, rp.At(e.col))] else row;
    RowOutcome(next, if draws then 1 else 0)
  }

  /** The loop: events are applied in order, each to the current value of its
      column, and the samples the events take are counted. */
  function Apply(body: Body, draws: bool, rp: RowParams, row: seq<real>, gauss: nat -> real,
                 pos: nat, events: seq<Event>): (r: RowOutcome)
    requires rp.Fits(|row|)
    ensures |r.row| == |row|
    ensures r.drawn == if draws then |events| else 0
    decreases |events|
  {
    if |events| == 0 then RowOutcome(row, 0)
    else
      var first := Fire(body, draws, rp, row, gauss, pos, events[0]);
      var rest := Apply(body, draws, rp, first.row, gauss, pos + first.drawn, events[1..]);
      RowOutcome(rest.row, first.drawn + rest.drawn)
  }

  /** Continuing a call: the events applied from where `first` left the row
      and the stream, with the samples of both counted. */
  function Then(body: Body, draws: bool, rp: RowParams, gauss: nat -> real, pos: nat,
                first: RowOutcome, events: seq<Event>): (r: RowOutcome)
    requires rp.Fits(|first.row|)
  {
    var rest := Apply(body, draws, rp, first.row, gauss, pos + first.drawn, events);
    RowOutcome(rest.row, first.drawn + rest.drawn)
  }

  /** What a call writes: columns no event names keep their value, and, for a
      clipping body, every column some event names ends within its bounds. */
  lemma {:induction false} ApplyFrame(body: Body, draws: bool, rp: RowParams, row: seq<real>,
                                      gauss: nat -> real, pos: nat, events: seq<Event>)
    requires rp.Fits(|row|)
    ensures var r := Apply(body, draws, rp, row, gauss, pos, events);
            forall j :: 0 <= j < |row| && !Addressed(events, j) ==> r.row[j] == row[j]
    ensures var r := Apply(body, draws, rp, row, gauss, pos, events);
            Clips(body) ==> forall j :: 0 <= j < |row| && Addressed(events, j) ==> CellWithinBounds(r.row, rp, j)
    decreases |events|
  {
    if |events| > 0 {
      var e, rest := events[0], events[1..];
      var first := Fire(body, draws, rp, row, gauss, pos, e);
      var next := first.row;
      ApplyFrame(body, draws, rp, next, gauss, pos + first.drawn, rest);
      var r := Apply(body, draws, rp, row, gauss, pos, events);
      assert r.row == Apply(body, draws, rp, next, gauss, pos + first.drawn, rest).row;
      forall j | Addressed(rest, j)
        ensures Addressed(events, j)
      {
        var k :| 0 <= k < |rest| && rest[k].col == j;
        assert events[k + 1].col == j;
      }
      forall j | Addressed(events, j) && j != e.col
        ensures Addressed(rest, j)
      {
        var k :| 0 <= k < |events| && events[k].col == j;
        assert rest[k - 1].col == j;
      }
      assert Addressed(events, e.col) by { assert events[0].col == e.col; }
      if Clips(body) {
        forall j | 0 <= j < |row| && Addressed(events, j)
          ensures CellWithinBounds(r.row, rp, j)
        {
          if !Addressed(rest, j) {
            var g := if draws then gauss(pos) else 0.0;
            ClipsAt(body, row[e.col], e.sign, g, rp.At(e.col));
            assert CellWithinBounds(next, rp, j);
          }
        }
      }
    }
  }

  /** A clipping body keeps a row whose every column is within its bounds
      within them. */
  lemma ApplyKeepsRowWithinBounds(body: Body, draws: bool, rp: RowParams, row: seq<real>,
                                  gauss: nat -> real, pos: nat, events: seq<Event>)
    requires rp.Fits(|row|) && Clips(body)
    requires forall j :: 0 <= j < |row| ==> CellWithinBounds(row, rp, j)
    ensures var r := Apply(body, draws, rp, row, gauss, pos, events);
            forall j :: 0 <= j < |row| ==> CellWithinBounds(r.row, rp, j)
  {
    var r := Apply(body, draws, rp, row, gauss, pos, events);
    ApplyFrame(body, draws, rp, row, gauss, pos, events);
    forall j | 0 <= j < |row|
      ensures CellWithinBounds(r.row, rp, j)
    {
      if !Addressed(events, j) {
        assert CellWithinBounds(row, rp, j);
        assert r.row[j] == row[j];
      }
    }
  }

  /** Concatenating two in-range event lists stays in range. */
  lemma InRangeConcat(a: seq<Event>, b: seq<Event>, n: nat)
    requires InRange(a, n) && InRange(b, n)
    ensures InRange(a + b, n)
  {
    forall k | 0 <= k < |a + b|
      ensures 0 <= (a + b)[k].col < n
    {
      if k < |a| { assert (a + b)[k] == a[k]; } else { assert (a + b)[k] == b[k - |a|]; }
    }
  }

  /** Continuing a call with a non-empty list is firing its first event and
      continuing with the rest. */
  lemma ThenFire(body: Body, draws: bool, rp: RowParams, gauss: nat -> real, pos: nat,
                 o: RowOutcome, events: seq<Event>, f: RowOutcome)
    requires rp.Fits(|o.row|) && |events| > 0
    requires f == Fire(body, draws, rp, o.row, gauss, pos + o.drawn, events[0])
    ensures Then(body, draws, rp, gauss, pos, o, events)
            == Then(body, draws, rp, gauss, pos, RowOutcome(f.row, o.drawn + f.drawn), events[1..])
  {
  }

  /** The inductive step of `ApplySplit`: if the split holds for the events
      after the first, it holds for the whole call. */
  lemma ApplySplitStep(body: Body, draws: bool, rp: RowParams, row: seq<real>, gauss: nat -> real,
                       pos: nat, a: seq<Event>, b: seq<Event>, first: RowOutcome)
    requires rp.Fits(|row|) && |a| > 0
    requires first == Fire(body, draws, rp, row, gauss, pos, a[0])
    requires Apply(body, draws, rp, first.row, gauss, pos + first.drawn, a[1..] + b)
             == Then(body, draws, rp, gauss, pos + first.drawn,
                     Apply(body, draws, rp, first.row, gauss, pos + first.drawn, a[1..]), b)
    ensures Apply(body, draws, rp, row, gauss, pos, a + b)
            == Then(body, draws, rp, gauss, pos, Apply(body, draws, rp, row, gauss, pos, a), b)
  {
    assert (a + b)[0] == a[0] && (a + b)[1..] == a[1..] + b;
    var p := pos + first.drawn;
    var tail := Apply(body, draws, rp, first.row, gauss, p, a[1..]);
    assert Apply(body, draws, rp, row, gauss, pos, a) == RowOutcome(tail.row, first.drawn + tail.drawn);
    var second := Apply(body, draws, rp, tail.row, gauss, p + tail.drawn, b);
    var whole := Apply(body, draws, rp, first.row, gauss, p, a[1..] + b);
    assert whole == RowOutcome(second.row, tail.drawn + second.drawn);
    assert Apply(body, draws, rp, row, gauss, pos, a + b) == RowOutcome(whole.row, first.drawn + whole.drawn);
    assert pos + (first.drawn + tail.drawn) == p + tail.drawn;
    assert Then(body, draws, rp, gauss, pos, RowOutcome(tail.row, first.drawn + tail.drawn), b)
           == RowOutcome(second.row, first.drawn + tail.drawn + second.drawn);
  }

  /** Splitting a call: applying `a + b` is applying `a` and then, from where
      the row and the stream were left, applying `b`. A column addressed twice
      is stepped, and clipped, twice. */
  lemma {:induction false} ApplySplit(body: Body, draws: bool, rp: RowParams, row: seq<real>,
                                      gauss: nat -> real, pos: nat, a: seq<Event>, b: seq<Event>)
    requires rp.Fits(|row|)
    ensures Apply(body, draws, rp, row, gauss, pos, a + b)
            == Then(body, draws, rp, gauss, pos, Apply(body, draws, rp, row, gauss, pos, a), b)
    decreases |a|
  {
    if |a| == 0 {
      assert a + b == b;
    } else {
      var first := Fire(body, draws, rp, row, gauss, pos, a[0]);
      ApplySplit(body, draws, rp, first.row, gauss, pos + first.drawn, a[1..], b);
      ApplySplitStep(body, draws, rp, row, gauss, pos, a, b, first);
    }
  }

  /** A loop that draws no sample gives the same row whatever the stream and
      its position. */
  lemma {:induction false} ApplyIgnoresStream(body: Body, rp: RowParams, row: seq<real>,
                                              g1: nat -> real, p1: nat, g2: nat -> real, p2: nat,
                                              events: seq<Event>)
    requires rp.Fits(|row|)
    ensures Apply(body, false, rp, row, g1, p1, events) == Apply(body, false, rp, row, g2, p2, events)
    decreases |events|
  {
    if |events| > 0 {
      var next := Fire(body, false, rp, row, g1, p1, events[0]).row;
      assert next == Fire(body, false, rp, row, g2, p2, events[0]).row;
      ApplyIgnoresStream(body, rp, next, g1, p1, g2, p2, events[1..]);
    }
  }

  /** Two bodies that agree on every argument the loop can offer them give
      the same call. */
  lemma {:induction false} ApplyCongruent(b1: Body, b2: Body, draws: bool, rp: RowParams,
                                          row: seq<real>, gauss: nat -> real, pos: nat,
                                          events: seq<Event>)
    requires rp.Fits(|row|)
    requires forall w, sign, g, c :: b1(w, sign, g, c) == b2(w, sign, g, c)
    ensures Apply(b1, draws, rp, row, gauss, pos, events) == Apply(b2, draws, rp, row, gauss, pos, events)
    decreases |events|
  {
    if |events| > 0 {
      var e := events[0];
      if 0 <= e.col < |row| {
        var g := if draws then gauss(pos) else 0.0;
        var w, c := row[e.col], rp.At(e.col);
        assert b1(w, e.sign, g, c) == b2(w, e.sign, g, c);
      }
      var first := Fire(b1, draws, rp, row, gauss, pos, e);
      assert first == Fire(b2, draws, rp, row, gauss, pos, e);
      ApplyCongruent(b1, b2, draws, rp, first.row, gauss, pos + first.drawn, events[1..]);
    }
  }
}
