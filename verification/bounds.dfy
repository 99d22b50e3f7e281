/**
 Bound handling of the pulsed devices: the `MIN`/`MAX` macros and the clip a
 weight goes through after every update event, `MAX(MIN(w, max_bound), min_bound)`.
 */
module Bounds {

  /** The `MIN` macro: the first argument unless the second is smaller. */
  function Min(a: real, b: real): (r: real)
    ensures r <= a && r <= b
    ensures r == a || r == b
  {
    if a < b then a else b
  }

  /** The `MAX` macro: the first argument unless the second is larger. */
  function Max(a: real, b: real): (r: real)
    ensures r >= a && r >= b
    ensures r == a || r == b
  {
    if a > b then a else b
  }

  function Abs(x: real): (r: real) {
    if x < 0.0 then -x else x
  }

  /** What a clipped value guarantees: never below the lower bound, never above
      the upper bound when the pair is ordered, and exactly the lower bound when
      the pair is crossed (the upper bound is applied first, the lower one wins). */
  predicate WithinBounds(v: real, lo: real, hi: real) {
    && lo <= v
    && (lo <= hi ==> v <= hi)
    && (hi < lo ==> v == lo)
  }

  /** Clip a value to `[lo, hi]`: `MIN` against the upper bound first, then
      `MAX` against the lower bound. */
  function Clip(v: real, lo: real, hi: real): (r: real)
    ensures WithinBounds(r, lo, hi)
    ensures lo <= v <= hi ==> r == v
    ensures lo <= hi < v ==> r == hi
    ensures v < lo ==> r == lo
  {
    Max(Min(v, hi), lo)
  }

  /** For an ordered bound pair the clip is the point of `[lo, hi]` nearest to
      the value: no point of the interval is closer. */
  lemma ClipIsNearest(v: real, lo: real, hi: real, x: real)
    requires lo <= hi
    requires lo <= x <= hi
    ensures Abs(Clip(v, lo, hi) - v) <= Abs(x - v)
  {
  }

  /** Clipping preserves the order of its arguments. */
  lemma ClipMonotone(v1: real, v2: real, lo: real, hi: real)
    requires v1 <= v2
    ensures Clip(v1, lo, hi) <= Clip(v2, lo, hi)
  {
  }

  /** A clipped value is left alone by a second clip against the same bounds,
      crossed bounds included. */
  lemma ClipIdempotent(v: real, lo: real, hi: real)
    ensures Clip(Clip(v, lo, hi), lo, hi) == Clip(v, lo, hi)
  {
  }
}
