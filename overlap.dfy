/**
 * Rectangles and the per-axis overlap rule shared by the pad integrator
 * (SensorPad.calculateFlux) and the grid queries (PPSHitmap.integratePadOccupancy).
 * All lengths are exact reals.
 */
module Overlap {

  /** An axis-aligned rectangle, [minX, maxX] x [minY, maxY]. */
  datatype Rect = Rect(minX: real, maxX: real, minY: real, maxY: real)

  function Min(a: real, b: real): real { if a <= b then a else b }
  function Max(a: real, b: real): real { if a >= b then a else b }

  predicate WellFormed(r: Rect) { r.minX <= r.maxX && r.minY <= r.maxY }

  predicate Contains(outer: Rect, inner: Rect)
  {
    outer.minX <= inner.minX && inner.maxX <= outer.maxX &&
    outer.minY <= inner.minY && inner.maxY <= outer.maxY
  }

  /**
   * The margin rectangle of a pad: the core rectangle with every side moved
   * outward by `extra`. It keeps the centre, grows each side by 2*extra and
   * contains the core rectangle whenever extra >= 0.
   */
  function Inflate(r: Rect, extra: real): (m: Rect)
    ensures m.maxX - m.minX == r.maxX - r.minX + 2.0 * extra
    ensures m.maxY - m.minY == r.maxY - r.minY + 2.0 * extra
    ensures m.minX + m.maxX == r.minX + r.maxX && m.minY + m.maxY == r.minY + r.maxY
    ensures extra >= 0.0 ==> Contains(m, r)
    ensures extra >= 0.0 && WellFormed(r) ==> WellFormed(m)
  {
    Rect(r.minX - extra, r.maxX + extra, r.minY - extra, r.maxY + extra)
  }

  /** A rectangle moved by one epoch's offset (dx, dy); its size is unchanged. */
  function Shifted(r: Rect, dx: real, dy: real): (s: Rect)
    ensures s.maxX - s.minX == r.maxX - r.minX && s.maxY - s.minY == r.maxY - r.minY
    ensures s.minX == r.minX + dx && s.minY == r.minY + dy
  {
    Rect(r.minX + dx, r.maxX + dx, r.minY + dy, r.maxY + dy)
  }

  /**
   * A cell [lo, hi] lies entirely on one outside of [a, b]: both of its edges
   * are below a, or both are above b. Such a cell is skipped on that axis.
   */
  predicate Skipped(lo: real, hi: real, a: real, b: real)
  {
    (lo < a && hi < a) || (lo > b && hi > b)
  }

  /**
   * The per-axis contribution of the cell [lo, hi] (of width `step`) to the
   * interval [a, b]: 0 when skipped, otherwise 1 minus the protrusions past
   * each side, each divided by the step.
   */
  function AxisContribution(lo: real, hi: real, a: real, b: real, step: real): real
    requires step > 0.0
  {
    if Skipped(lo, hi, a, b) then 0.0
    else
      1.0
      - (if hi > b then (hi - b) / step else 0.0)
      - (if lo < a then (a - lo) / step else 0.0)
  }

  /** Length of [lo, hi] inside [a, b], never negative. */
  function ClippedOverlap(lo: real, hi: real, a: real, b: real): (len: real)
    ensures len >= 0.0
    ensures lo <= hi ==> len <= hi - lo
  {
    Max(0.0, Min(hi, b) - Max(lo, a))
  }

  /**
   * The contribution equals the clipped overlap divided by the step, for any
   * cell whose width is the step and any interval with a <= b.
   */
  lemma ContributionIsClippedOverlap(lo: real, hi: real, a: real, b: real, step: real)
    requires step > 0.0 && hi - lo == step && a <= b
    ensures AxisContribution(lo, hi, a, b, step) == ClippedOverlap(lo, hi, a, b) / step
  {
    var c := AxisContribution(lo, hi, a, b, step);
    var o := ClippedOverlap(lo, hi, a, b);
    if !Skipped(lo, hi, a, b) {
      var top := if hi > b then hi - b else 0.0;
      var bot := if lo < a then a - lo else 0.0;
      assert c == 1.0 - top / step - bot / step;
      assert o == step - top - bot;
      assert c * step == o;
    } else {
      assert o == 0.0;
    }
  }

  /** Contributions are fractions of a cell: they lie in [0, 1]. */
  lemma ContributionInUnit(lo: real, hi: real, a: real, b: real, step: real)
    requires step > 0.0 && hi - lo == step && a <= b
    ensures 0.0 <= AxisContribution(lo, hi, a, b, step) <= 1.0
  {
    ContributionIsClippedOverlap(lo, hi, a, b, step);
    var o := ClippedOverlap(lo, hi, a, b);
    assert 0.0 <= o <= step;
    DivMonotone(o, step, step);
    DivMonotone(0.0, o, step);
  }

  /** Division by a positive step preserves order. */
  lemma DivMonotone(x: real, y: real, step: real)
    requires step > 0.0 && x <= y
    ensures x / step <= y / step
  {
    var d := y / step - x / step;
    assert d * step == y - x;
  }

  /** Widening the interval never lowers a cell's contribution. */
  lemma ContributionMonotone(lo: real, hi: real, a: real, b: real, a': real, b': real, step: real)
    requires step > 0.0 && hi - lo == step && a' <= a <= b <= b'
    ensures AxisContribution(lo, hi, a, b, step) <= AxisContribution(lo, hi, a', b', step)
  {
    ContributionIsClippedOverlap(lo, hi, a, b, step);
    ContributionIsClippedOverlap(lo, hi, a', b', step);
    DivMonotone(ClippedOverlap(lo, hi, a, b), ClippedOverlap(lo, hi, a', b'), step);
  }

  /** A skipped cell has no overlap with the interval. */
  lemma SkippedHasNoOverlap(lo: real, hi: real, a: real, b: real)
    requires lo <= hi && a <= b
    ensures Skipped(lo, hi, a, b) ==> ClippedOverlap(lo, hi, a, b) == 0.0
  {
  }

  /** A cell skipped by the wider interval is skipped by the narrower one too. */
  lemma SkippedShrinks(lo: real, hi: real, a: real, b: real, a': real, b': real)
    requires a' <= a && b <= b'
    ensures Skipped(lo, hi, a', b') ==> Skipped(lo, hi, a, b)
  {
  }
}
