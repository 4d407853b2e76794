/**
 * A fluence grid (PPSHitmap): the samples of one station's fluence file on
 * a regular grid of step xStep by yStep metres, the check that every grid
 * point is present together with the search for the peak beyond the
 * detector edge and for each column's ridge, and the occupancy estimates of
 * a pad placed at the peak.
 *
 * Grid points are named by their integer indices (x = xMin + xIdx*xStep);
 * the file's lines are given to the object as a sequence of samples.
 */
module Hitmaps {
  import opened Wrappers
  import opened FluenceMaps
  import opened Integrator

  datatype HitmapError =
    | BetastarNotImplemented         // betastar other than 0.15
    | PhysicsAndCalibration          // both physics and calib set
    | DivisionByZero                 // a zero grid step
    | MissingSample(xIdx: int, yIdx: int)  // no fluence entry for a grid point
    | NoPeak                         // the peak record is subscripted while there is none
    | MissingAttribute               // maxFluence is read before validate has created it

  const SupportedBetastar: real := 0.15
  const PhysicsNSigma: real := 15.9
  const CalibrationNSigma: real := 7.0
  /** Window thickness plus gap, in metres. */
  const XMargin: real := 0.0005

  /** A grid point and its fluence: the records kept in maxFluence and ridge. */
  datatype Peak = Peak(xIdx: int, yIdx: int, fluence: real)

  /** Python's int() of a float: truncation toward zero. */
  function Trunc(r: real): (n: int)
    ensures r >= 0.0 ==> n as real <= r < n as real + 1.0
    ensures r < 0.0 ==> n as real - 1.0 < r <= n as real
  {
    if r >= 0.0 then r.Floor else -((-r).Floor)
  }

  /** math.ceil: the least integer not below r. */
  function Ceil(r: real): (n: int)
    ensures n as real - 1.0 < r <= n as real
  {
    -((-r).Floor)
  }

  // ---------------------------------------------------------------------
  // Row-major scans over a block of grid points.

  /** Columns x0 .. x0+nx-1, each scanned over rows y0 .. y0+ny-1. */
  datatype Block = Block(x0: int, nx: nat, y0: int, ny: nat)

  /** The first of the first n rows of column x, from y0, with no sample. */
  function FirstMissingRow(m: FluenceMap, x: int, y0: int, n: nat): Option<int>
    decreases n
  {
    if n == 0 then None
    else
      var f := FirstMissingRow(m, x, y0, n - 1);
      if f.Some? then f else if !Has(m, x, y0 + n - 1) then Some(y0 + n - 1) else None
  }

  /**
   * The row found is missing, inside the range, and every row before it is
   * present; nothing found means every row of the range is present.
   */
  lemma {:induction false} FirstMissingRowSpec(m: FluenceMap, x: int, y0: int, n: nat)
    ensures var r := FirstMissingRow(m, x, y0, n);
      && (r.Some? ==>
            && y0 <= r.value < y0 + n && !Has(m, x, r.value)
            && forall y :: y0 <= y < r.value ==> Has(m, x, y))
      && (r.None? ==> forall y :: y0 <= y < y0 + n ==> Has(m, x, y))
    decreases n
  {
    if n > 0 {
      FirstMissingRowSpec(m, x, y0, n - 1);
    }
  }

  /** Cell (x', y') comes before cell (x, y) in row-major order. */
  predicate Before(x': int, y': int, x: int, y: int)
  {
    x' < x || (x' == x && y' < y)
  }

  /** The first missing point of the first k columns of the block, in scan order. */
  function FirstMissing(m: FluenceMap, b: Block, k: nat): Option<(int, int)>
    decreases k
  {
    if k == 0 then None
    else
      var f := FirstMissing(m, b, k - 1);
      if f.Some? then f
      else
        var row := FirstMissingRow(m, b.x0 + k - 1, b.y0, b.ny);
        if row.Some? then Some((b.x0 + k - 1, row.value)) else None
  }

  /**
   * The point found is missing, inside the first k columns, and every point
   * before it in scan order is present; nothing found means every point of
   * those columns is present.
   */
  lemma {:induction false} FirstMissingSpec(m: FluenceMap, b: Block, k: nat)
    ensures var r := FirstMissing(m, b, k);
      && (r.Some? ==>
            && b.x0 <= r.value.0 < b.x0 + k && b.y0 <= r.value.1 < b.y0 + b.ny
            && !Has(m, r.value.0, r.value.1)
            && forall x, y :: b.x0 <= x && b.y0 <= y < b.y0 + b.ny && Before(x, y, r.value.0, r.value.1) ==> Has(m, x, y))
      && (r.None? ==> forall x, y :: b.x0 <= x < b.x0 + k && b.y0 <= y < b.y0 + b.ny ==> Has(m, x, y))
    decreases k
  {
    if k > 0 {
      FirstMissingSpec(m, b, k - 1);
      FirstMissingRowSpec(m, b.x0 + k - 1, b.y0, b.ny);
    }
  }

  /** A missing point found in an early column is the first of any longer scan. */
  lemma {:induction false} FirstMissingStable(m: FluenceMap, b: Block, k: nat, k': nat)
    requires k <= k' && FirstMissing(m, b, k).Some?
    ensures FirstMissing(m, b, k') == FirstMissing(m, b, k)
    decreases k'
  {
    if k < k' {
      FirstMissingStable(m, b, k, k' - 1);
    }
  }

  /** A full column after columns with none missing extends the scan with none missing. */
  lemma FirstMissingNext(m: FluenceMap, b: Block, x: int)
    requires b.x0 <= x && FirstMissing(m, b, x - b.x0).None?
    requires FirstMissingRow(m, x, b.y0, b.ny).None?
    ensures FirstMissing(m, b, x + 1 - b.x0).None?
  {
  }

  /** The first missing point of column x, with every earlier column full, is the block's first. */
  lemma FirstMissingAtColumn(m: FluenceMap, b: Block, x: int, y: int)
    requires b.x0 <= x < b.x0 + b.nx && FirstMissing(m, b, x - b.x0).None?
    requires FirstMissingRow(m, x, b.y0, b.ny) == Some(y)
    ensures FirstMissing(m, b, b.nx) == Some((x, y))
  {
    var k := x - b.x0;
    assert FirstMissing(m, b, k + 1) == Some((x, y));
    FirstMissingStable(m, b, k + 1, b.nx);
  }

  // ---------------------------------------------------------------------
  // The peak and the ridge of the validation scan.

  /**
   * Cell (x', y') has been scanned once all columns before x and the first
   * n rows of column x have, with ny rows per column.
   */
  predicate Visited(x': int, y': int, x: int, n: int, ny: int)
  {
    (0 <= x' < x && 0 <= y' < ny) || (x' == x && 0 <= y' < n)
  }

  /**
   * t is maxFluence after the scanned cells: nothing when no scanned cell
   * lies at or beyond the detector-edge column e; otherwise the scanned
   * cell beyond the edge with the largest fluence, the first one in scan
   * order among equals.
   */
  ghost predicate PeakOf(t: Option<Peak>, m: FluenceMap, e: int, x: int, n: int, ny: int)
  {
    && (t.None? ==> forall x', y' :: Visited(x', y', x, n, ny) ==> x' < e)
    && (t.Some? ==>
          var p := t.value;
          && Visited(p.xIdx, p.yIdx, x, n, ny) && p.xIdx >= e && p.fluence == Get(m, p.xIdx, p.yIdx)
          && (forall x', y' :: Visited(x', y', x, n, ny) && x' >= e ==> Get(m, x', y') <= p.fluence)
          && (forall x', y' :: Visited(x', y', x, n, ny) && x' >= e && Before(x', y', p.xIdx, p.yIdx) ==>
                Get(m, x', y') < p.fluence))
  }

  /** p is the largest of rows 0..k-1 of column x, at the lowest row among equals. */
  ghost predicate ColumnTop(p: Peak, m: FluenceMap, x: int, k: int)
  {
    && p.xIdx == x && 0 <= p.yIdx < k && p.fluence == Get(m, x, p.yIdx)
    && (forall y :: 0 <= y < k ==> Get(m, x, y) <= p.fluence)
    && (forall y :: 0 <= y < p.yIdx ==> Get(m, x, y) < p.fluence)
  }

  /** rg is the ridge after the scanned cells: one top per column with a scanned cell. */
  ghost predicate RidgeOf(rg: map<int, Peak>, m: FluenceMap, x: int, n: int, ny: int)
  {
    && (forall x' :: x' in rg <==> (0 <= x' < x && ny > 0) || (x' == x && n > 0))
    && (forall x' :: x' in rg ==> ColumnTop(rg[x'], m, x', if x' < x then ny else n))
  }

  /** One cell offered to maxFluence: kept when beyond the edge and strictly larger (or the first). */
  function OfferPeak(t: Option<Peak>, e: int, x: int, y: int, v: real): Option<Peak>
  {
    if x >= e && (t.None? || v > t.value.fluence) then Some(Peak(x, y, v)) else t
  }

  /** One cell offered to the ridge: kept when its column has none yet or it is strictly larger. */
  function OfferRidge(rg: map<int, Peak>, x: int, y: int, v: real): map<int, Peak>
  {
    if x !in rg || v > rg[x].fluence then rg[x := Peak(x, y, v)] else rg
  }

  lemma PeakStep(t: Option<Peak>, m: FluenceMap, e: int, x: int, n: int, ny: int)
    requires 0 <= x && 0 <= n < ny && PeakOf(t, m, e, x, n, ny)
    ensures PeakOf(OfferPeak(t, e, x, n, Get(m, x, n)), m, e, x, n + 1, ny)
  {
    var t' := OfferPeak(t, e, x, n, Get(m, x, n));
    if t'.Some? {
      var p := t'.value;
      forall x', y' | Visited(x', y', x, n + 1, ny) && x' >= e && Before(x', y', p.xIdx, p.yIdx)
        ensures Get(m, x', y') < p.fluence
      {
        assert Visited(x', y', x, n, ny);
      }
    }
  }

  lemma RidgeStep(rg: map<int, Peak>, m: FluenceMap, x: int, n: int, ny: int)
    requires 0 <= x && 0 <= n < ny && RidgeOf(rg, m, x, n, ny)
    ensures RidgeOf(OfferRidge(rg, x, n, Get(m, x, n)), m, x, n + 1, ny)
  {
    var rg' := OfferRidge(rg, x, n, Get(m, x, n));
    forall x' | x' in rg' ensures ColumnTop(rg'[x'], m, x', if x' < x then ny else n + 1) {
      if x' != x {
        assert rg'[x'] == rg[x'];
      }
    }
  }

  lemma NextColumn(t: Option<Peak>, rg: map<int, Peak>, m: FluenceMap, e: int, x: int, ny: int)
    requires 0 <= x && 0 <= ny
    requires PeakOf(t, m, e, x, ny, ny) && RidgeOf(rg, m, x, ny, ny)
    ensures PeakOf(t, m, e, x + 1, 0, ny) && RidgeOf(rg, m, x + 1, 0, ny)
  {
    if t.Some? {
      var p := t.value;
      assert Visited(p.xIdx, p.yIdx, x + 1, 0, ny);
      forall x', y' | Visited(x', y', x + 1, 0, ny) && x' >= e ensures Get(m, x', y') <= p.fluence {
        assert Visited(x', y', x, ny, ny);
      }
      forall x', y' | Visited(x', y', x + 1, 0, ny) && x' >= e && Before(x', y', p.xIdx, p.yIdx)
        ensures Get(m, x', y') < p.fluence
      {
        assert Visited(x', y', x, ny, ny);
      }
    } else {
      forall x', y' {:trigger Visited(x', y', x + 1, 0, ny)} | Visited(x', y', x + 1, 0, ny) ensures x' < e {
        assert Visited(x', y', x, ny, ny);
      }
    }
    forall x' ensures x' in rg <==> (0 <= x' < x + 1 && ny > 0) || (x' == x + 1 && 0 > 0) {
    }
    forall x' | x' in rg ensures ColumnTop(rg[x'], m, x', if x' < x + 1 then ny else 0) {
      assert ColumnTop(rg[x'], m, x', if x' < x then ny else ny);
    }
    assert RidgeOf(rg, m, x + 1, 0, ny);
  }

  /** A missing row found early is the first of any longer scan of the column. */
  lemma {:induction false} FirstMissingRowStable(m: FluenceMap, x: int, y0: int, k: nat, k': nat)
    requires k <= k' && FirstMissingRow(m, x, y0, k).Some?
    ensures FirstMissingRow(m, x, y0, k') == FirstMissingRow(m, x, y0, k)
    decreases k'
  {
    if k < k' {
      FirstMissingRowStable(m, x, y0, k, k' - 1);
    }
  }

  /** A present row after rows with none missing extends the scan with none missing. */
  lemma FirstMissingRowNext(m: FluenceMap, x: int, y0: int, y: int)
    requires y0 <= y && FirstMissingRow(m, x, y0, y - y0).None? && Has(m, x, y)
    ensures FirstMissingRow(m, x, y0, y + 1 - y0).None?
  {
  }

  /** A missing row with no missing row before it is the first missing one. */
  lemma FirstMissingRowAt(m: FluenceMap, x: int, y0: int, n: nat, y: int)
    requires y0 <= y < y0 + n && !Has(m, x, y)
    requires FirstMissingRow(m, x, y0, y - y0).None?
    ensures FirstMissingRow(m, x, y0, n) == Some(y)
  {
    assert FirstMissingRow(m, x, y0, y - y0 + 1) == Some(y);
    FirstMissingRowStable(m, x, y0, y - y0 + 1, n);
  }

  /** The rows of one column in the validation scan; stops at the first missing point. */
  method ScanColumn(m: FluenceMap, e: int, x: int, ny: nat, peak0: Option<Peak>, ridge0: map<int, Peak>)
    returns (missing: Option<int>, peak: Option<Peak>, ridge: map<int, Peak>)
    requires 0 <= x && PeakOf(peak0, m, e, x, 0, ny) && RidgeOf(ridge0, m, x, 0, ny)
    ensures missing == FirstMissingRow(m, x, 0, ny)
    ensures var n := if missing.Some? then missing.value else ny;
      PeakOf(peak, m, e, x, n, ny) && RidgeOf(ridge, m, x, n, ny)
  {
    peak, ridge := peak0, ridge0;
    var yIdx := 0;
    while yIdx < ny
      invariant 0 <= yIdx <= ny
      invariant FirstMissingRow(m, x, 0, yIdx).None?
      invariant PeakOf(peak, m, e, x, yIdx, ny) && RidgeOf(ridge, m, x, yIdx, ny)
    {
      if !(x in m.values && yIdx in m.values[x]) {
        FirstMissingRowAt(m, x, 0, ny, yIdx);
        return Some(yIdx), peak, ridge;
      }
      var v := m.values[x][yIdx];
      PeakStep(peak, m, e, x, yIdx, ny);
      RidgeStep(ridge, m, x, yIdx, ny);
      if x >= e {
        if peak.None? || v > peak.value.fluence {
          peak := Some(Peak(x, yIdx, v));
        }
      }
      if x !in ridge || v > ridge[x].fluence {
        ridge := ridge[x := Peak(x, yIdx, v)];
      }
      yIdx := yIdx + 1;
    }
    missing := None;
  }

  /**
   * The columns of the validation scan, each of ny rows; stops at the first
   * missing point.
   */
  method ScanGrid(m: FluenceMap, e: int, columns: int, ny: nat)
    returns (missing: Option<(int, int)>, peak: Option<Peak>, ridge: map<int, Peak>)
    ensures var nx := if columns > 0 then columns else 0;
      missing == FirstMissing(m, Block(0, nx, 0, ny), nx)
    ensures var (x, n) := if missing.Some? then missing.value else (if columns > 0 then columns else 0, 0);
      PeakOf(peak, m, e, x, n, ny) && RidgeOf(ridge, m, x, n, ny)
  {
    ghost var b := Block(0, if columns > 0 then columns else 0, 0, ny);
    peak, ridge := None, map[];
    var xIdx := 0;
    while xIdx < columns
      invariant 0 <= xIdx <= b.nx
      invariant FirstMissing(m, b, xIdx).None?
      invariant PeakOf(peak, m, e, xIdx, 0, ny) && RidgeOf(ridge, m, xIdx, 0, ny)
      decreases columns - xIdx
    {
      var row;
      row, peak, ridge := ScanColumn(m, e, xIdx, ny, peak, ridge);
      if row.Some? {
        FirstMissingStable(m, b, xIdx + 1, b.nx);
        return Some((xIdx, row.value)), peak, ridge;
      }
      NextColumn(peak, ridge, m, e, xIdx, ny);
      xIdx := xIdx + 1;
    }
    missing := None;
  }

  // ---------------------------------------------------------------------
  // The validation as first written: maxFluence starts as an empty record.

  /** maxFluence as the source first sets it: an empty dictionary, then a record. */
  datatype PeakRecord = EmptyRecord | Record(peak: Peak)

  /**
   * One cell offered to maxFluence as written: the test reads the record's
   * fluence even when the record is the empty dictionary, which has none.
   */
  function OfferPeakAsWritten(t: PeakRecord, e: int, x: int, y: int, v: real): Result<PeakRecord, HitmapError>
  {
    if x < e then Ok(t)
    else if t.EmptyRecord? then Err(NoPeak)
    else if v > t.peak.fluence then Ok(Record(Peak(x, y, v)))
    else Ok(t)
  }

  /**
   * As written, the first cell at or beyond the edge column always fails,
   * whatever its fluence, while the corrected scan takes it as the peak.
   */
  lemma FirstEdgeCellFailsAsWritten(e: int, x: int, y: int, v: real)
    requires x >= e
    ensures OfferPeakAsWritten(EmptyRecord, e, x, y, v) == Err(NoPeak)
    ensures OfferPeak(None, e, x, y, v) == Some(Peak(x, y, v))
  {
  }

  /** A one-point grid whose point is beyond the edge: validation as written cannot finish. */
  lemma OnePointGridAsWritten()
    ensures var m := Put(Empty, 0, 0, 5.0);
      && FirstMissing(m, Block(0, 1, 0, 1), 1).None?
      && OfferPeakAsWritten(EmptyRecord, 0, 0, 0, Get(m, 0, 0)).Err?
      && PeakOf(OfferPeak(None, 0, 0, 0, Get(m, 0, 0)), m, 0, 1, 0, 1)
  {
    var m := Put(Empty, 0, 0, 5.0);
    PeakStep(None, m, 0, 0, 0, 1);
    assert forall x', y' :: Visited(x', y', 0, 1, 1) <==> Visited(x', y', 1, 0, 1);
  }

  // ---------------------------------------------------------------------
  // Occupancy of a pad at the peak.

  /**
   * The cells integratePadOccupancy visits: xBins columns from the peak
   * column, and yBins rows centred on the peak row; the pad's right, bottom
   * and top edges, in metres.
   */
  datatype PadWindow = PadWindow(block: Block, rightPad: real, bottomPad: real, topPad: real)

  function XBins(g: GridGeometry, xLen: real): int
    requires g.xStep != 0.0
  {
    Ceil(xLen / g.xStep)
  }

  /** The odd number of rows: twice ceil(yLen/yStep/2 - 1/2), plus one. */
  function YBins(g: GridGeometry, yLen: real): int
    requires g.yStep != 0.0
  {
    Ceil(yLen / g.yStep * 0.5 - 0.5) * 2 + 1
  }

  /** floor(yBins / 2): how many rows lie on each side of the peak row. */
  function HalfRows(yBins: int): int
  {
    (yBins as real / 2.0).Floor
  }

  function WindowAt(g: GridGeometry, p: Peak, xLen: real, yLen: real): PadWindow
    requires g.xStep != 0.0 && g.yStep != 0.0
  {
    var xBins, yBins := XBins(g, xLen), YBins(g, yLen);
    var minY, maxY := p.yIdx - HalfRows(yBins), p.yIdx + HalfRows(yBins);
    var px := g.xMin + p.xIdx as real * g.xStep;
    var py := g.yMin + p.yIdx as real * g.yStep;
    PadWindow(
      Block(p.xIdx, if xBins > 0 then xBins else 0, minY, if maxY + 1 > minY then maxY + 1 - minY else 0),
      px - g.xStep / 2.0 + xLen, py - yLen / 2.0, py + yLen / 2.0)
  }

  /** contributionX: the cell's share inside the pad, cut only on the right. */
  function XWeight(g: GridGeometry, w: PadWindow, x: int): real
    requires g.xStep != 0.0
  {
    var right := g.xMin + x as real * g.xStep + g.xStep / 2.0;
    if right > w.rightPad then 1.0 - (right - w.rightPad) / g.xStep else 1.0
  }

  /** The share of row y above the pad's top edge. */
  function TopCut(g: GridGeometry, w: PadWindow, y: int): real
    requires g.yStep != 0.0
  {
    var top := g.yMin + y as real * g.yStep + g.yStep / 2.0;
    if top > w.topPad then (top - w.topPad) / g.yStep else 0.0
  }

  /** The share of row y below the pad's bottom edge. */
  function BottomCut(g: GridGeometry, w: PadWindow, y: int): real
    requires g.yStep != 0.0
  {
    var bottom := g.yMin + y as real * g.yStep - g.yStep / 2.0;
    if bottom < w.bottomPad then (w.bottomPad - bottom) / g.yStep else 0.0
  }

  /** contributionY: the cell's share inside the pad, cut at the top and at the bottom. */
  function YWeight(g: GridGeometry, w: PadWindow, y: int): real
    requires g.yStep != 0.0
  {
    1.0 - TopCut(g, w, y) - BottomCut(g, w, y)
  }

  // ---------------------------------------------------------------------
  // Sums over index ranges, generic so that lemmas about them never unfold
  // the weights.

  /** f(lo) + f(lo + 1) + ... + f(lo + n - 1). */
  function RangeSum(f: int -> real, lo: int, n: nat): real
    decreases n
  {
    if n == 0 then 0.0 else RangeSum(f, lo, n - 1) + f(lo + n - 1)
  }

  /** k => c * f(k) */
  function Scaled(f: int -> real, c: real): int -> real
  {
    k => c * f(k)
  }

  lemma {:induction false} RangeSumLe(f: int -> real, h: int -> real, lo: int, n: nat)
    requires forall k :: lo <= k < lo + n ==> f(k) <= h(k)
    ensures RangeSum(f, lo, n) <= RangeSum(h, lo, n)
    decreases n
  {
    if n > 0 {
      RangeSumLe(f, h, lo, n - 1);
    }
  }

  lemma {:induction false} RangeSumEq(f: int -> real, h: int -> real, lo: int, n: nat)
    requires forall k :: lo <= k < lo + n ==> f(k) == h(k)
    ensures RangeSum(f, lo, n) == RangeSum(h, lo, n)
    decreases n
  {
    if n > 0 {
      RangeSumEq(f, h, lo, n - 1);
    }
  }

  lemma {:induction false} RangeSumScaled(f: int -> real, c: real, lo: int, n: nat)
    ensures RangeSum(Scaled(f, c), lo, n) == c * RangeSum(f, lo, n)
    decreases n
  {
    if n > 0 {
      RangeSumScaled(f, c, lo, n - 1);
      assert Scaled(f, c)(lo + n - 1) == c * f(lo + n - 1);
    }
  }

  lemma {:induction false} RangeSumOnes(f: int -> real, lo: int, n: nat)
    requires forall k :: lo <= k < lo + n ==> f(k) == 1.0
    ensures RangeSum(f, lo, n) == n as real
    decreases n
  {
    if n > 0 {
      RangeSumOnes(f, lo, n - 1);
    }
  }

  lemma {:induction false} RangeSumFront(f: int -> real, lo: int, n: nat)
    requires n >= 1
    ensures RangeSum(f, lo, n) == f(lo) + RangeSum(f, lo + 1, n - 1)
    decreases n
  {
    if n > 1 {
      RangeSumFront(f, lo, n - 1);
    }
  }

  /** A running total up to x - 1, plus the term at x, is the total up to x. */
  lemma RangeSumNext(f: int -> real, lo: int, x: int, total: real, t: real)
    requires lo <= x && total == RangeSum(f, lo, x - lo) && t == f(x)
    ensures total + t == RangeSum(f, lo, x + 1 - lo)
  {
  }

  /** A range whose inner terms are all one: only its two ends count otherwise. */
  lemma RangeSumEnds(f: int -> real, lo: int, n: nat)
    requires n >= 2 && forall k :: lo < k < lo + n - 1 ==> f(k) == 1.0
    ensures RangeSum(f, lo, n) == f(lo) + f(lo + n - 1) + (n - 2) as real
  {
    RangeSumFront(f, lo, n - 1);
    RangeSumOnes(f, lo + 1, n - 2);
  }

  lemma MulLe(a: real, b: real, c: real)
    requires a <= b && c >= 0.0
    ensures a * c <= b * c
  {
    assert (b - a) * c >= 0.0;
  }

  // ---------------------------------------------------------------------
  // The weighted fluence of the window.

  function XWeights(g: GridGeometry, w: PadWindow): int -> real
    requires g.xStep != 0.0
  {
    x => XWeight(g, w, x)
  }

  function YWeights(g: GridGeometry, w: PadWindow): int -> real
    requires g.yStep != 0.0
  {
    y => YWeight(g, w, y)
  }

  /** The weighted fluence of each row of column x: the point's value times both weights. */
  function CellTerms(m: FluenceMap, x: int, cx: real, wy: int -> real): int -> real
  {
    y => Get(m, x, y) * cx * wy(y)
  }

  /** The weighted fluence of each column over rows y0 .. y0+ny-1. */
  function ColumnTerms(m: FluenceMap, wx: int -> real, wy: int -> real, y0: int, ny: nat): int -> real
  {
    x => RangeSum(CellTerms(m, x, wx(x), wy), y0, ny)
  }

  /** The weighted fluence of a block, with column weights wx and row weights wy. */
  function BlockFluence(m: FluenceMap, wx: int -> real, wy: int -> real, b: Block): real
  {
    RangeSum(ColumnTerms(m, wx, wy, b.y0, b.ny), b.x0, b.nx)
  }

  /** The weighted fluence of the whole window. */
  function WindowFluence(m: FluenceMap, g: GridGeometry, w: PadWindow): real
    requires g.xStep != 0.0 && g.yStep != 0.0
  {
    BlockFluence(m, XWeights(g, w), YWeights(g, w), w.block)
  }

  /**
   * What integratePadOccupancy returns for a pad of xLen by yLen metres at
   * the peak: the errors in the order the source meets them (a zero step,
   * no peak, a missing point of the window), else the weighted fluence
   * converted to hits per bunch crossing of one cell.
   */
  function IntegratedOccupancy(m: FluenceMap, g: GridGeometry, peak: Option<Peak>, xLen: real, yLen: real): Result<real, HitmapError>
  {
    if g.xStep == 0.0 || g.yStep == 0.0 then Err(DivisionByZero)
    else if peak.None? then Err(NoPeak)
    else
      var w := WindowAt(g, peak.value, xLen, yLen);
      var missing := FirstMissing(m, w.block, w.block.nx);
      if missing.Some? then Err(MissingSample(missing.value.0, missing.value.1))
      else Ok(CellHits(WindowFluence(m, g, w), g))
  }

  /** A fluence summed in cell units, as hits per bunch crossing: times the hits per fluence and the cell's area in cm^2. */
  function CellHits(fluence: real, g: GridGeometry): real
  {
    fluence * HitsPerFluence * (g.xStep * g.yStep) * SquareCm
  }

  /** peakUniformPadOccupancy: the peak fluence spread uniformly over an xLen by yLen pad. */
  function PeakUniformOccupancy(peak: Option<Peak>, xLen: real, yLen: real): Option<real>
  {
    if peak.Some? then Some(PadHits(peak.value.fluence, xLen, yLen)) else None
  }

  /** A fluence spread uniformly over an xLen by yLen metre pad, as hits per bunch crossing. */
  function PadHits(fluence: real, xLen: real, yLen: real): real
  {
    fluence * HitsPerFluence * (xLen * yLen) * SquareCm
  }

  /** A larger fluence over the same pad gives at least as many hits. */
  lemma PadHitsMonotone(a: real, b: real, xLen: real, yLen: real)
    requires a <= b && xLen * yLen >= 0.0
    ensures PadHits(a, xLen, yLen) <= PadHits(b, xLen, yLen)
  {
    MulLe(a * HitsPerFluence, b * HitsPerFluence, xLen * yLen);
  }

  /** The pad sizes of the linear scans: bins equal steps from minPad to maxPad. */
  function ScanSize(i: int, bins: int, minPad: real, maxPad: real): real
    requires bins > 1
  {
    i as real * ((maxPad - minPad) / (bins - 1) as real) + minPad
  }

  /** The integrated occupancy of the i-th square pad of a linear scan. */
  function IntegratedScanAt(m: FluenceMap, g: GridGeometry, peak: Option<Peak>, i: int, bins: int, minPad: real, maxPad: real): Result<real, HitmapError>
    requires bins > 1
  {
    var size := ScanSize(i, bins, minPad, maxPad);
    IntegratedOccupancy(m, g, peak, size, size)
  }

  lemma ScanSizesSpan(bins: int, minPad: real, maxPad: real)
    requires bins > 1
    ensures ScanSize(0, bins, minPad, maxPad) == minPad
    ensures ScanSize(bins - 1, bins, minPad, maxPad) == maxPad
    ensures forall i :: 0 <= i < bins - 1 ==>
              ScanSize(i + 1, bins, minPad, maxPad) - ScanSize(i, bins, minPad, maxPad) == (maxPad - minPad) / (bins - 1) as real
  {
    var step := (maxPad - minPad) / (bins - 1) as real;
    assert (bins - 1) as real * step == maxPad - minPad;
  }

  /**
   * The window's shape: yBins is odd and its rows run symmetrically from
   * the peak row; with positive steps, xBins is the fewest columns and
   * yBins the fewest odd rows covering the pad's length in steps.
   */
  lemma WindowShape(g: GridGeometry, p: Peak, xLen: real, yLen: real)
    requires g.xStep != 0.0 && g.yStep != 0.0
    ensures var w, yBins := WindowAt(g, p, xLen, yLen), YBins(g, yLen);
      && yBins % 2 == 1
      && w.block.x0 == p.xIdx && w.block.nx == (if XBins(g, xLen) > 0 then XBins(g, xLen) else 0)
      && w.block.ny == (if yBins > 0 then yBins else 0)
      && p.yIdx - w.block.y0 == HalfRows(yBins) && 2 * HalfRows(yBins) + 1 == yBins
    ensures g.xStep > 0.0 ==> XBins(g, xLen) as real - 1.0 < xLen / g.xStep <= XBins(g, xLen) as real
    ensures g.yStep > 0.0 ==> YBins(g, yLen) as real - 2.0 < yLen / g.yStep <= YBins(g, yLen) as real
  {
    var c := Ceil(yLen / g.yStep * 0.5 - 0.5);
    assert YBins(g, yLen) == 2 * c + 1;
    assert ((2 * c + 1) as real / 2.0).Floor == c by {
      assert c as real <= (2 * c + 1) as real / 2.0 < c as real + 1.0;
    }
  }

  /** A difference of a steps is a cut of a: positive exactly when a is. */
  lemma CutRatio(diff: real, s: real, a: real)
    requires s > 0.0 && diff == a * s
    ensures (diff > 0.0 <==> a > 0.0) && diff / s == a
  {
    if a > 0.0 {
      assert a * s > 0.0;
    } else {
      assert (-a) * s >= 0.0;
    }
  }

  /**
   * The x weight of column x when the pad's left edge is the left edge of
   * column px: whole, except where the pad's right edge cuts it.
   */
  lemma XWeightAt(g: GridGeometry, w: PadWindow, px: int, xLen: real, x: int)
    requires g.xStep > 0.0
    requires w.rightPad == g.xMin + px as real * g.xStep - g.xStep / 2.0 + xLen
    ensures var r, i := xLen / g.xStep, x - px;
      XWeight(g, w, x) == if (i + 1) as real > r then r - i as real else 1.0
  {
    var s, r, i := g.xStep, xLen / g.xStep, x - px;
    var right := g.xMin + x as real * s + s / 2.0;
    assert x as real * s == px as real * s + i as real * s;
    assert r * s == xLen;
    assert ((i + 1) as real - r) * s == i as real * s + s - r * s;
    CutRatio(right - w.rightPad, s, (i + 1) as real - r);
  }

  /**
   * The columns' x weights each lie in (0, 1] and add up to the pad's width
   * in steps: the window covers exactly the pad along x.
   */
  lemma XWeightsCoverPad(g: GridGeometry, p: Peak, xLen: real, yLen: real)
    requires g.xStep > 0.0 && g.yStep != 0.0 && xLen > 0.0
    ensures var w := WindowAt(g, p, xLen, yLen);
      && RangeSum(XWeights(g, w), w.block.x0, w.block.nx) == xLen / g.xStep
      && forall x :: w.block.x0 <= x < w.block.x0 + w.block.nx ==> 0.0 < XWeights(g, w)(x) <= 1.0
  {
    var w, r, xBins := WindowAt(g, p, xLen, yLen), xLen / g.xStep, XBins(g, xLen);
    WindowShape(g, p, xLen, yLen);
    assert r > 0.0 && xBins >= 1 && w.block == Block(p.xIdx, xBins, w.block.y0, w.block.ny);
    assert w.rightPad == g.xMin + p.xIdx as real * g.xStep - g.xStep / 2.0 + xLen;
    forall x | p.xIdx <= x < p.xIdx + xBins
      ensures 0.0 < XWeight(g, w, x) <= 1.0 && (x < p.xIdx + xBins - 1 ==> XWeight(g, w, x) == 1.0)
    {
      XWeightAt(g, w, p.xIdx, xLen, x);
    }
    RangeSumOnes(XWeights(g, w), p.xIdx, xBins - 1);
    XWeightAt(g, w, p.xIdx, xLen, p.xIdx + xBins - 1);
  }

  /** The share of row y cut off by the pad's top edge, when the pad is centred on row py. */
  lemma TopCutAt(g: GridGeometry, w: PadWindow, py: int, h: int, yLen: real, y: int)
    requires g.yStep > 0.0
    requires (2 * h - 1) as real < yLen / g.yStep <= (2 * h + 1) as real
    requires py - h <= y <= py + h
    requires w.topPad == g.yMin + py as real * g.yStep + yLen / 2.0
    ensures TopCut(g, w, y) == if y == py + h then ((2 * h + 1) as real - yLen / g.yStep) / 2.0 else 0.0
  {
    var s, r, d := g.yStep, yLen / g.yStep, y - py;
    var top := g.yMin + y as real * s + s / 2.0;
    assert y as real * s == py as real * s + d as real * s;
    assert r * s == yLen;
    var a := d as real + 0.5 - r / 2.0;
    assert a * s == d as real * s + s / 2.0 - r * s / 2.0;
    CutRatio(top - w.topPad, s, a);
    assert a > 0.0 ==> d == h;
  }

  /** The share of row y cut off by the pad's bottom edge, when the pad is centred on row py. */
  lemma BottomCutAt(g: GridGeometry, w: PadWindow, py: int, h: int, yLen: real, y: int)
    requires g.yStep > 0.0
    requires (2 * h - 1) as real < yLen / g.yStep <= (2 * h + 1) as real
    requires py - h <= y <= py + h
    requires w.bottomPad == g.yMin + py as real * g.yStep - yLen / 2.0
    ensures BottomCut(g, w, y) == if y == py - h then ((2 * h + 1) as real - yLen / g.yStep) / 2.0 else 0.0
  {
    var s, r, d := g.yStep, yLen / g.yStep, y - py;
    var bottom := g.yMin + y as real * s - s / 2.0;
    assert y as real * s == py as real * s + d as real * s;
    assert r * s == yLen;
    var a := 0.5 - d as real - r / 2.0;
    assert a * s == s / 2.0 - d as real * s - r * s / 2.0;
    CutRatio(w.bottomPad - bottom, s, a);
    assert a > 0.0 ==> d == -h;
  }

  /**
   * The y weight of row y when the pad is centred on row py and its height
   * lies between 2h - 1 and 2h + 1 steps: whole, except that the top row
   * (py + h) and the bottom row (py - h) each lose the excess.
   */
  lemma YWeightAt(g: GridGeometry, w: PadWindow, py: int, h: int, yLen: real, y: int)
    requires g.yStep > 0.0
    requires (2 * h - 1) as real < yLen / g.yStep <= (2 * h + 1) as real
    requires py - h <= y <= py + h
    requires w.topPad == g.yMin + py as real * g.yStep + yLen / 2.0
    requires w.bottomPad == g.yMin + py as real * g.yStep - yLen / 2.0
    ensures var e := ((2 * h + 1) as real - yLen / g.yStep) / 2.0;
      YWeight(g, w, y) == 1.0 - (if y == py + h then e else 0.0) - (if y == py - h then e else 0.0)
  {
    TopCutAt(g, w, py, h, yLen, y);
    BottomCutAt(g, w, py, h, yLen, y);
  }

  /** The rows' y weights when the pad is centred on row py: YWeightAt for every row of the window. */
  lemma YWeightsAt(g: GridGeometry, w: PadWindow, py: int, h: int, yLen: real)
    requires g.yStep > 0.0
    requires (2 * h - 1) as real < yLen / g.yStep <= (2 * h + 1) as real
    requires w.topPad == g.yMin + py as real * g.yStep + yLen / 2.0
    requires w.bottomPad == g.yMin + py as real * g.yStep - yLen / 2.0
    ensures var e := ((2 * h + 1) as real - yLen / g.yStep) / 2.0;
      forall y :: py - h <= y <= py + h ==>
        YWeights(g, w)(y) == 1.0 - (if y == py + h then e else 0.0) - (if y == py - h then e else 0.0)
  {
    forall y | py - h <= y <= py + h
      ensures YWeights(g, w)(y) == YWeight(g, w, y)
      ensures var e := ((2 * h + 1) as real - yLen / g.yStep) / 2.0;
        YWeight(g, w, y) == 1.0 - (if y == py + h then e else 0.0) - (if y == py - h then e else 0.0)
    {
      YWeightAt(g, w, py, h, yLen, y);
    }
  }

  /**
   * 2h + 1 terms, all one except that the first and the last each lose e:
   * they add up to 2h + 1 - 2e and, when e is below one (below a half for
   * a single term), each lies in (0, 1].
   */
  lemma EndsCutSum(f: int -> real, lo: int, h: nat, e: real)
    requires forall k :: lo <= k <= lo + 2 * h ==>
               f(k) == 1.0 - (if k == lo + 2 * h then e else 0.0) - (if k == lo then e else 0.0)
    ensures RangeSum(f, lo, 2 * h + 1) == (2 * h + 1) as real - 2.0 * e
    ensures 0.0 <= e < 1.0 && (h == 0 ==> e < 0.5) ==> forall k :: lo <= k < lo + 2 * h + 1 ==> 0.0 < f(k) <= 1.0
  {
    if h == 0 {
      assert RangeSum(f, lo, 1) == RangeSum(f, lo, 0) + f(lo);
    } else {
      RangeSumEnds(f, lo, 2 * h + 1);
    }
  }

  /**
   * The rows' y weights each lie in (0, 1] and add up to the pad's height
   * in steps: the window covers exactly the pad along y.
   */
  lemma YWeightsCoverPad(g: GridGeometry, p: Peak, xLen: real, yLen: real)
    requires g.yStep > 0.0 && g.xStep != 0.0 && yLen > 0.0
    ensures var w := WindowAt(g, p, xLen, yLen);
      && RangeSum(YWeights(g, w), w.block.y0, w.block.ny) == yLen / g.yStep
      && forall y :: w.block.y0 <= y < w.block.y0 + w.block.ny ==> 0.0 < YWeights(g, w)(y) <= 1.0
  {
    var w, h, r := WindowAt(g, p, xLen, yLen), HalfRows(YBins(g, yLen)), yLen / g.yStep;
    WindowShape(g, p, xLen, yLen);
    var e := ((2 * h + 1) as real - r) / 2.0;
    var lo := p.yIdx - h;
    assert h >= 0 && w.block.ny == 2 * h + 1 && w.block.y0 == lo;
    assert w.topPad == g.yMin + p.yIdx as real * g.yStep + yLen / 2.0;
    assert w.bottomPad == g.yMin + p.yIdx as real * g.yStep - yLen / 2.0;
    assert 0.0 <= e < 1.0 && (h == 0 ==> e < 0.5);
    YWeightsAt(g, w, p.yIdx, h, yLen);
    EndsCutSum(YWeights(g, w), lo, h, e);
  }

  /** A column of equal values v sums to v times the column's weights. */
  lemma ColumnUniform(m: FluenceMap, x: int, cx: real, wy: int -> real, y0: int, ny: nat, v: real)
    requires forall y :: y0 <= y < y0 + ny ==> Get(m, x, y) == v
    ensures RangeSum(CellTerms(m, x, cx, wy), y0, ny) == v * cx * RangeSum(wy, y0, ny)
  {
    forall y | y0 <= y < y0 + ny ensures CellTerms(m, x, cx, wy)(y) == Scaled(wy, v * cx)(y) {
    }
    RangeSumEq(CellTerms(m, x, cx, wy), Scaled(wy, v * cx), y0, ny);
    RangeSumScaled(wy, v * cx, y0, ny);
  }

  /** One cell: a value at most v, with non-negative weights, weighs at most c = v * cx times its row weight. */
  lemma CellBounded(a: real, v: real, cx: real, cy: real, c: real)
    requires a <= v && cx >= 0.0 && cy >= 0.0 && c == v * cx
    ensures a * cx * cy <= c * cy
  {
    MulLe(a, v, cx);
    MulLe(a * cx, c, cy);
  }

  /** Each cell of a column of values at most v weighs at most c = v * cx times its row weight. */
  lemma CellsBounded(m: FluenceMap, x: int, cx: real, wy: int -> real, y0: int, ny: nat, v: real, c: real)
    requires cx >= 0.0 && c == v * cx
    requires forall y :: y0 <= y < y0 + ny ==> Get(m, x, y) <= v && wy(y) >= 0.0
    ensures forall y :: y0 <= y < y0 + ny ==> CellTerms(m, x, cx, wy)(y) <= Scaled(wy, c)(y)
  {
    forall y | y0 <= y < y0 + ny ensures CellTerms(m, x, cx, wy)(y) <= Scaled(wy, c)(y) {
      var a, cy := Get(m, x, y), wy(y);
      assert CellTerms(m, x, cx, wy)(y) == a * cx * cy;
      assert Scaled(wy, c)(y) == c * cy;
      CellBounded(a, v, cx, cy, c);
    }
  }

  /** A column of values at most v, with non-negative weights, sums to at most v times its weights. */
  lemma ColumnBounded(m: FluenceMap, x: int, cx: real, wy: int -> real, y0: int, ny: nat, v: real)
    requires cx >= 0.0
    requires forall y :: y0 <= y < y0 + ny ==> Get(m, x, y) <= v && wy(y) >= 0.0
    ensures RangeSum(CellTerms(m, x, cx, wy), y0, ny) <= v * cx * RangeSum(wy, y0, ny)
  {
    CellsBounded(m, x, cx, wy, y0, ny, v, v * cx);
    RangeSumLe(CellTerms(m, x, cx, wy), Scaled(wy, v * cx), y0, ny);
    RangeSumScaled(wy, v * cx, y0, ny);
  }

  /** One column of a uniform block: its weighted fluence is v times its weight times the row weights. */
  lemma ColumnTermUniform(m: FluenceMap, wx: int -> real, wy: int -> real, b: Block, v: real, c: real, x: int)
    requires forall y :: b.y0 <= y < b.y0 + b.ny ==> Get(m, x, y) == v
    requires c == v * RangeSum(wy, b.y0, b.ny)
    ensures ColumnTerms(m, wx, wy, b.y0, b.ny)(x) == Scaled(wx, c)(x)
  {
    var cx := wx(x);
    assert ColumnTerms(m, wx, wy, b.y0, b.ny)(x) == RangeSum(CellTerms(m, x, cx, wy), b.y0, b.ny);
    assert Scaled(wx, c)(x) == c * cx;
    ColumnUniform(m, x, cx, wy, b.y0, b.ny, v);
  }

  /** One column of a bounded block. */
  lemma ColumnTermBounded(m: FluenceMap, wx: int -> real, wy: int -> real, b: Block, v: real, c: real, x: int)
    requires wx(x) >= 0.0
    requires forall y :: b.y0 <= y < b.y0 + b.ny ==> wy(y) >= 0.0 && Get(m, x, y) <= v
    requires c == v * RangeSum(wy, b.y0, b.ny)
    ensures ColumnTerms(m, wx, wy, b.y0, b.ny)(x) <= Scaled(wx, c)(x)
  {
    var cx := wx(x);
    assert ColumnTerms(m, wx, wy, b.y0, b.ny)(x) == RangeSum(CellTerms(m, x, cx, wy), b.y0, b.ny);
    assert Scaled(wx, c)(x) == c * cx;
    ColumnBounded(m, x, cx, wy, b.y0, b.ny, v);
  }

  lemma MulAssoc(a: real, b: real, c: real, d: real)
    requires c == a * b
    ensures c * d == a * b * d
  {
  }

  /** A block of equal values v sums to c times its column weights, c being v times its row weights. */
  lemma BlockUniformBy(m: FluenceMap, wx: int -> real, wy: int -> real, b: Block, v: real, c: real)
    requires forall x, y :: b.x0 <= x < b.x0 + b.nx && b.y0 <= y < b.y0 + b.ny ==> Get(m, x, y) == v
    requires c == v * RangeSum(wy, b.y0, b.ny)
    ensures BlockFluence(m, wx, wy, b) == c * RangeSum(wx, b.x0, b.nx)
  {
    var cols, scaled := ColumnTerms(m, wx, wy, b.y0, b.ny), Scaled(wx, c);
    forall x | b.x0 <= x < b.x0 + b.nx ensures cols(x) == scaled(x) {
      ColumnTermUniform(m, wx, wy, b, v, c, x);
    }
    RangeSumEq(cols, scaled, b.x0, b.nx);
    RangeSumScaled(wx, c, b.x0, b.nx);
  }

  /** A block of equal values v sums to v times the product of its axis weights. */
  lemma BlockUniform(m: FluenceMap, wx: int -> real, wy: int -> real, b: Block, v: real)
    requires forall x, y :: b.x0 <= x < b.x0 + b.nx && b.y0 <= y < b.y0 + b.ny ==> Get(m, x, y) == v
    ensures BlockFluence(m, wx, wy, b) == v * RangeSum(wy, b.y0, b.ny) * RangeSum(wx, b.x0, b.nx)
  {
    var xs, ys := RangeSum(wx, b.x0, b.nx), RangeSum(wy, b.y0, b.ny);
    BlockUniformBy(m, wx, wy, b, v, v * ys);
    MulAssoc(v, ys, v * ys, xs);
  }

  /** A block of values at most v, with non-negative weights, sums to at most c times its column weights. */
  lemma BlockBoundedBy(m: FluenceMap, wx: int -> real, wy: int -> real, b: Block, v: real, c: real)
    requires forall x :: b.x0 <= x < b.x0 + b.nx ==> wx(x) >= 0.0
    requires forall y :: b.y0 <= y < b.y0 + b.ny ==> wy(y) >= 0.0
    requires forall x, y :: b.x0 <= x < b.x0 + b.nx && b.y0 <= y < b.y0 + b.ny ==> Get(m, x, y) <= v
    requires c == v * RangeSum(wy, b.y0, b.ny)
    ensures BlockFluence(m, wx, wy, b) <= c * RangeSum(wx, b.x0, b.nx)
  {
    var cols, scaled := ColumnTerms(m, wx, wy, b.y0, b.ny), Scaled(wx, c);
    forall x | b.x0 <= x < b.x0 + b.nx ensures cols(x) <= scaled(x) {
      ColumnTermBounded(m, wx, wy, b, v, c, x);
    }
    RangeSumLe(cols, scaled, b.x0, b.nx);
    RangeSumScaled(wx, c, b.x0, b.nx);
  }

  /** A block of values at most v, with non-negative weights, sums to at most v times the product of its axis weights. */
  lemma BlockBounded(m: FluenceMap, wx: int -> real, wy: int -> real, b: Block, v: real)
    requires forall x :: b.x0 <= x < b.x0 + b.nx ==> wx(x) >= 0.0
    requires forall y :: b.y0 <= y < b.y0 + b.ny ==> wy(y) >= 0.0
    requires forall x, y :: b.x0 <= x < b.x0 + b.nx && b.y0 <= y < b.y0 + b.ny ==> Get(m, x, y) <= v
    ensures BlockFluence(m, wx, wy, b) <= v * RangeSum(wy, b.y0, b.ny) * RangeSum(wx, b.x0, b.nx)
  {
    var xs, ys := RangeSum(wx, b.x0, b.nx), RangeSum(wy, b.y0, b.ny);
    BlockBoundedBy(m, wx, wy, b, v, v * ys);
    MulAssoc(v, ys, v * ys, xs);
  }

  /** BlockUniform with the axis sums named. */
  lemma BlockUniformSums(m: FluenceMap, wx: int -> real, wy: int -> real, b: Block, v: real, sx: real, sy: real)
    requires forall x, y :: b.x0 <= x < b.x0 + b.nx && b.y0 <= y < b.y0 + b.ny ==> Get(m, x, y) == v
    requires RangeSum(wx, b.x0, b.nx) == sx && RangeSum(wy, b.y0, b.ny) == sy
    ensures BlockFluence(m, wx, wy, b) == v * sy * sx
  {
    BlockUniform(m, wx, wy, b, v);
  }

  /** BlockBounded with the axis sums named. */
  lemma BlockBoundedSums(m: FluenceMap, wx: int -> real, wy: int -> real, b: Block, v: real, sx: real, sy: real)
    requires forall x :: b.x0 <= x < b.x0 + b.nx ==> wx(x) >= 0.0
    requires forall y :: b.y0 <= y < b.y0 + b.ny ==> wy(y) >= 0.0
    requires forall x, y :: b.x0 <= x < b.x0 + b.nx && b.y0 <= y < b.y0 + b.ny ==> Get(m, x, y) <= v
    requires RangeSum(wx, b.x0, b.nx) == sx && RangeSum(wy, b.y0, b.ny) == sy
    ensures BlockFluence(m, wx, wy, b) <= v * sy * sx
  {
    BlockBounded(m, wx, wy, b, v);
  }

  /** The weighted fluence of row y of column x, from its value and both weights. */
  lemma CellTermAt(m: FluenceMap, x: int, cx: real, wy: int -> real, y: int, v: real, cx': real, cy: real)
    requires Get(m, x, y) == v && cx' == cx && wy(y) == cy
    ensures CellTerms(m, x, cx, wy)(y) == v * cx' * cy
  {
  }

  /**
   * v times the pad's area in cells (sy rows by sx columns), converted to
   * hits per bunch crossing, is the peak-uniform occupancy of v.
   */
  lemma AreaConversion(g: GridGeometry, v: real, xLen: real, yLen: real, sx: real, sy: real)
    requires g.xStep > 0.0 && g.yStep > 0.0
    requires sx == xLen / g.xStep && sy == yLen / g.yStep
    ensures CellHits(v * sy * sx, g) == PadHits(v, xLen, yLen)
  {
    assert sy * sx * (g.xStep * g.yStep) == xLen * yLen;
  }

  /** Converting fluence to hits per bunch crossing keeps the order. */
  lemma ConversionMonotone(g: GridGeometry, a: real, b: real)
    requires g.xStep > 0.0 && g.yStep > 0.0 && a <= b
    ensures CellHits(a, g) <= CellHits(b, g)
  {
    MulLe(a * HitsPerFluence, b * HitsPerFluence, g.xStep * g.yStep);
  }

  /** A window whose points are all present has no first missing point. */
  lemma WindowComplete(m: FluenceMap, b: Block)
    requires forall x, y :: b.x0 <= x < b.x0 + b.nx && b.y0 <= y < b.y0 + b.ny ==> Has(m, x, y)
    ensures FirstMissing(m, b, b.nx).None?
  {
    FirstMissingSpec(m, b, b.nx);
  }

  /** A window of equal values v weighs v times the pad's area in cells, sy rows by sx columns. */
  lemma WindowFluenceUniform(m: FluenceMap, g: GridGeometry, p: Peak, xLen: real, yLen: real, v: real, sx: real, sy: real)
    requires g.xStep > 0.0 && g.yStep > 0.0 && xLen > 0.0 && yLen > 0.0
    requires sx == xLen / g.xStep && sy == yLen / g.yStep
    requires var b := WindowAt(g, p, xLen, yLen).block;
      forall x, y :: b.x0 <= x < b.x0 + b.nx && b.y0 <= y < b.y0 + b.ny ==> Get(m, x, y) == v
    ensures WindowFluence(m, g, WindowAt(g, p, xLen, yLen)) == v * sy * sx
  {
    var w := WindowAt(g, p, xLen, yLen);
    XWeightsCoverPad(g, p, xLen, yLen);
    YWeightsCoverPad(g, p, xLen, yLen);
    BlockUniformSums(m, XWeights(g, w), YWeights(g, w), w.block, v, sx, sy);
  }

  /** A window of values at most v weighs at most v times the pad's area in cells. */
  lemma WindowFluenceBounded(m: FluenceMap, g: GridGeometry, p: Peak, xLen: real, yLen: real, v: real, sx: real, sy: real)
    requires g.xStep > 0.0 && g.yStep > 0.0 && xLen > 0.0 && yLen > 0.0
    requires sx == xLen / g.xStep && sy == yLen / g.yStep
    requires var b := WindowAt(g, p, xLen, yLen).block;
      forall x, y :: b.x0 <= x < b.x0 + b.nx && b.y0 <= y < b.y0 + b.ny ==> Get(m, x, y) <= v
    ensures WindowFluence(m, g, WindowAt(g, p, xLen, yLen)) <= v * sy * sx
  {
    var w := WindowAt(g, p, xLen, yLen);
    XWeightsCoverPad(g, p, xLen, yLen);
    YWeightsCoverPad(g, p, xLen, yLen);
    BlockBoundedSums(m, XWeights(g, w), YWeights(g, w), w.block, v, sx, sy);
  }

  /** A window of equal values v, converted to hits per bunch crossing, gives the peak-uniform hits of v. */
  lemma WindowHitsUniform(m: FluenceMap, g: GridGeometry, p: Peak, xLen: real, yLen: real, v: real)
    requires g.xStep > 0.0 && g.yStep > 0.0 && xLen > 0.0 && yLen > 0.0
    requires var b := WindowAt(g, p, xLen, yLen).block;
      forall x, y :: b.x0 <= x < b.x0 + b.nx && b.y0 <= y < b.y0 + b.ny ==> Get(m, x, y) == v
    ensures CellHits(WindowFluence(m, g, WindowAt(g, p, xLen, yLen)), g) == PadHits(v, xLen, yLen)
  {
    var sx, sy := xLen / g.xStep, yLen / g.yStep;
    WindowFluenceUniform(m, g, p, xLen, yLen, v, sx, sy);
    AreaConversion(g, v, xLen, yLen, sx, sy);
  }

  /** A window of values at most v, converted to hits per bunch crossing, gives at most the peak-uniform hits of v. */
  lemma WindowHitsBounded(m: FluenceMap, g: GridGeometry, p: Peak, xLen: real, yLen: real, v: real)
    requires g.xStep > 0.0 && g.yStep > 0.0 && xLen > 0.0 && yLen > 0.0
    requires var b := WindowAt(g, p, xLen, yLen).block;
      forall x, y :: b.x0 <= x < b.x0 + b.nx && b.y0 <= y < b.y0 + b.ny ==> Get(m, x, y) <= v
    ensures CellHits(WindowFluence(m, g, WindowAt(g, p, xLen, yLen)), g) <= PadHits(v, xLen, yLen)
  {
    var sx, sy := xLen / g.xStep, yLen / g.yStep;
    WindowFluenceBounded(m, g, p, xLen, yLen, v, sx, sy);
    ConversionMonotone(g, WindowFluence(m, g, WindowAt(g, p, xLen, yLen)), v * sy * sx);
    AreaConversion(g, v, xLen, yLen, sx, sy);
  }

  /** With both steps non-zero and no point of the window missing, integratePadOccupancy converts the window's fluence. */
  lemma IntegratedWindow(m: FluenceMap, g: GridGeometry, p: Peak, xLen: real, yLen: real)
    requires g.xStep != 0.0 && g.yStep != 0.0
    requires FirstMissing(m, WindowAt(g, p, xLen, yLen).block, WindowAt(g, p, xLen, yLen).block.nx).None?
    ensures IntegratedOccupancy(m, g, Some(p), xLen, yLen) == Ok(CellHits(WindowFluence(m, g, WindowAt(g, p, xLen, yLen)), g))
  {
  }

  /**
   * A window filled with the peak's own fluence integrates to the
   * peak-uniform occupancy: the two estimates agree on a flat map.
   */
  lemma UniformWindowIsPeakUniform(m: FluenceMap, g: GridGeometry, p: Peak, xLen: real, yLen: real)
    requires g.xStep > 0.0 && g.yStep > 0.0 && xLen > 0.0 && yLen > 0.0
    requires var b := WindowAt(g, p, xLen, yLen).block;
      forall x, y :: b.x0 <= x < b.x0 + b.nx && b.y0 <= y < b.y0 + b.ny ==> Has(m, x, y) && Get(m, x, y) == p.fluence
    ensures IntegratedOccupancy(m, g, Some(p), xLen, yLen) == Ok(PeakUniformOccupancy(Some(p), xLen, yLen).value)
  {
    var w := WindowAt(g, p, xLen, yLen);
    WindowComplete(m, w.block);
    IntegratedWindow(m, g, p, xLen, yLen);
    WindowHitsUniform(m, g, p, xLen, yLen, p.fluence);
  }

  /**
   * A window whose points are all present and none above the peak's
   * fluence integrates to at most the peak-uniform occupancy.
   */
  lemma IntegratedAtMostPeakUniform(m: FluenceMap, g: GridGeometry, p: Peak, xLen: real, yLen: real)
    requires g.xStep > 0.0 && g.yStep > 0.0 && xLen > 0.0 && yLen > 0.0
    requires var b := WindowAt(g, p, xLen, yLen).block;
      forall x, y :: b.x0 <= x < b.x0 + b.nx && b.y0 <= y < b.y0 + b.ny ==> Has(m, x, y) && Get(m, x, y) <= p.fluence
    ensures IntegratedOccupancy(m, g, Some(p), xLen, yLen).Ok?
    ensures IntegratedOccupancy(m, g, Some(p), xLen, yLen).value <= PeakUniformOccupancy(Some(p), xLen, yLen).value
  {
    var w := WindowAt(g, p, xLen, yLen);
    WindowComplete(m, w.block);
    IntegratedWindow(m, g, p, xLen, yLen);
    WindowHitsBounded(m, g, p, xLen, yLen, p.fluence);
  }

  /**
   * After a complete validation the peak is the maximum beyond the edge, so
   * a pad at the peak whose window stays inside the grid integrates to at
   * most its peak-uniform occupancy.
   */
  lemma ValidatedPeakBoundsIntegral(t: Option<Peak>, m: FluenceMap, e: int, nx: nat, ny: nat,
                                    g: GridGeometry, xLen: real, yLen: real)
    requires PeakOf(t, m, e, nx, 0, ny) && t.Some?
    requires FirstMissing(m, Block(0, nx, 0, ny), nx).None?
    requires g.xStep > 0.0 && g.yStep > 0.0 && xLen > 0.0 && yLen > 0.0
    requires var b := WindowAt(g, t.value, xLen, yLen).block;
      b.x0 + b.nx <= nx && 0 <= b.y0 && b.y0 + b.ny <= ny
    ensures IntegratedOccupancy(m, g, t, xLen, yLen).Ok?
    ensures IntegratedOccupancy(m, g, t, xLen, yLen).value <= PeakUniformOccupancy(t, xLen, yLen).value
  {
    var p := t.value;
    var b := WindowAt(g, p, xLen, yLen).block;
    FirstMissingSpec(m, Block(0, nx, 0, ny), nx);
    assert Visited(p.xIdx, p.yIdx, nx, 0, ny);
    forall x, y | b.x0 <= x < b.x0 + b.nx && b.y0 <= y < b.y0 + b.ny
      ensures Has(m, x, y) && Get(m, x, y) <= p.fluence
    {
      assert Visited(x, y, nx, 0, ny);
    }
    IntegratedAtMostPeakUniform(m, g, p, xLen, yLen);
  }

  /**
   * peakUniformPadOccupancy after a complete validation: nothing exactly
   * when the grid has no point at or beyond the edge column; otherwise no
   * point beyond the edge, spread uniformly over the same pad, gives more.
   */
  lemma PeakUniformIsGridMaximum(t: Option<Peak>, m: FluenceMap, e: int, nx: nat, ny: nat, xLen: real, yLen: real)
    requires PeakOf(t, m, e, nx, 0, ny) && xLen * yLen >= 0.0
    ensures PeakUniformOccupancy(t, xLen, yLen).None? <==> nx <= e || nx == 0 || ny == 0
    ensures PeakUniformOccupancy(t, xLen, yLen).Some? ==>
              forall x, y :: e <= x && 0 <= x < nx && 0 <= y < ny ==>
                PeakUniformOccupancy(Some(Peak(x, y, Get(m, x, y))), xLen, yLen).value
                  <= PeakUniformOccupancy(t, xLen, yLen).value
  {
    if t.None? {
      if !(nx <= e || nx == 0 || ny == 0) {
        var x := if e > 0 then e else 0;
        assert Visited(x, 0, nx, 0, ny);
      }
    } else {
      var p := t.value;
      forall x, y | e <= x && 0 <= x < nx && 0 <= y < ny
        ensures PadHits(Get(m, x, y), xLen, yLen) <= PadHits(p.fluence, xLen, yLen)
      {
        assert Visited(x, y, nx, 0, ny);
        PadHitsMonotone(Get(m, x, y), p.fluence, xLen, yLen);
      }
    }
  }

  /** The source's cell arithmetic: the shares of cell (x, y) inside the pad along each axis. */
  method CellContribution(g: GridGeometry, w: PadWindow, x: int, y: int) returns (contributionX: real, contributionY: real)
    requires g.xStep != 0.0 && g.yStep != 0.0
    ensures contributionX == XWeight(g, w, x) && contributionY == YWeight(g, w, y)
  {
    var xVal, yVal := g.xMin + x as real * g.xStep, g.yMin + y as real * g.yStep;
    var right := xVal + g.xStep / 2.0;
    var bottom, top := yVal - g.yStep / 2.0, yVal + g.yStep / 2.0;
    contributionX := 1.0;
    if right > w.rightPad {
      contributionX := contributionX - (right - w.rightPad) / g.xStep;
    }
    assert TopCut(g, w, y) == if top > w.topPad then (top - w.topPad) / g.yStep else 0.0;
    assert BottomCut(g, w, y) == if bottom < w.bottomPad then (w.bottomPad - bottom) / g.yStep else 0.0;
    contributionY := 1.0;
    if top > w.topPad {
      contributionY := contributionY - (top - w.topPad) / g.yStep;
    }
    if bottom < w.bottomPad {
      contributionY := contributionY - (w.bottomPad - bottom) / g.yStep;
    }
  }

  /** The window's term for column x is the weighted sum of its rows. */
  lemma ColumnTermAt(m: FluenceMap, g: GridGeometry, w: PadWindow, x: int)
    requires g.xStep != 0.0 && g.yStep != 0.0
    ensures ColumnTerms(m, XWeights(g, w), YWeights(g, w), w.block.y0, w.block.ny)(x)
         == RangeSum(CellTerms(m, x, XWeight(g, w, x), YWeights(g, w)), w.block.y0, w.block.ny)
  {
    assert XWeights(g, w)(x) == XWeight(g, w, x);
  }

  /** One row of a window column: adds the point's value times the cell's shares of the pad. */
  method AddCell(m: FluenceMap, g: GridGeometry, w: PadWindow, x: int, y0: int, yIdx: int, fluence: real)
    returns (fluence': real)
    requires g.xStep != 0.0 && g.yStep != 0.0 && y0 <= yIdx && Has(m, x, yIdx)
    requires FirstMissingRow(m, x, y0, yIdx - y0).None?
    requires fluence == RangeSum(CellTerms(m, x, XWeight(g, w, x), YWeights(g, w)), y0, yIdx - y0)
    ensures FirstMissingRow(m, x, y0, yIdx + 1 - y0).None?
    ensures fluence' == RangeSum(CellTerms(m, x, XWeight(g, w, x), YWeights(g, w)), y0, yIdx + 1 - y0)
  {
    var contributionX, contributionY := CellContribution(g, w, x, yIdx);
    var value := m.values[x][yIdx];
    CellTermAt(m, x, XWeight(g, w, x), YWeights(g, w), yIdx, value, contributionX, contributionY);
    RangeSumNext(CellTerms(m, x, XWeight(g, w, x), YWeights(g, w)), y0, yIdx, fluence, value * contributionX * contributionY);
    FirstMissingRowNext(m, x, y0, yIdx);
    fluence' := fluence + value * contributionX * contributionY;
  }

  /**
   * The rows of window column x in integratePadOccupancy, from minY to
   * maxY; stops at the first missing point.
   */
  method WindowColumn(m: FluenceMap, g: GridGeometry, w: PadWindow, x: int) returns (missing: Option<int>, fluence: real)
    requires g.xStep != 0.0 && g.yStep != 0.0
    ensures missing == FirstMissingRow(m, x, w.block.y0, w.block.ny)
    ensures missing.None? ==> fluence == RangeSum(CellTerms(m, x, XWeight(g, w, x), YWeights(g, w)), w.block.y0, w.block.ny)
  {
    fluence := 0.0;
    var yIdx := w.block.y0;
    while yIdx < w.block.y0 + w.block.ny
      invariant w.block.y0 <= yIdx <= w.block.y0 + w.block.ny
      invariant FirstMissingRow(m, x, w.block.y0, yIdx - w.block.y0).None?
      invariant fluence == RangeSum(CellTerms(m, x, XWeight(g, w, x), YWeights(g, w)), w.block.y0, yIdx - w.block.y0)
    {
      if !(x in m.values && yIdx in m.values[x]) {
        FirstMissingRowAt(m, x, w.block.y0, w.block.ny, yIdx);
        return Some(yIdx), fluence;
      }
      fluence := AddCell(m, g, w, x, w.block.y0, yIdx, fluence);
      yIdx := yIdx + 1;
    }
    missing := None;
  }

  /** A full column adds its weighted rows to the fluence of the columns before it. */
  lemma ColumnDone(m: FluenceMap, g: GridGeometry, w: PadWindow, xIdx: int, fluence: real, columnFluence: real)
    requires g.xStep != 0.0 && g.yStep != 0.0 && w.block.x0 <= xIdx
    requires FirstMissing(m, w.block, xIdx - w.block.x0).None? && FirstMissingRow(m, xIdx, w.block.y0, w.block.ny).None?
    requires fluence == RangeSum(ColumnTerms(m, XWeights(g, w), YWeights(g, w), w.block.y0, w.block.ny), w.block.x0, xIdx - w.block.x0)
    requires columnFluence == RangeSum(CellTerms(m, xIdx, XWeight(g, w, xIdx), YWeights(g, w)), w.block.y0, w.block.ny)
    ensures FirstMissing(m, w.block, xIdx + 1 - w.block.x0).None?
    ensures fluence + columnFluence
         == RangeSum(ColumnTerms(m, XWeights(g, w), YWeights(g, w), w.block.y0, w.block.ny), w.block.x0, xIdx + 1 - w.block.x0)
  {
    FirstMissingNext(m, w.block, xIdx);
    ColumnTermAt(m, g, w, xIdx);
    RangeSumNext(ColumnTerms(m, XWeights(g, w), YWeights(g, w), w.block.y0, w.block.ny), w.block.x0, xIdx, fluence, columnFluence);
  }

  /** One column of the window: its rows, added to the fluence so far unless a point is missing. */
  method AddColumn(m: FluenceMap, g: GridGeometry, w: PadWindow, xIdx: int, fluence: real)
    returns (row: Option<int>, fluence': real)
    requires g.xStep != 0.0 && g.yStep != 0.0 && w.block.x0 <= xIdx < w.block.x0 + w.block.nx
    requires FirstMissing(m, w.block, xIdx - w.block.x0).None?
    requires fluence == RangeSum(ColumnTerms(m, XWeights(g, w), YWeights(g, w), w.block.y0, w.block.ny), w.block.x0, xIdx - w.block.x0)
    ensures row.Some? ==> FirstMissing(m, w.block, w.block.nx) == Some((xIdx, row.value))
    ensures row.None? ==> FirstMissing(m, w.block, xIdx + 1 - w.block.x0).None?
    ensures row.None? ==> fluence' == RangeSum(ColumnTerms(m, XWeights(g, w), YWeights(g, w), w.block.y0, w.block.ny), w.block.x0, xIdx + 1 - w.block.x0)
  {
    var columnFluence;
    row, columnFluence := WindowColumn(m, g, w, xIdx);
    if row.Some? {
      FirstMissingAtColumn(m, w.block, xIdx, row.value);
    } else {
      ColumnDone(m, g, w, xIdx, fluence, columnFluence);
    }
    fluence' := fluence + columnFluence;
  }

  /** The columns of the window, from the peak column on; stops at the first missing point. */
  method SumWindow(m: FluenceMap, g: GridGeometry, w: PadWindow) returns (missing: Option<(int, int)>, fluence: real)
    requires g.xStep != 0.0 && g.yStep != 0.0
    ensures missing == FirstMissing(m, w.block, w.block.nx)
    ensures missing.None? ==> fluence == WindowFluence(m, g, w)
  {
    fluence := 0.0;
    var xIdx := w.block.x0;
    while xIdx < w.block.x0 + w.block.nx
      invariant w.block.x0 <= xIdx <= w.block.x0 + w.block.nx
      invariant FirstMissing(m, w.block, xIdx - w.block.x0).None?
      invariant fluence == RangeSum(ColumnTerms(m, XWeights(g, w), YWeights(g, w), w.block.y0, w.block.ny), w.block.x0, xIdx - w.block.x0)
    {
      var row;
      row, fluence := AddColumn(m, g, w, xIdx, fluence);
      if row.Some? {
        return Some((xIdx, row.value)), fluence;
      }
      xIdx := xIdx + 1;
    }
    missing := None;
  }

  /**
   * integratePadOccupancy on a loaded map: a zero step fails first (at the
   * bin counts), then a missing peak, then the first missing window point.
   */
  method IntegrateWindow(m: FluenceMap, g: GridGeometry, peak: Option<Peak>, xLen: real, yLen: real)
    returns (r: Result<real, HitmapError>)
    ensures r == IntegratedOccupancy(m, g, peak, xLen, yLen)
  {
    if g.xStep == 0.0 || g.yStep == 0.0 {
      return Err(DivisionByZero);
    }
    if peak.None? {
      return Err(NoPeak);
    }
    var w := WindowAt(g, peak.value, xLen, yLen);
    var missing, fluence := SumWindow(m, g, w);
    if missing.Some? {
      return Err(MissingSample(missing.value.0, missing.value.1));
    }
    r := Ok(fluence * HitsPerFluence * (g.xStep * g.yStep) * SquareCm);
    assert r.value == CellHits(fluence, g);
  }

  /** One pass of squarePadIntegrateScan's loop: the ibin-th pad size and its integrated occupancy. */
  method ScanPad(m: FluenceMap, g: GridGeometry, peak: Option<Peak>, bins: int, minPad: real, maxPad: real, ibin: int)
    returns (size: real, o: Result<real, HitmapError>)
    requires bins > 1
    ensures size == ScanSize(ibin, bins, minPad, maxPad)
    ensures o == IntegratedScanAt(m, g, peak, ibin, bins, minPad, maxPad)
  {
    var step := (maxPad - minPad) / (bins - 1) as real;
    size := ibin as real * step + minPad;
    o := IntegrateWindow(m, g, peak, size, size);
  }

  /**
   * The loop of squarePadIntegrateScan on a loaded map: each pad size in
   * turn, integrated; the first failure ends the scan with that failure.
   */
  method IntegrateScan(m: FluenceMap, g: GridGeometry, peak: Option<Peak>, bins: int, minPad: real, maxPad: real)
    returns (r: Result<(seq<real>, seq<real>), HitmapError>)
    requires bins > 1
    ensures r.Ok? <==> forall i :: 0 <= i < bins ==> IntegratedScanAt(m, g, peak, i, bins, minPad, maxPad).Ok?
    ensures r.Ok? ==>
              && |r.value.0| == bins && |r.value.1| == bins
              && forall i :: 0 <= i < bins ==>
                   && r.value.0[i] == ScanSize(i, bins, minPad, maxPad)
                   && r.value.1[i] == IntegratedScanAt(m, g, peak, i, bins, minPad, maxPad).value
    ensures r.Err? ==>
              exists i :: 0 <= i < bins && IntegratedScanAt(m, g, peak, i, bins, minPad, maxPad) == Err(r.error)
                          && forall j :: 0 <= j < i ==> IntegratedScanAt(m, g, peak, j, bins, minPad, maxPad).Ok?
  {
    var padSize: seq<real> := [];
    var occupancy: seq<real> := [];
    for ibin := 0 to bins
      invariant |padSize| == ibin && |occupancy| == ibin
      invariant forall i :: 0 <= i < ibin ==>
                  && padSize[i] == ScanSize(i, bins, minPad, maxPad)
                  && IntegratedScanAt(m, g, peak, i, bins, minPad, maxPad) == Ok(occupancy[i])
    {
      var size, o := ScanPad(m, g, peak, bins, minPad, maxPad, ibin);
      padSize := padSize + [size];
      if o.Err? {
        return Err(o.error);
      }
      occupancy := occupancy + [o.value];
    }
    r := Ok((padSize, occupancy));
  }

  // ---------------------------------------------------------------------
  // The grid object.

  class PPSHitmap {
    /** The lines of the fluence file. */
    const samples: seq<Sample>
    const physics: bool
    const calib: bool
    const xMin: real
    const xMax: real
    const xStep: real
    const yMin: real
    const yMax: real
    const yStep: real
    const betastar: real
    const addBackgroundFlux: Option<real>
    const nsigma: real
    const xmargin: real
    /** The approximate detector edge, in metres. */
    const detectorEdge: real

    /** The loaded grid; the source tests it against None before loading. */
    var fluenceMap: Option<FluenceMap>
    var validated: bool
    /**
     * Whether maxFluence and ridge exist: the constructor does not create
     * them, validate does, so reading them earlier raises AttributeError.
     */
    var scanned: bool
    var maxFluence: Option<Peak>
    var ridge: map<int, Peak>

    function Grid(): GridGeometry
    {
      GridGeometry(xMin, xStep, yMin, yStep)
    }

    /** int((detectorEdge - xMin)/xStep): the first column at or beyond the detector edge. */
    function EdgeIdx(): int
      requires xStep != 0.0
    {
      Trunc((detectorEdge - xMin) / xStep)
    }

    /** The number of columns validate scans. */
    function Columns(): nat
    {
      if xStep == 0.0 then 0 else var n := Trunc((xMax - xMin) / xStep); if n > 0 then n else 0
    }

    /** The number of rows of each column validate scans. */
    function RowCount(): nat
    {
      if yStep == 0.0 then 0 else var n := Trunc((yMax - yMin) / yStep); if n > 0 then n else 0
    }

    /** The whole grid, as validate scans it. */
    function GridBlock(): Block
    {
      Block(0, Columns(), 0, RowCount())
    }

    /** The error validate raises on the loaded map, if any. */
    function GridError(): Option<HitmapError>
      reads this
      requires fluenceMap.Some?
    {
      if xStep == 0.0 || (Columns() > 0 && yStep == 0.0) then Some(DivisionByZero)
      else
        var missing := FirstMissing(fluenceMap.value, GridBlock(), Columns());
        if missing.Some? then Some(MissingSample(missing.value.0, missing.value.1)) else None
    }

    constructor (samples: seq<Sample>, approximateDetectorEdge: real, physics: bool, calib: bool,
                 xMin: real, xMax: real, xStep: real, yMin: real, yMax: real, yStep: real,
                 betastar: real, addBackgroundFlux: Option<real>)
      requires betastar == SupportedBetastar && !(physics && calib)
      ensures this.samples == samples && this.physics == physics && this.calib == calib
      ensures this.xMin == xMin && this.xMax == xMax && this.xStep == xStep
      ensures this.yMin == yMin && this.yMax == yMax && this.yStep == yStep
      ensures this.betastar == betastar && this.addBackgroundFlux == addBackgroundFlux
      ensures fluenceMap == Some(Empty) && !validated && !scanned
      ensures nsigma == (if calib then CalibrationNSigma else PhysicsNSigma) && xmargin == XMargin
      ensures detectorEdge == approximateDetectorEdge / 1000.0
    {
      this.samples := samples;
      this.physics := physics;
      this.calib := calib;
      this.xMin, this.xMax, this.xStep := xMin, xMax, xStep;
      this.yMin, this.yMax, this.yStep := yMin, yMax, yStep;
      this.betastar := betastar;
      this.addBackgroundFlux := addBackgroundFlux;
      fluenceMap := Some(Empty);
      validated := false;
      nsigma := if calib then CalibrationNSigma else PhysicsNSigma;
      xmargin := XMargin;
      detectorEdge := approximateDetectorEdge / 1000.0;
      scanned := false;
    }

    /**
     * PPSHitmap(...): an unsupported betastar is refused first, then
     * physics and calibration together; otherwise the grid with an empty,
     * unvalidated map.
     */
    static method Create(samples: seq<Sample>, approximateDetectorEdge: real, physics: bool, calib: bool,
                         xMin: real, xMax: real, xStep: real, yMin: real, yMax: real, yStep: real,
                         betastar: real, addBackgroundFlux: Option<real>)
      returns (r: Result<PPSHitmap, HitmapError>)
      ensures betastar != SupportedBetastar ==> r == Err(BetastarNotImplemented)
      ensures betastar == SupportedBetastar && physics && calib ==> r == Err(PhysicsAndCalibration)
      ensures betastar == SupportedBetastar && !(physics && calib) ==>
                && r.Ok? && fresh(r.value) && r.value.betastar == betastar && !(r.value.physics && r.value.calib)
                && r.value.samples == samples && r.value.xStep == xStep && r.value.yStep == yStep
                && r.value.fluenceMap == Some(Empty) && !r.value.validated && !r.value.scanned
                && r.value.detectorEdge == approximateDetectorEdge / 1000.0
    {
      if betastar != SupportedBetastar {
        return Err(BetastarNotImplemented);
      }
      if physics && calib {
        return Err(PhysicsAndCalibration);
      }
      var h := new PPSHitmap(samples, approximateDetectorEdge, physics, calib,
                             xMin, xMax, xStep, yMin, yMax, yStep, betastar, addBackgroundFlux);
      r := Ok(h);
    }

    /** _loadMap: the map rebuilt from the file's samples, line by line. */
    method LoadMap()
      modifies this
      ensures fluenceMap == Some(Load(samples, addBackgroundFlux))
      ensures validated == old(validated) && scanned == old(scanned) && maxFluence == old(maxFluence) && ridge == old(ridge)
    {
      var m := LoadSamples(samples, addBackgroundFlux);
      fluenceMap := Some(m);
    }

    /** _checkMap: loads only when there is no map, which the constructor never leaves. */
    method CheckMap()
      modifies this
      ensures old(fluenceMap).Some? ==> fluenceMap == old(fluenceMap)
      ensures old(fluenceMap).None? ==> fluenceMap == Some(Load(samples, addBackgroundFlux))
      ensures validated == old(validated) && scanned == old(scanned) && maxFluence == old(maxFluence) && ridge == old(ridge)
    {
      if fluenceMap.None? {
        LoadMap();
      }
    }

    /** _freeMap: the map is emptied; nothing else changes. */
    method FreeMap()
      modifies this
      ensures fluenceMap == if old(fluenceMap).Some? then Some(Empty) else None
      ensures validated == old(validated) && scanned == old(scanned) && maxFluence == old(maxFluence) && ridge == old(ridge)
    {
      if fluenceMap.Some? {
        fluenceMap := Some(Empty);
      }
    }

    /**
     * validate: scans the grid row-major and stops at the first missing
     * point; meanwhile maxFluence tracks the peak beyond the detector edge
     * and ridge each column's top. Only a complete scan marks the grid
     * validated; an interrupted one leaves the records of the cells scanned
     * so far.
     */
    method Validate() returns (r: Result<(), HitmapError>)
      modifies this
      ensures old(fluenceMap).Some? ==> fluenceMap == old(fluenceMap)
      ensures old(fluenceMap).None? ==> fluenceMap == Some(Load(samples, addBackgroundFlux))
      ensures r.Err? <==> GridError().Some?
      ensures r.Err? ==> r.error == GridError().value && validated == old(validated)
      ensures r.Ok? ==> validated
      ensures xStep == 0.0 ==> scanned == old(scanned) && maxFluence == old(maxFluence) && ridge == old(ridge)
      ensures xStep != 0.0 ==> scanned
      ensures xStep != 0.0 && Columns() > 0 && yStep == 0.0 ==> maxFluence.None? && ridge == map[]
      ensures xStep != 0.0 && (Columns() == 0 || yStep != 0.0) ==>
                var m, missing := fluenceMap.value, FirstMissing(fluenceMap.value, GridBlock(), Columns());
                var (x, n) := if missing.Some? then missing.value else (Columns(), 0);
                PeakOf(maxFluence, m, EdgeIdx(), x, n, RowCount()) && RidgeOf(ridge, m, x, n, RowCount())
    {
      CheckMap();
      if xStep == 0.0 {
        return Err(DivisionByZero);
      }
      var edgeIdx := Trunc((detectorEdge - xMin) / xStep);
      maxFluence := None;
      ridge := map[];
      scanned := true;
      var columns := Trunc((xMax - xMin) / xStep);
      if columns > 0 && yStep == 0.0 {
        return Err(DivisionByZero);
      }
      var rows := if yStep == 0.0 then 0 else Trunc((yMax - yMin) / yStep);
      var missing;
      missing, maxFluence, ridge := ScanGrid(fluenceMap.value, edgeIdx, columns, if rows > 0 then rows else 0);
      if missing.Some? {
        return Err(MissingSample(missing.value.0, missing.value.1));
      }
      validated := true;
      r := Ok(());
    }

    /** _checkValid: validates only a grid not yet validated. */
    method CheckValid() returns (r: Result<(), HitmapError>)
      modifies this
      ensures old(validated) ==> r.Ok? && validated && unchanged(this)
      ensures !old(validated) && old(fluenceMap).Some? ==> fluenceMap == old(fluenceMap)
      ensures !old(validated) && old(fluenceMap).None? ==> fluenceMap == Some(Load(samples, addBackgroundFlux))
      ensures !old(validated) ==> (r.Err? <==> GridError().Some?)
      ensures !old(validated) && r.Err? ==> r.error == GridError().value && !validated
      ensures r.Ok? ==> validated
    {
      if !validated {
        r := Validate();
        if r.Err? {
          return r;
        }
      }
      r := Ok(());
    }

    /**
     * integratePadOccupancy: the fluence of the window at the peak, each
     * point weighted by the share of its cell inside the pad, as hits per
     * bunch crossing. Before validate, the read of maxFluence after the two
     * step divisions raises AttributeError.
     */
    method IntegratePadOccupancy(xLen: real, yLen: real) returns (r: Result<real, HitmapError>)
      modifies this
      ensures old(fluenceMap).Some? ==> fluenceMap == old(fluenceMap)
      ensures old(fluenceMap).None? ==> fluenceMap == Some(Load(samples, addBackgroundFlux))
      ensures validated == old(validated) && scanned == old(scanned) && maxFluence == old(maxFluence) && ridge == old(ridge)
      ensures !scanned && xStep != 0.0 && yStep != 0.0 ==> r == Err(MissingAttribute)
      ensures scanned || xStep == 0.0 || yStep == 0.0 ==>
                r == IntegratedOccupancy(fluenceMap.value, Grid(), maxFluence, xLen, yLen)
    {
      CheckMap();
      if !scanned && xStep != 0.0 && yStep != 0.0 {
        return Err(MissingAttribute);
      }
      r := IntegrateWindow(fluenceMap.value, Grid(), maxFluence, xLen, yLen);
    }

    /**
     * peakUniformPadOccupancy: the peak fluence spread over the pad, or
     * nothing when there is no peak; an AttributeError before validate has
     * created maxFluence.
     */
    method PeakUniformPadOccupancy(xLen: real, yLen: real) returns (r: Result<Option<real>, HitmapError>)
      ensures r.Err? <==> !scanned
      ensures r.Err? ==> r.error == MissingAttribute
      ensures scanned ==> r == Ok(PeakUniformOccupancy(maxFluence, xLen, yLen))
    {
      if !scanned {
        return Err(MissingAttribute);
      }
      if maxFluence.Some? {
        r := Ok(Some(PadHits(maxFluence.value.fluence, xLen, yLen)));
      } else {
        r := Ok(None);
      }
    }

    /**
     * squarePadPeakUniformScan: nothing for fewer than two bins (or a log
     * scan from zero); otherwise the bins square pad sizes from minPad to
     * maxPad and the peak-uniform occupancy of each, which fails at the
     * first size when validate has not run.
     */
    method SquarePadPeakUniformScan(bins: int, minPad: real, maxPad: real, doLog: bool)
      returns (r: Result<Option<(seq<real>, seq<Option<real>>)>, HitmapError>)
      requires doLog ==> minPad == 0.0
      ensures bins <= 1 || doLog ==> r == Ok(None)
      ensures bins > 1 && !doLog && !scanned ==> r == Err(MissingAttribute)
      ensures bins > 1 && !doLog && scanned ==>
                && r.Ok? && r.value.Some?
                && |r.value.value.0| == bins && |r.value.value.1| == bins
                && forall i :: 0 <= i < bins ==>
                     && r.value.value.0[i] == ScanSize(i, bins, minPad, maxPad)
                     && r.value.value.1[i] == PeakUniformOccupancy(maxFluence, r.value.value.0[i], r.value.value.0[i])
    {
      if bins <= 1 {
        return Ok(None);
      }
      if doLog && minPad == 0.0 {
        return Ok(None);
      }
      var padSize: seq<real> := [];
      var occupancy: seq<Option<real>> := [];
      var step := (maxPad - minPad) / (bins - 1) as real;
      for ibin := 0 to bins
        invariant |padSize| == ibin && |occupancy| == ibin
        invariant scanned || ibin == 0
        invariant forall i :: 0 <= i < ibin ==>
                    padSize[i] == ScanSize(i, bins, minPad, maxPad)
                    && occupancy[i] == PeakUniformOccupancy(maxFluence, padSize[i], padSize[i])
      {
        padSize := padSize + [ibin as real * step + minPad];
        var o := PeakUniformPadOccupancy(padSize[ibin], padSize[ibin]);
        if o.Err? {
          return Err(o.error);
        }
        occupancy := occupancy + [o.value];
      }
      r := Ok(Some((padSize, occupancy)));
    }

    /**
     * squarePadIntegrateScan: the same sizes, each with its integrated
     * occupancy; the first size whose integration fails ends the scan with
     * that failure, which before validate is the read of maxFluence unless
     * a step is zero.
     */
    method SquarePadIntegrateScan(bins: int, minPad: real, maxPad: real, doLog: bool)
      returns (r: Result<Option<(seq<real>, seq<real>)>, HitmapError>)
      requires doLog ==> minPad == 0.0
      modifies this
      ensures bins <= 1 || doLog ==> r == Ok(None) && unchanged(this)
      ensures validated == old(validated) && scanned == old(scanned) && maxFluence == old(maxFluence) && ridge == old(ridge)
      ensures bins > 1 && !doLog ==>
                && (old(fluenceMap).Some? ==> fluenceMap == old(fluenceMap))
                && (old(fluenceMap).None? ==> fluenceMap == Some(Load(samples, addBackgroundFlux)))
      ensures bins > 1 && !doLog && !scanned && xStep != 0.0 && yStep != 0.0 ==> r == Err(MissingAttribute)
      ensures bins > 1 && !doLog && (scanned || xStep == 0.0 || yStep == 0.0) ==>
                var m := fluenceMap.value;
                && (r.Ok? <==> forall i :: 0 <= i < bins ==> IntegratedScanAt(m, Grid(), maxFluence, i, bins, minPad, maxPad).Ok?)
                && (r.Ok? ==>
                      && r.value.Some? && |r.value.value.0| == bins && |r.value.value.1| == bins
                      && forall i :: 0 <= i < bins ==>
                           && r.value.value.0[i] == ScanSize(i, bins, minPad, maxPad)
                           && r.value.value.1[i] == IntegratedScanAt(m, Grid(), maxFluence, i, bins, minPad, maxPad).value)
                && (r.Err? ==>
                      exists i :: 0 <= i < bins && IntegratedScanAt(m, Grid(), maxFluence, i, bins, minPad, maxPad) == Err(r.error)
                                  && forall j :: 0 <= j < i ==> IntegratedScanAt(m, Grid(), maxFluence, j, bins, minPad, maxPad).Ok?)
    {
      if bins <= 1 {
        return Ok(None);
      }
      if doLog && minPad == 0.0 {
        return Ok(None);
      }
      CheckMap();
      if !scanned && xStep != 0.0 && yStep != 0.0 {
        return Err(MissingAttribute);
      }
      var scan := IntegrateScan(fluenceMap.value, Grid(), maxFluence, bins, minPad, maxPad);
      if scan.Err? {
        return Err(scan.error);
      }
      r := Ok(Some(scan.value));
    }
  }
}