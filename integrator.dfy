/**
 * The pad-flux integrator of SensorPad.calculateFlux / calculatepartialFlux:
 * for one rectangle (a pad's core or margin rectangle, already moved by an
 * epoch's offset) it walks every stored grid cell in dictionary order and
 * accumulates the overlap-weighted flux, the peak cell value and the list of
 * contributing cells. The grid is in metres, pads in millimetres: cell
 * centres and edges are multiplied by 1000 before they are compared.
 *
 * The walk over one column is a fold of `Step` over the column's cell views
 * (`View`); the fold is stated for any view function, so that its properties
 * are proved once, apart from the arithmetic of the geometry.
 */
module Integrator {
  import opened Wrappers
  import opened Overlap
  import opened FluenceMaps

  /** Where the grid's samples sit: sample (i, j) at (xMin + i*xStep, yMin + j*yStep), in metres. */
  datatype GridGeometry = GridGeometry(xMin: real, xStep: real, yMin: real, yStep: real)

  /** A grid whose steps are positive. */
  type Geometry = g: GridGeometry | g.xStep > 0.0 && g.yStep > 0.0
    witness GridGeometry(0.0, 1.0, 0.0, 1.0)

  /** Fluence per fb^-1 to hits per bunch crossing. */
  const HitsPerFluence: real := 1.6e-12
  /** Square metres to square centimetres. */
  const SquareCm: real := 1.0e4

  /** Area of one grid cell in cm^2. */
  function OccupancyNorm(g: Geometry): real
  {
    g.xStep * g.yStep * SquareCm
  }

  /** Cell centres and edges in millimetres. */
  function CentreX(g: Geometry, xIdx: int): real { (g.xMin + xIdx as real * g.xStep) * 1000.0 }
  function CentreY(g: Geometry, yIdx: int): real { (g.yMin + yIdx as real * g.yStep) * 1000.0 }
  function Left(g: Geometry, xIdx: int): real { CentreX(g, xIdx) - g.xStep * 1000.0 / 2.0 }
  function Right(g: Geometry, xIdx: int): real { CentreX(g, xIdx) + g.xStep * 1000.0 / 2.0 }
  function Bottom(g: Geometry, yIdx: int): real { CentreY(g, yIdx) - g.yStep * 1000.0 / 2.0 }
  function Top(g: Geometry, yIdx: int): real { CentreY(g, yIdx) + g.yStep * 1000.0 / 2.0 }

  predicate SkippedX(r: Rect, g: Geometry, xIdx: int) { Skipped(Left(g, xIdx), Right(g, xIdx), r.minX, r.maxX) }
  predicate SkippedY(r: Rect, g: Geometry, yIdx: int) { Skipped(Bottom(g, yIdx), Top(g, yIdx), r.minY, r.maxY) }

  function ContributionX(r: Rect, g: Geometry, xIdx: int): real
  {
    AxisContribution(Left(g, xIdx), Right(g, xIdx), r.minX, r.maxX, g.xStep * 1000.0)
  }

  function ContributionY(r: Rect, g: Geometry, yIdx: int): real
  {
    AxisContribution(Bottom(g, yIdx), Top(g, yIdx), r.minY, r.maxY, g.yStep * 1000.0)
  }

  /**
   * One contributing cell: its flux, its centre, and its centre and edges
   * relative to the centre of the rectangle it was integrated against.
   */
  datatype Point = Point(
    flux: real, x: real, y: real,
    xLocal: real, yLocal: real,
    leftLocal: real, rightLocal: real, topLocal: real, bottomLocal: real)

  /** The per-epoch dose record. */
  datatype Dose = Dose(
    totalFlux: real, maxFlux: Option<real>, occupancyNorm: real, occupancy: real,
    fluxMap: seq<Point>)

  /** The running totals of one integration. */
  datatype Acc = Acc(flux: real, maxFlux: Option<real>, fluxMap: seq<Point>)

  const Start: Acc := Acc(0.0, None, [])

  function CellPoint(r: Rect, g: Geometry, xIdx: int, yIdx: int, flux: real): Point
  {
    var cx := (r.minX + r.maxX) / 2.0;
    var cy := (r.minY + r.maxY) / 2.0;
    Point(flux, CentreX(g, xIdx), CentreY(g, yIdx),
          CentreX(g, xIdx) - cx, CentreY(g, yIdx) - cy,
          Left(g, xIdx) - cx, Right(g, xIdx) - cx, Top(g, yIdx) - cy, Bottom(g, yIdx) - cy)
  }

  /**
   * What the integrator sees of one cell of a column: whether the cell lies
   * inside the rectangle on y, its stored value, the flux it adds and the
   * point it appends.
   */
  datatype CellView = CellView(inside: bool, value: real, flux: real, point: Point)

  /** Cell (x, y) weighted by `scale`: value * cx * cy * scale, point flux value * scale. */
  function View(r: Rect, g: Geometry, m: FluenceMap, x: int, y: int, scale: real): CellView
  {
    var v := Get(m, x, y);
    CellView(!SkippedY(r, g, y), v, v * ContributionX(r, g, x) * ContributionY(r, g, y) * scale,
             CellPoint(r, g, x, y, v * scale))
  }

  function ColumnView(r: Rect, g: Geometry, m: FluenceMap, x: int, scale: real): int -> CellView
  {
    y => View(r, g, m, x, y, scale)
  }

  /**
   * Visiting one cell: a cell outside on y changes nothing; otherwise the
   * flux grows by the cell's flux, the peak becomes the cell's value if it is
   * the first or strictly larger, and the cell's point is appended.
   */
  function Step(acc: Acc, c: CellView): Acc
  {
    if !c.inside then acc
    else
      Acc(acc.flux + c.flux,
          if acc.maxFlux.None? || c.value > acc.maxFlux.value then Some(c.value) else acc.maxFlux,
          acc.fluxMap + [c.point])
  }

  /** The cells ys of one column, visited in order. */
  function ColumnAcc(acc: Acc, view: int -> CellView, ys: seq<int>): Acc
    decreases |ys|
  {
    if ys == [] then acc
    else Step(ColumnAcc(acc, view, ys[..|ys| - 1]), view(ys[|ys| - 1]))
  }

  /** The columns xs visited in order; a column outside the rectangle on x is passed over. */
  function GridAcc(r: Rect, g: Geometry, m: FluenceMap, xs: seq<int>, scale: real): Acc
    decreases |xs|
  {
    if xs == [] then Start
    else
      var acc := GridAcc(r, g, m, xs[..|xs| - 1], scale);
      var x := xs[|xs| - 1];
      if SkippedX(r, g, x) then acc else ColumnAcc(acc, ColumnView(r, g, m, x, scale), Rows(m, x))
  }

  /** The whole grid integrated against r. */
  function Integral(r: Rect, g: Geometry, m: FluenceMap, scale: real): Acc
  {
    GridAcc(r, g, m, m.xOrder, scale)
  }

  /** The dose record of one integration: occupancy = flux * 1.6e-12 * cell area in cm^2. */
  function MakeDose(acc: Acc, g: Geometry): (d: Dose)
    ensures d.totalFlux == acc.flux && d.maxFlux == acc.maxFlux && d.fluxMap == acc.fluxMap
    ensures d.occupancyNorm == g.xStep * g.yStep * 1.0e4
    ensures d.occupancy == d.totalFlux * 1.6e-12 * d.occupancyNorm
  {
    Dose(acc.flux, acc.maxFlux, OccupancyNorm(g), acc.flux * HitsPerFluence * OccupancyNorm(g), acc.fluxMap)
  }

  // ---------------------------------------------------------------------
  // The loops of calculateFlux for one rectangle.

  /**
   * Columns in dictionary order; a column outside the rectangle on x is
   * passed over, the others are handed to the row loop.
   */
  method IntegrateRect(r: Rect, g: Geometry, m: FluenceMap, scale: real) returns (acc: Acc)
    ensures acc == Integral(r, g, m, scale)
  {
    acc := Start;
    var i := 0;
    while i < |m.xOrder|
      invariant 0 <= i <= |m.xOrder|
      invariant acc == GridAcc(r, g, m, m.xOrder[..i], scale)
    {
      var x := m.xOrder[i];
      assert m.xOrder[..i + 1][..i] == m.xOrder[..i];
      var left := Left(g, x);
      var right := Right(g, x);
      var inSensitiveArea := !((left < r.minX && right < r.minX) || (left > r.maxX && right > r.maxX));
      if inSensitiveArea {
        acc := IntegrateColumn(acc, r, g, m, x, scale);
      }
      i := i + 1;
    }
    assert m.xOrder[..|m.xOrder|] == m.xOrder;
  }

  /** The row loop over column x, rows in dictionary order. */
  method IntegrateColumn(acc0: Acc, r: Rect, g: Geometry, m: FluenceMap, x: int, scale: real) returns (acc: Acc)
    ensures acc == ColumnAcc(acc0, ColumnView(r, g, m, x, scale), Rows(m, x))
  {
    var contributionX := ContributionX(r, g, x);
    var ys := Rows(m, x);
    acc := acc0;
    var j := 0;
    while j < |ys|
      invariant 0 <= j <= |ys|
      invariant acc == ColumnAcc(acc0, ColumnView(r, g, m, x, scale), ys[..j])
    {
      assert ys[..j + 1][..j] == ys[..j];
      acc := VisitCell(acc, r, g, m, x, contributionX, ys[j], scale);
      j := j + 1;
    }
    assert ys[..|ys|] == ys;
  }

  /**
   * The body of the row loop: a cell outside the rectangle on y is passed
   * over; otherwise its weighted flux is added, the peak updated and the
   * cell's point appended.
   */
  method VisitCell(acc: Acc, r: Rect, g: Geometry, m: FluenceMap, x: int, contributionX: real, y: int, scale: real)
    returns (acc': Acc)
    requires contributionX == ContributionX(r, g, x)
    ensures acc' == Step(acc, View(r, g, m, x, y, scale))
  {
    var bottom := Bottom(g, y);
    var top := Top(g, y);
    var inSensitiveAreaY := !((bottom < r.minY && top < r.minY) || (bottom > r.maxY && top > r.maxY));
    ghost var c := View(r, g, m, x, y, scale);
    if !inSensitiveAreaY {
      assert !c.inside;
      return acc;
    }
    assert c.inside;
    var contributionY := ContributionY(r, g, y);
    var v := Get(m, x, y);
    assert v == c.value;
    var maxFlux := acc.maxFlux;
    if maxFlux.None? || v > maxFlux.value {
      maxFlux := Some(v);
    }
    var point := CellPoint(r, g, x, y, v * scale);
    assert point == c.point;
    var cellFlux := v * contributionX * contributionY * scale;
    assert cellFlux == c.flux;
    acc' := Acc(acc.flux + cellFlux, maxFlux, acc.fluxMap + [point]);
  }

  // ---------------------------------------------------------------------
  // Sums over a column, for any term function.

  function Sum(ys: seq<int>, f: int -> real): real
    decreases |ys|
  {
    if ys == [] then 0.0 else Sum(ys[..|ys| - 1], f) + f(ys[|ys| - 1])
  }

  lemma {:induction false} SumPointwise(ys: seq<int>, f: int -> real, h: int -> real)
    requires forall y :: f(y) == h(y)
    ensures Sum(ys, f) == Sum(ys, h)
    decreases |ys|
  {
    if ys != [] {
      SumPointwise(ys[..|ys| - 1], f, h);
    }
  }

  lemma {:induction false} SumMonotone(ys: seq<int>, f: int -> real, h: int -> real)
    requires forall y :: f(y) <= h(y)
    ensures Sum(ys, f) <= Sum(ys, h)
    decreases |ys|
  {
    if ys != [] {
      SumMonotone(ys[..|ys| - 1], f, h);
    }
  }

  lemma {:induction false} SumOfZeros(ys: seq<int>, f: int -> real)
    requires forall y :: f(y) == 0.0
    ensures Sum(ys, f) == 0.0
    decreases |ys|
  {
    if ys != [] {
      SumOfZeros(ys[..|ys| - 1], f);
    }
  }

  /** The flux a view adds: its flux when inside, nothing otherwise. */
  function Added(view: int -> CellView): int -> real
  {
    y => if view(y).inside then view(y).flux else 0.0
  }

  /** Folding a column adds exactly the sum of the flux its inside cells carry. */
  lemma {:induction false} ColumnFlux(acc: Acc, view: int -> CellView, ys: seq<int>)
    ensures ColumnAcc(acc, view, ys).flux == acc.flux + Sum(ys, Added(view))
    decreases |ys|
  {
    if ys != [] {
      ColumnFlux(acc, view, ys[..|ys| - 1]);
    }
  }

  // ---------------------------------------------------------------------
  // A reference definition: the overlap sum over every stored cell.

  /** The fraction of cell column x inside [r.minX, r.maxX]. */
  function FractionX(r: Rect, g: Geometry, xIdx: int): real
  {
    ClippedOverlap(Left(g, xIdx), Right(g, xIdx), r.minX, r.maxX) / (g.xStep * 1000.0)
  }

  function FractionY(r: Rect, g: Geometry, yIdx: int): real
  {
    ClippedOverlap(Bottom(g, yIdx), Top(g, yIdx), r.minY, r.maxY) / (g.yStep * 1000.0)
  }

  /** value * (fractions of the cell inside the rectangle) * scale, for the cells of column x. */
  function OverlapTerm(r: Rect, g: Geometry, m: FluenceMap, x: int, scale: real): int -> real
  {
    y => Get(m, x, y) * FractionX(r, g, x) * FractionY(r, g, y) * scale
  }

  /** Sum of the overlap terms over every stored cell of the columns xs. */
  function OverlapSum(r: Rect, g: Geometry, m: FluenceMap, xs: seq<int>, scale: real): real
    decreases |xs|
  {
    if xs == [] then 0.0
    else
      var x := xs[|xs| - 1];
      OverlapSum(r, g, m, xs[..|xs| - 1], scale) + Sum(Rows(m, x), OverlapTerm(r, g, m, x, scale))
  }

  lemma CellWidths(g: Geometry, xIdx: int, yIdx: int)
    ensures Right(g, xIdx) - Left(g, xIdx) == g.xStep * 1000.0
    ensures Top(g, yIdx) - Bottom(g, yIdx) == g.yStep * 1000.0
  {
  }

  /** Per axis, the integrator's contribution is the clipped overlap fraction. */
  lemma ContributionsAreFractions(r: Rect, g: Geometry, x: int, y: int)
    requires WellFormed(r)
    ensures ContributionX(r, g, x) == FractionX(r, g, x)
    ensures ContributionY(r, g, y) == FractionY(r, g, y)
  {
    CellWidths(g, x, y);
    ContributionIsClippedOverlap(Left(g, x), Right(g, x), r.minX, r.maxX, g.xStep * 1000.0);
    ContributionIsClippedOverlap(Bottom(g, y), Top(g, y), r.minY, r.maxY, g.yStep * 1000.0);
  }

  lemma ZeroFactor(v: real, a: real, b: real, s: real)
    requires a == 0.0
    ensures v * b * a * s == 0.0 && v * a * b * s == 0.0
  {
  }

  /** What a cell of column x adds to the integrator's flux. */
  function CellFlux(r: Rect, g: Geometry, m: FluenceMap, x: int, y: int, scale: real): real
  {
    if SkippedY(r, g, y) then 0.0 else Get(m, x, y) * ContributionX(r, g, x) * ContributionY(r, g, y) * scale
  }

  lemma AddedIsCellFlux(r: Rect, g: Geometry, m: FluenceMap, x: int, y: int, scale: real)
    ensures Added(ColumnView(r, g, m, x, scale))(y) == CellFlux(r, g, m, x, y, scale)
  {
    var c := View(r, g, m, x, y, scale);
    var cx, cy, v := ContributionX(r, g, x), ContributionY(r, g, y), Get(m, x, y);
    assert c.inside == !SkippedY(r, g, y);
    assert c.flux == v * cx * cy * scale;
    assert CellFlux(r, g, m, x, y, scale) == if SkippedY(r, g, y) then 0.0 else v * cx * cy * scale;
    assert Added(ColumnView(r, g, m, x, scale))(y) == if c.inside then c.flux else 0.0;
  }

  lemma CellFluxIsOverlapTerm(r: Rect, g: Geometry, m: FluenceMap, x: int, y: int, scale: real)
    requires WellFormed(r)
    ensures CellFlux(r, g, m, x, y, scale) == OverlapTerm(r, g, m, x, scale)(y)
  {
    ContributionsAreFractions(r, g, x, y);
    if SkippedY(r, g, y) {
      CellWidths(g, x, y);
      SkippedHasNoOverlap(Bottom(g, y), Top(g, y), r.minY, r.maxY);
      ZeroFactor(Get(m, x, y), FractionY(r, g, y), FractionX(r, g, x), scale);
    }
  }

  lemma CellAddsOverlapTerm(r: Rect, g: Geometry, m: FluenceMap, x: int, y: int, scale: real)
    requires WellFormed(r)
    ensures Added(ColumnView(r, g, m, x, scale))(y) == OverlapTerm(r, g, m, x, scale)(y)
  {
    AddedIsCellFlux(r, g, m, x, y, scale);
    CellFluxIsOverlapTerm(r, g, m, x, y, scale);
  }

  lemma CellOutsideOnX(r: Rect, g: Geometry, m: FluenceMap, x: int, y: int, scale: real)
    requires WellFormed(r) && SkippedX(r, g, x)
    ensures OverlapTerm(r, g, m, x, scale)(y) == 0.0
  {
    CellWidths(g, x, y);
    SkippedHasNoOverlap(Left(g, x), Right(g, x), r.minX, r.maxX);
    ZeroFactor(Get(m, x, y), FractionX(r, g, x), FractionY(r, g, y), scale);
  }

  /**
   * The integrator's total flux is the plain overlap sum over every stored
   * cell: passing over cells outside the rectangle changes nothing.
   */
  lemma {:induction false} FluxIsOverlapSum(r: Rect, g: Geometry, m: FluenceMap, xs: seq<int>, scale: real)
    requires WellFormed(r)
    ensures GridAcc(r, g, m, xs, scale).flux == OverlapSum(r, g, m, xs, scale)
    decreases |xs|
  {
    if xs != [] {
      var x := xs[|xs| - 1];
      var prev := GridAcc(r, g, m, xs[..|xs| - 1], scale);
      FluxIsOverlapSum(r, g, m, xs[..|xs| - 1], scale);
      if SkippedX(r, g, x) {
        forall y ensures OverlapTerm(r, g, m, x, scale)(y) == 0.0 {
          CellOutsideOnX(r, g, m, x, y, scale);
        }
        SumOfZeros(Rows(m, x), OverlapTerm(r, g, m, x, scale));
      } else {
        forall y ensures Added(ColumnView(r, g, m, x, scale))(y) == OverlapTerm(r, g, m, x, scale)(y) {
          CellAddsOverlapTerm(r, g, m, x, y, scale);
        }
        SumPointwise(Rows(m, x), Added(ColumnView(r, g, m, x, scale)), OverlapTerm(r, g, m, x, scale));
        ColumnFlux(prev, ColumnView(r, g, m, x, scale), Rows(m, x));
      }
    }
  }

  // ---------------------------------------------------------------------
  // Margin monotonicity.

  lemma FractionsMonotone(r: Rect, r': Rect, g: Geometry, x: int, y: int)
    requires WellFormed(r) && Contains(r', r)
    ensures 0.0 <= FractionX(r, g, x) <= FractionX(r', g, x)
    ensures 0.0 <= FractionY(r, g, y) <= FractionY(r', g, y)
  {
    CellWidths(g, x, y);
    ContributionsAreFractions(r, g, x, y);
    ContributionsAreFractions(r', g, x, y);
    ContributionMonotone(Left(g, x), Right(g, x), r.minX, r.maxX, r'.minX, r'.maxX, g.xStep * 1000.0);
    ContributionMonotone(Bottom(g, y), Top(g, y), r.minY, r.maxY, r'.minY, r'.maxY, g.yStep * 1000.0);
    ContributionInUnit(Left(g, x), Right(g, x), r.minX, r.maxX, g.xStep * 1000.0);
    ContributionInUnit(Bottom(g, y), Top(g, y), r.minY, r.maxY, g.yStep * 1000.0);
  }

  lemma ProductMonotone(v: real, a: real, a': real, b: real, b': real, s: real)
    requires v >= 0.0 && s >= 0.0 && 0.0 <= a <= a' && 0.0 <= b <= b'
    ensures v * a * b * s <= v * a' * b' * s
  {
    assert a * b <= a' * b;
    assert a' * b <= a' * b';
    assert v * (a * b) <= v * (a' * b');
    assert (v * (a * b)) * s <= (v * (a' * b')) * s;
  }

  lemma CellMonotone(r: Rect, r': Rect, g: Geometry, m: FluenceMap, x: int, y: int, scale: real)
    requires WellFormed(r) && Contains(r', r)
    requires NonNegative(m) && scale >= 0.0
    ensures OverlapTerm(r, g, m, x, scale)(y) <= OverlapTerm(r', g, m, x, scale)(y)
  {
    FractionsMonotone(r, r', g, x, y);
    assert Get(m, x, y) >= 0.0;
    ProductMonotone(Get(m, x, y), FractionX(r, g, x), FractionX(r', g, x), FractionY(r, g, y), FractionY(r', g, y), scale);
  }

  lemma {:induction false} OverlapSumMonotone(r: Rect, r': Rect, g: Geometry, m: FluenceMap, xs: seq<int>, scale: real)
    requires WellFormed(r) && Contains(r', r)
    requires NonNegative(m) && scale >= 0.0
    ensures OverlapSum(r, g, m, xs, scale) <= OverlapSum(r', g, m, xs, scale)
    decreases |xs|
  {
    if xs != [] {
      var x := xs[|xs| - 1];
      OverlapSumMonotone(r, r', g, m, xs[..|xs| - 1], scale);
      forall y ensures OverlapTerm(r, g, m, x, scale)(y) <= OverlapTerm(r', g, m, x, scale)(y) {
        CellMonotone(r, r', g, m, x, y, scale);
      }
      SumMonotone(Rows(m, x), OverlapTerm(r, g, m, x, scale), OverlapTerm(r', g, m, x, scale));
    }
  }

  /**
   * For a grid of non-negative samples, the margin rectangle (the core
   * inflated by extra >= 0) collects at least the core rectangle's flux.
   */
  lemma MarginFluxDominates(r: Rect, extra: real, g: Geometry, m: FluenceMap, scale: real)
    requires WellFormed(r) && extra >= 0.0
    requires NonNegative(m) && scale >= 0.0
    ensures Integral(r, g, m, scale).flux <= Integral(Inflate(r, extra), g, m, scale).flux
  {
    FluxIsOverlapSum(r, g, m, m.xOrder, scale);
    FluxIsOverlapSum(Inflate(r, extra), g, m, m.xOrder, scale);
    OverlapSumMonotone(r, Inflate(r, extra), g, m, m.xOrder, scale);
  }

  // ---------------------------------------------------------------------
  // Weighting the last epoch (calculatepartialFlux).

  /** acc' is acc with its flux and every point's flux multiplied by s, its peak unchanged. */
  ghost predicate ScaledBy(acc': Acc, acc: Acc, s: real)
  {
    && acc'.flux == s * acc.flux
    && acc'.maxFlux == acc.maxFlux
    && |acc'.fluxMap| == |acc.fluxMap|
    && forall i :: 0 <= i < |acc.fluxMap| ==> acc'.fluxMap[i] == acc.fluxMap[i].(flux := s * acc.fluxMap[i].flux)
  }

  /** Cell view c' is c with its flux and its point's flux multiplied by s. */
  predicate ViewScaled(c': CellView, c: CellView, s: real)
  {
    c' == c.(flux := s * c.flux, point := c.point.(flux := s * c.point.flux))
  }

  lemma Distribute(a: real, b: real, s: real)
    ensures s * a + s * b == s * (a + b)
  {
  }

  lemma StepScaled(accS: Acc, acc1: Acc, cS: CellView, c1: CellView, s: real)
    requires ScaledBy(accS, acc1, s) && ViewScaled(cS, c1, s)
    ensures ScaledBy(Step(accS, cS), Step(acc1, c1), s)
  {
    if c1.inside {
      Distribute(acc1.flux, c1.flux, s);
      var a, b := Step(accS, cS), Step(acc1, c1);
      forall i | 0 <= i < |b.fluxMap| ensures a.fluxMap[i] == b.fluxMap[i].(flux := s * b.fluxMap[i].flux) {
        if i < |acc1.fluxMap| {
          assert a.fluxMap[i] == accS.fluxMap[i] && b.fluxMap[i] == acc1.fluxMap[i];
        }
      }
    }
  }

  lemma {:induction false} ColumnScaled(accS: Acc, acc1: Acc, viewS: int -> CellView, view1: int -> CellView, ys: seq<int>, s: real)
    requires ScaledBy(accS, acc1, s)
    requires forall y :: ViewScaled(viewS(y), view1(y), s)
    ensures ScaledBy(ColumnAcc(accS, viewS, ys), ColumnAcc(acc1, view1, ys), s)
    decreases |ys|
  {
    if ys != [] {
      var ys', y := ys[..|ys| - 1], ys[|ys| - 1];
      ColumnScaled(accS, acc1, viewS, view1, ys', s);
      StepScaled(ColumnAcc(accS, viewS, ys'), ColumnAcc(acc1, view1, ys'), viewS(y), view1(y), s);
    }
  }

  lemma CellScaled(r: Rect, g: Geometry, m: FluenceMap, x: int, y: int, s: real)
    ensures ViewScaled(View(r, g, m, x, y, s), View(r, g, m, x, y, 1.0), s)
  {
    var v, cx, cy := Get(m, x, y), ContributionX(r, g, x), ContributionY(r, g, y);
    assert v * cx * cy * s == s * (v * cx * cy * 1.0);
    assert v * s == s * (v * 1.0);
  }

  lemma {:induction false} GridScaled(r: Rect, g: Geometry, m: FluenceMap, xs: seq<int>, s: real)
    ensures ScaledBy(GridAcc(r, g, m, xs, s), GridAcc(r, g, m, xs, 1.0), s)
    decreases |xs|
  {
    if xs != [] {
      var x := xs[|xs| - 1];
      GridScaled(r, g, m, xs[..|xs| - 1], s);
      if !SkippedX(r, g, x) {
        forall y ensures ViewScaled(ColumnView(r, g, m, x, s)(y), ColumnView(r, g, m, x, 1.0)(y), s) {
          CellScaled(r, g, m, x, y, s);
        }
        ColumnScaled(GridAcc(r, g, m, xs[..|xs| - 1], s), GridAcc(r, g, m, xs[..|xs| - 1], 1.0),
                     ColumnView(r, g, m, x, s), ColumnView(r, g, m, x, 1.0), Rows(m, x), s);
      }
    }
  }

  /**
   * Integrating with weight s is integrating with weight 1 and multiplying
   * the total flux and every cell's flux by s; the peak value is not scaled
   * and the cells and their places are the same.
   */
  lemma IntegralScaled(r: Rect, g: Geometry, m: FluenceMap, s: real)
    ensures Integral(r, g, m, s).flux == s * Integral(r, g, m, 1.0).flux
    ensures Integral(r, g, m, s).maxFlux == Integral(r, g, m, 1.0).maxFlux
    ensures |Integral(r, g, m, s).fluxMap| == |Integral(r, g, m, 1.0).fluxMap|
    ensures forall i :: 0 <= i < |Integral(r, g, m, s).fluxMap| ==>
              Integral(r, g, m, s).fluxMap[i] ==
              Integral(r, g, m, 1.0).fluxMap[i].(flux := s * Integral(r, g, m, 1.0).fluxMap[i].flux)
  {
    GridScaled(r, g, m, m.xOrder, s);
  }

  // ---------------------------------------------------------------------
  // The peak cell value.

  /**
   * The running peak: None exactly while no cell was appended, otherwise the
   * value of an appended cell that is at least every appended cell's value,
   * where the points carry values times the weight s.
   */
  ghost predicate PeakInvariant(acc: Acc, s: real)
  {
    && (acc.maxFlux.None? <==> acc.fluxMap == [])
    && (acc.maxFlux.Some? ==>
          && (exists i :: 0 <= i < |acc.fluxMap| && acc.fluxMap[i].flux == acc.maxFlux.value * s)
          && (forall i :: 0 <= i < |acc.fluxMap| ==> acc.fluxMap[i].flux <= acc.maxFlux.value * s))
  }

  lemma MulLe(a: real, b: real, s: real)
    requires a <= b && s >= 0.0
    ensures a * s <= b * s
  {
  }

  /** Every value in fm, and the appended one, is at most v * s. */
  lemma PeakBound(fm: seq<Point>, p: Point, v: real, s: real)
    requires forall i :: 0 <= i < |fm| ==> fm[i].flux <= v * s
    requires p.flux <= v * s
    ensures forall i :: 0 <= i < |fm + [p]| ==> (fm + [p])[i].flux <= v * s
  {
    forall i | 0 <= i < |fm + [p]| ensures (fm + [p])[i].flux <= v * s {
      if i < |fm| {
        assert (fm + [p])[i] == fm[i];
      }
    }
  }

  /** A cell larger than the peak so far becomes the peak. */
  lemma NewPeak(acc: Acc, c: CellView, s: real)
    requires s >= 0.0 && PeakInvariant(acc, s) && c.point.flux == c.value * s
    requires acc.maxFlux.None? || c.value > acc.maxFlux.value
    ensures forall i :: 0 <= i < |acc.fluxMap + [c.point]| ==> (acc.fluxMap + [c.point])[i].flux <= c.value * s
  {
    if acc.maxFlux.Some? {
      MulLe(acc.maxFlux.value, c.value, s);
    }
    PeakBound(acc.fluxMap, c.point, c.value, s);
  }

  /** A cell no larger than the peak so far leaves it the peak. */
  lemma KeptPeak(acc: Acc, c: CellView, s: real)
    requires s >= 0.0 && PeakInvariant(acc, s) && c.point.flux == c.value * s
    requires acc.maxFlux.Some? && c.value <= acc.maxFlux.value
    ensures forall i :: 0 <= i < |acc.fluxMap + [c.point]| ==> (acc.fluxMap + [c.point])[i].flux <= acc.maxFlux.value * s
  {
    MulLe(c.value, acc.maxFlux.value, s);
    PeakBound(acc.fluxMap, c.point, acc.maxFlux.value, s);
  }

  lemma StepPeak(acc: Acc, c: CellView, s: real)
    requires s >= 0.0 && PeakInvariant(acc, s) && c.point.flux == c.value * s
    ensures PeakInvariant(Step(acc, c), s)
  {
    if c.inside {
      var fm := acc.fluxMap + [c.point];
      var n := |acc.fluxMap|;
      assert fm[n] == c.point;
      if acc.maxFlux.None? || c.value > acc.maxFlux.value {
        NewPeak(acc, c, s);
        assert Step(acc, c) == Acc(acc.flux + c.flux, Some(c.value), fm);
      } else {
        KeptPeak(acc, c, s);
        var k :| 0 <= k < n && acc.fluxMap[k].flux == acc.maxFlux.value * s;
        assert fm[k] == acc.fluxMap[k];
        assert Step(acc, c) == Acc(acc.flux + c.flux, acc.maxFlux, fm);
      }
    }
  }


  lemma {:induction false} ColumnPeak(acc: Acc, view: int -> CellView, ys: seq<int>, s: real)
    requires s >= 0.0 && PeakInvariant(acc, s)
    requires forall y :: view(y).point.flux == view(y).value * s
    ensures PeakInvariant(ColumnAcc(acc, view, ys), s)
    decreases |ys|
  {
    if ys != [] {
      ColumnPeak(acc, view, ys[..|ys| - 1], s);
      StepPeak(ColumnAcc(acc, view, ys[..|ys| - 1]), view(ys[|ys| - 1]), s);
    }
  }

  lemma {:induction false} GridPeak(r: Rect, g: Geometry, m: FluenceMap, xs: seq<int>, s: real)
    requires s >= 0.0
    ensures PeakInvariant(GridAcc(r, g, m, xs, s), s)
    decreases |xs|
  {
    if xs != [] {
      var x := xs[|xs| - 1];
      GridPeak(r, g, m, xs[..|xs| - 1], s);
      if !SkippedX(r, g, x) {
        ColumnPeak(GridAcc(r, g, m, xs[..|xs| - 1], s), ColumnView(r, g, m, x, s), Rows(m, x), s);
      }
    }
  }

  /**
   * With weight 1, the recorded peak is None exactly when no cell
   * contributed, and otherwise the largest flux among the contributing cells.
   */
  lemma PeakIsLargestContribution(r: Rect, g: Geometry, m: FluenceMap)
    ensures var a := Integral(r, g, m, 1.0);
      && (a.maxFlux.None? <==> a.fluxMap == [])
      && (a.maxFlux.Some? ==>
            && (exists i :: 0 <= i < |a.fluxMap| && a.fluxMap[i].flux == a.maxFlux.value)
            && (forall i :: 0 <= i < |a.fluxMap| ==> a.fluxMap[i].flux <= a.maxFlux.value))
  {
    GridPeak(r, g, m, m.xOrder, 1.0);
  }
}
