/**
 * The end-of-life dose raster of a pad (the numbers SensorPad.plotDoseEOL
 * feeds to its histogram) and the bias-voltage window scan over it
 * (SensorPad.getVoltageEOL).
 *
 * Bin edges come from the contributing cells of every epoch, merged with
 * the 1e-6 threshold; each raster cell takes, from every epoch, the flux of
 * the first contributing cell whose interior holds the raster cell's centre,
 * times the luminosity of one epoch.
 */
module DoseEol {
  import opened Wrappers
  import opened Overlap
  import opened Integrator
  import opened Edges

  datatype EolError = NoEpochs   // integratedLuminosity / epochs with epochs == 0

  /** Bin edges and contents; isEmpty marks the single empty bin used when there are too few edges. */
  datatype Raster = Raster(edgesX: seq<real>, edgesY: seq<real>, cells: seq<seq<real>>, isEmpty: bool)

  /** The rectangle moved so that its centre is the origin. */
  function Centred(r: Rect): (c: Rect)
    ensures c.maxX - c.minX == r.maxX - r.minX && c.maxY - c.minY == r.maxY - r.minY
    ensures c.minX + c.maxX == 0.0 && c.minY + c.maxY == 0.0
  {
    var medX := (r.minX + r.maxX) / 2.0;
    var medY := (r.minY + r.maxY) / 2.0;
    Rect(r.minX - medX, r.maxX - medX, r.minY - medY, r.maxY - medY)
  }

  // ---------------------------------------------------------------------
  // Edges.

  /** `if e not in edges: edges += [e]` */
  function AddNew(s: seq<real>, e: real): seq<real>
  {
    if e in s then s else s + [e]
  }

  /** The distinct left and right edges of the points, in order of first appearance. */
  function CollectX(points: seq<Point>): seq<real>
    decreases |points|
  {
    if points == [] then []
    else
      var p := points[|points| - 1];
      AddNew(AddNew(CollectX(points[..|points| - 1]), p.leftLocal), p.rightLocal)
  }

  /** The distinct top and bottom edges of the points, in order of first appearance. */
  function CollectY(points: seq<Point>): seq<real>
    decreases |points|
  {
    if points == [] then []
    else
      var p := points[|points| - 1];
      AddNew(AddNew(CollectY(points[..|points| - 1]), p.topLocal), p.bottomLocal)
  }

  predicate NoDuplicates(s: seq<real>)
  {
    forall i, j :: 0 <= i < j < |s| ==> s[i] != s[j]
  }

  lemma AddNewKeeps(s: seq<real>, e: real)
    requires NoDuplicates(s)
    ensures NoDuplicates(AddNew(s, e))
    ensures forall x :: x in AddNew(s, e) <==> x in s || x == e
  {
  }

  /** The collected edges are exactly the points' x edges, each once. */
  lemma {:induction false} CollectXIsEdgeSet(points: seq<Point>)
    ensures NoDuplicates(CollectX(points))
    ensures forall x :: x in CollectX(points) <==>
              exists i :: 0 <= i < |points| && (x == points[i].leftLocal || x == points[i].rightLocal)
    decreases |points|
  {
    if points != [] {
      var front := points[..|points| - 1];
      var p := points[|points| - 1];
      CollectXIsEdgeSet(front);
      AddNewKeeps(CollectX(front), p.leftLocal);
      AddNewKeeps(AddNew(CollectX(front), p.leftLocal), p.rightLocal);
      forall x ensures x in CollectX(points) <==>
          exists i :: 0 <= i < |points| && (x == points[i].leftLocal || x == points[i].rightLocal)
      {
        if x in CollectX(front) {
          var i :| 0 <= i < |front| && (x == front[i].leftLocal || x == front[i].rightLocal);
          assert points[i] == front[i];
        }
        if exists i :: 0 <= i < |points| && (x == points[i].leftLocal || x == points[i].rightLocal) {
          var i :| 0 <= i < |points| && (x == points[i].leftLocal || x == points[i].rightLocal);
          if i < |front| {
            assert front[i] == points[i];
          }
        }
      }
    }
  }

  /** One epoch's x and y edges: collected, sorted and merged. */
  function EpochEdgesX(points: seq<Point>): seq<real>
  {
    Clean(Sort(CollectX(points)), DefaultThreshold)
  }

  function EpochEdgesY(points: seq<Point>): seq<real>
  {
    Clean(Sort(CollectY(points)), DefaultThreshold)
  }

  /** The merged edges of each epoch, in epoch order. */
  function EdgeListsX(doses: seq<Dose>): seq<seq<real>>
    decreases |doses|
  {
    if doses == [] then [] else EdgeListsX(doses[..|doses| - 1]) + [EpochEdgesX(doses[|doses| - 1].fluxMap)]
  }

  function EdgeListsY(doses: seq<Dose>): seq<seq<real>>
    decreases |doses|
  {
    if doses == [] then [] else EdgeListsY(doses[..|doses| - 1]) + [EpochEdgesY(doses[|doses| - 1].fluxMap)]
  }

  /** The raster's x and y edges: every epoch's edges summarised. */
  function MergedX(doses: seq<Dose>): seq<real>
  {
    Clean(Sort(Concat(EdgeListsX(doses))), DefaultThreshold)
  }

  function MergedY(doses: seq<Dose>): seq<real>
  {
    Clean(Sort(Concat(EdgeListsY(doses))), DefaultThreshold)
  }

  /** The edge-collection loop over one epoch's points. */
  method EpochEdges(points: seq<Point>) returns (xEdges: seq<real>, yEdges: seq<real>)
    ensures xEdges == EpochEdgesX(points) && yEdges == EpochEdgesY(points)
  {
    xEdges, yEdges := [], [];
    for i := 0 to |points|
      invariant xEdges == CollectX(points[..i]) && yEdges == CollectY(points[..i])
    {
      assert points[..i + 1][..i] == points[..i];
      var point := points[i];
      if point.leftLocal !in xEdges {
        xEdges := xEdges + [point.leftLocal];
      }
      if point.rightLocal !in xEdges {
        xEdges := xEdges + [point.rightLocal];
      }
      if point.topLocal !in yEdges {
        yEdges := yEdges + [point.topLocal];
      }
      if point.bottomLocal !in yEdges {
        yEdges := yEdges + [point.bottomLocal];
      }
    }
    assert points[..|points|] == points;
    xEdges := Sort(xEdges);
    yEdges := Sort(yEdges);
    xEdges := CleanEdges(xEdges, DefaultThreshold);
    yEdges := CleanEdges(yEdges, DefaultThreshold);
  }

  /** Every epoch's edges, then the summaries of all of them. */
  method RasterEdges(doses: seq<Dose>) returns (edgesX: seq<real>, edgesY: seq<real>)
    ensures edgesX == MergedX(doses) && edgesY == MergedY(doses)
  {
    var listsX, listsY := EpochEdgeLists(doses);
    edgesX := SummariseEdges(listsX, DefaultThreshold);
    edgesY := SummariseEdges(listsY, DefaultThreshold);
  }

  /** The per-epoch loop gathering each epoch's merged edges. */
  method EpochEdgeLists(doses: seq<Dose>) returns (listsX: seq<seq<real>>, listsY: seq<seq<real>>)
    ensures listsX == EdgeListsX(doses) && listsY == EdgeListsY(doses)
  {
    listsX, listsY := [], [];
    for e := 0 to |doses|
      invariant listsX == EdgeListsX(doses[..e]) && listsY == EdgeListsY(doses[..e])
    {
      assert doses[..e + 1][..e] == doses[..e];
      var xEdges, yEdges := EpochEdges(doses[e].fluxMap);
      listsX := listsX + [xEdges];
      listsY := listsY + [yEdges];
    }
    assert doses[..|doses|] == doses;
  }

  // ---------------------------------------------------------------------
  // Cell doses.

  /** The point's cell holds (px, py) strictly inside. */
  predicate Covers(p: Point, px: real, py: real)
  {
    px > p.leftLocal && px < p.rightLocal && py > p.bottomLocal && py < p.topLocal
  }

  /** Index of the first point whose cell holds (px, py), if any. */
  function FirstCovering(points: seq<Point>, px: real, py: real): (r: Option<nat>)
    ensures r.Some? ==>
              r.value < |points| && Covers(points[r.value], px, py) &&
              forall i :: 0 <= i < r.value ==> !Covers(points[i], px, py)
    ensures r.None? ==> forall i :: 0 <= i < |points| ==> !Covers(points[i], px, py)
    decreases |points|
  {
    if points == [] then None
    else if Covers(points[0], px, py) then Some(0)
    else
      var rest := FirstCovering(points[1..], px, py);
      if rest.Some? then Some(rest.value + 1) else None
  }

  /** What one epoch gives the raster cell centred at (px, py), before the luminosity weight. */
  function EpochHit(points: seq<Point>, px: real, py: real): real
  {
    var i := FirstCovering(points, px, py);
    if i.Some? then points[i.value].flux else 0.0
  }

  /** The dose of the raster cell centred at (px, py): each epoch's hit times the epoch luminosity. */
  function CellDose(doses: seq<Dose>, px: real, py: real, epochLumi: real): real
    decreases |doses|
  {
    if doses == [] then 0.0
    else CellDose(doses[..|doses| - 1], px, py, epochLumi) + EpochHit(doses[|doses| - 1].fluxMap, px, py) * epochLumi
  }

  /** The scan for the first point holding (px, py); the source leaves this loop with `break`. */
  method FindCovering(points: seq<Point>, px: real, py: real) returns (r: Option<nat>)
    ensures r == FirstCovering(points, px, py)
  {
    for i := 0 to |points|
      invariant forall k :: 0 <= k < i ==> !Covers(points[k], px, py)
    {
      var point := points[i];
      if px > point.leftLocal && px < point.rightLocal && py > point.bottomLocal && py < point.topLocal {
        return Some(i);
      }
    }
    return None;
  }

  /** The dose sum of one raster cell over the epochs. */
  method DoseAt(doses: seq<Dose>, px: real, py: real, epochLumi: real) returns (dose: real)
    ensures dose == CellDose(doses, px, py, epochLumi)
  {
    dose := 0.0;
    for e := 0 to |doses|
      invariant dose == CellDose(doses[..e], px, py, epochLumi)
    {
      assert doses[..e + 1][..e] == doses[..e];
      var points := doses[e].fluxMap;
      var hit := FindCovering(points, px, py);
      if hit.Some? {
        dose := dose + points[hit.value].flux * epochLumi;
      }
    }
    assert doses[..|doses|] == doses;
  }

  /** Non-negative point fluxes and luminosity give a non-negative cell dose. */
  lemma {:induction false} CellDoseNonNegative(doses: seq<Dose>, px: real, py: real, epochLumi: real)
    requires epochLumi >= 0.0
    requires forall e, i :: 0 <= e < |doses| && 0 <= i < |doses[e].fluxMap| ==> doses[e].fluxMap[i].flux >= 0.0
    ensures CellDose(doses, px, py, epochLumi) >= 0.0
    decreases |doses|
  {
    if doses != [] {
      var front := doses[..|doses| - 1];
      forall e, i | 0 <= e < |front| && 0 <= i < |front[e].fluxMap| ensures front[e].fluxMap[i].flux >= 0.0 {
        assert front[e] == doses[e];
      }
      CellDoseNonNegative(front, px, py, epochLumi);
      assert EpochHit(doses[|doses| - 1].fluxMap, px, py) >= 0.0;
    }
  }

  /** A centre that no point of any epoch holds gets no dose. */
  lemma {:induction false} UncoveredCellIsEmpty(doses: seq<Dose>, px: real, py: real, epochLumi: real)
    requires forall e, i :: 0 <= e < |doses| && 0 <= i < |doses[e].fluxMap| ==> !Covers(doses[e].fluxMap[i], px, py)
    ensures CellDose(doses, px, py, epochLumi) == 0.0
    decreases |doses|
  {
    if doses != [] {
      var front := doses[..|doses| - 1];
      forall e, i | 0 <= e < |front| && 0 <= i < |front[e].fluxMap| ensures !Covers(front[e].fluxMap[i], px, py) {
        assert front[e] == doses[e];
      }
      UncoveredCellIsEmpty(front, px, py, epochLumi);
      var last := doses[|doses| - 1].fluxMap;
      assert FirstCovering(last, px, py).None?;
    }
  }

  // ---------------------------------------------------------------------
  // The raster.

  /** Centre of bin b between edges e[b] and e[b + 1]. */
  function Mid(e: seq<real>, b: nat): real
    requires b + 1 < |e|
  {
    (e[b] + e[b + 1]) / 2.0
  }

  /** One raster column: the bins of x bin xBin along y. */
  ghost predicate ColumnDoses(col: seq<real>, doses: seq<Dose>, px: real, edgesY: seq<real>, epochLumi: real)
    requires |edgesY| >= 1
  {
    |col| == |edgesY| - 1 &&
    forall yBin :: 0 <= yBin < |col| ==> col[yBin] == CellDose(doses, px, Mid(edgesY, yBin), epochLumi)
  }

  /** Every bin of the raster holds the dose of its centre. */
  ghost predicate RasterDoses(cells: seq<seq<real>>, doses: seq<Dose>, edgesX: seq<real>, edgesY: seq<real>, epochLumi: real)
    requires |edgesX| >= 1 && |edgesY| >= 1
  {
    |cells| == |edgesX| - 1 &&
    forall xBin :: 0 <= xBin < |cells| ==> ColumnDoses(cells[xBin], doses, Mid(edgesX, xBin), edgesY, epochLumi)
  }

  /** The bin loops of plotDoseEOL. */
  method FillRaster(doses: seq<Dose>, edgesX: seq<real>, edgesY: seq<real>, epochLumi: real) returns (cells: seq<seq<real>>)
    requires |edgesX| >= 2 && |edgesY| >= 2
    ensures RasterDoses(cells, doses, edgesX, edgesY, epochLumi)
  {
    cells := [];
    for binX := 0 to |edgesX| - 1
      invariant |cells| == binX
      invariant forall xBin :: 0 <= xBin < binX ==> ColumnDoses(cells[xBin], doses, Mid(edgesX, xBin), edgesY, epochLumi)
    {
      var binXPos := (edgesX[binX] + edgesX[binX + 1]) / 2.0;
      var col: seq<real> := [];
      for binY := 0 to |edgesY| - 1
        invariant |col| == binY
        invariant forall yBin :: 0 <= yBin < binY ==> col[yBin] == CellDose(doses, binXPos, Mid(edgesY, yBin), epochLumi)
      {
        var binYPos := (edgesY[binY] + edgesY[binY + 1]) / 2.0;
        var dose := DoseAt(doses, binXPos, binYPos, epochLumi);
        col := col + [dose];
      }
      cells := cells + [col];
    }
  }

  /** The dose of every bin: bin (xBin, yBin) holds the dose of its centre. */
  function Cells(doses: seq<Dose>, edgesX: seq<real>, edgesY: seq<real>, epochLumi: real): seq<seq<real>>
    requires |edgesX| >= 1 && |edgesY| >= 1
  {
    seq(|edgesX| - 1, xBin requires 0 <= xBin < |edgesX| - 1 =>
      seq(|edgesY| - 1, yBin requires 0 <= yBin < |edgesY| - 1 =>
        CellDose(doses, Mid(edgesX, xBin), Mid(edgesY, yBin), epochLumi)))
  }

  lemma RasterDosesAreCells(cells: seq<seq<real>>, doses: seq<Dose>, edgesX: seq<real>, edgesY: seq<real>, epochLumi: real)
    requires |edgesX| >= 1 && |edgesY| >= 1
    requires RasterDoses(cells, doses, edgesX, edgesY, epochLumi)
    ensures cells == Cells(doses, edgesX, edgesY, epochLumi)
  {
    var expected := Cells(doses, edgesX, edgesY, epochLumi);
    forall xBin | 0 <= xBin < |cells| ensures cells[xBin] == expected[xBin] {
      assert ColumnDoses(cells[xBin], doses, Mid(edgesX, xBin), edgesY, epochLumi);
    }
  }

  lemma CellsAreRasterDoses(doses: seq<Dose>, edgesX: seq<real>, edgesY: seq<real>, epochLumi: real)
    requires |edgesX| >= 2 && |edgesY| >= 2
    ensures RasterDoses(Cells(doses, edgesX, edgesY, epochLumi), doses, edgesX, edgesY, epochLumi)
    ensures forall xBin :: 0 <= xBin < |edgesX| - 1 ==> |Cells(doses, edgesX, edgesY, epochLumi)[xBin]| > 0
  {
  }

  /**
   * What plotDoseEOL puts in its histogram for the given doses and pad
   * rectangle: an error when there are no epochs (the epoch luminosity
   * divides by zero); one empty bin covering the centred rectangle when
   * either axis has fewer than two merged edges; otherwise the merged
   * edges and every bin's dose.
   */
  function DoseRasterOf(doses: seq<Dose>, epochs: int, rect: Rect, lumi: real): Result<Raster, EolError>
  {
    if epochs == 0 then Err(NoEpochs)
    else
      var c := Centred(rect);
      var ex, ey := MergedX(doses), MergedY(doses);
      if |ex| <= 1 || |ey| <= 1 then Ok(Raster([c.minX, c.maxX], [c.minY, c.maxY], [[0.0]], true))
      else Ok(Raster(ex, ey, Cells(doses, ex, ey, lumi / epochs as real), false))
  }

  method DoseRaster(doses: seq<Dose>, epochs: int, rect: Rect, lumi: real) returns (r: Result<Raster, EolError>)
    ensures r == DoseRasterOf(doses, epochs, rect, lumi)
  {
    if epochs == 0 {
      return Err(NoEpochs);
    }
    var epochLumi := lumi / epochs as real;
    var c := Centred(rect);
    var edgesX, edgesY := RasterEdges(doses);
    if |edgesX| <= 1 || |edgesY| <= 1 {
      return Ok(Raster([c.minX, c.maxX], [c.minY, c.maxY], [[0.0]], true));
    }
    var cells := FillRaster(doses, edgesX, edgesY, epochLumi);
    RasterDosesAreCells(cells, doses, edgesX, edgesY, epochLumi);
    r := Ok(Raster(edgesX, edgesY, cells, false));
  }

  /**
   * Without epochs there is no raster. Otherwise its edges are strictly
   * ascending, its bins form a grid of at least one bin, every bin holds
   * the dose of its centre, and a raster with too few merged edges is one
   * empty bin spanning the centred rectangle.
   */
  lemma RasterShape(doses: seq<Dose>, epochs: int, rect: Rect, lumi: real)
    ensures var r := DoseRasterOf(doses, epochs, rect, lumi);
      && (r.Err? <==> epochs == 0)
      && (r.Ok? && r.value.isEmpty ==>
            && r.value.cells == [[0.0]]
            && r.value.edgesX == [Centred(rect).minX, Centred(rect).maxX]
            && r.value.edgesY == [Centred(rect).minY, Centred(rect).maxY])
      && (r.Ok? && !r.value.isEmpty ==>
            && StrictlyIncreasing(r.value.edgesX) && StrictlyIncreasing(r.value.edgesY)
            && |r.value.edgesX| >= 2 && |r.value.edgesY| >= 2
            && RasterDoses(r.value.cells, doses, r.value.edgesX, r.value.edgesY, lumi / epochs as real))
      && (r.Ok? ==> |r.value.cells| > 0 && forall xBin :: 0 <= xBin < |r.value.cells| ==> |r.value.cells[xBin]| > 0)
  {
    if epochs != 0 {
      var ex, ey := MergedX(doses), MergedY(doses);
      if |ex| > 1 && |ey| > 1 {
        assert DoseRasterOf(doses, epochs, rect, lumi) == Ok(Raster(ex, ey, Cells(doses, ex, ey, lumi / epochs as real), false));
        SummaryProperties(EdgeListsX(doses), DefaultThreshold);
        SummaryProperties(EdgeListsY(doses), DefaultThreshold);
        CellsAreRasterDoses(doses, ex, ey, lumi / epochs as real);
      }
    }
  }

  // ---------------------------------------------------------------------
  // Reading the raster.

  /** The bin contents, x bin by x bin. */
  function Flatten(cells: seq<seq<real>>): seq<real>
    decreases |cells|
  {
    if cells == [] then [] else Flatten(cells[..|cells| - 1]) + cells[|cells| - 1]
  }

  lemma {:induction false} FlattenHolds(cells: seq<seq<real>>, xBin: nat, yBin: nat)
    requires xBin < |cells| && yBin < |cells[xBin]|
    ensures cells[xBin][yBin] in Flatten(cells)
    decreases |cells|
  {
    var front := cells[..|cells| - 1];
    if xBin < |cells| - 1 {
      assert front[xBin] == cells[xBin];
      FlattenHolds(front, xBin, yBin);
    } else {
      assert Flatten(cells) == Flatten(front) + cells[xBin];
      assert Flatten(cells)[|Flatten(front)| + yBin] == cells[xBin][yBin];
    }
  }

  /** The largest element of a non-empty sequence. */
  function MaxOf(s: seq<real>): (m: real)
    requires |s| > 0
    ensures m in s
    ensures forall i :: 0 <= i < |s| ==> s[i] <= m
    decreases |s|
  {
    if |s| == 1 then s[0]
    else
      var m' := MaxOf(s[..|s| - 1]);
      if s[|s| - 1] > m' then s[|s| - 1] else m'
  }

  /**
   * maxDoseEOL: the content of the fullest bin of the raster; every bin
   * holds at most that much and some bin holds exactly that much.
   */
  function MaxDose(r: Raster): real
    requires |r.cells| > 0 && |r.cells[0]| > 0
  {
    FlattenHolds(r.cells, 0, 0);
    MaxOf(Flatten(r.cells))
  }

  lemma MaxDoseBounds(r: Raster, xBin: nat, yBin: nat)
    requires |r.cells| > 0 && |r.cells[0]| > 0
    requires xBin < |r.cells| && yBin < |r.cells[xBin]|
    ensures r.cells[xBin][yBin] <= MaxDose(r)
    ensures MaxDose(r) in Flatten(r.cells)
  {
    FlattenHolds(r.cells, xBin, yBin);
  }

  /** maxDoseEOL of a pad: the fullest bin of its raster, or the raster's error. */
  function EolMaxDose(doses: seq<Dose>, epochs: int, rect: Rect, lumi: real): Result<real, EolError>
  {
    var r := DoseRasterOf(doses, epochs, rect, lumi);
    if r.Err? then Err(r.error)
    else
      RasterShape(doses, epochs, rect, lumi);
      Ok(MaxDose(r.value))
  }

  /** The maximum dose fails exactly without epochs; otherwise it bounds every bin and is some bin's dose. */
  lemma EolMaxDoseIsFullestBin(doses: seq<Dose>, epochs: int, rect: Rect, lumi: real)
    ensures var m := EolMaxDose(doses, epochs, rect, lumi);
      var r := DoseRasterOf(doses, epochs, rect, lumi);
      && (m.Err? <==> epochs == 0)
      && (m.Ok? ==> forall xBin, yBin :: 0 <= xBin < |r.value.cells| && 0 <= yBin < |r.value.cells[xBin]| ==>
                      r.value.cells[xBin][yBin] <= m.value)
      && (m.Ok? ==> m.value in Flatten(r.value.cells))
  {
    var r := DoseRasterOf(doses, epochs, rect, lumi);
    RasterShape(doses, epochs, rect, lumi);
    if r.Ok? {
      forall xBin, yBin | 0 <= xBin < |r.value.cells| && 0 <= yBin < |r.value.cells[xBin]|
        ensures r.value.cells[xBin][yBin] <= MaxDose(r.value)
      {
        MaxDoseBounds(r.value, xBin, yBin);
      }
      MaxDoseBounds(r.value, 0, 0);
    }
  }
}
