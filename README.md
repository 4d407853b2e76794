# pps_hitmaps in Dafny

A model of the core of `pps_hitmaps`. This package estimates the dose and
occupancy of timing-detector pads placed near the beam in the PPS stations.
It works from a fluence grid of one station.

## What is modelled

The model has five parts.

- **The fluence grid (`PPSHitmap`).** It holds:
  - the grid's samples, keyed by integer grid indices;
  - the check that every grid point is present;
  - the search for the peak cell beyond the detector edge, and for each column's ridge;
  - two occupancy estimates of a pad placed at the peak: peak-uniform, and integrated over the cells the pad overlaps;
  - the linear pad-size scans of both estimates.
- **A pad (`SensorPad`).** It is a core rectangle plus that rectangle inflated by the inter-pad margin. For every epoch, the pad is moved by that epoch's shift. The grid's cells are then integrated against both rectangles, weighted by their overlap, for all shifts or for the fraction of shifts that a luminosity covers. From the dose records, the model computes:
  - the end-of-life dose raster, with bin edges merged from the contributing cells;
  - its largest bin;
  - the bias-voltage window a charge function allows.
- **A sensor (`Sensor`).** It holds a list of pads, the shifts, and the bounds. The model covers setting the shifts, calculating every pad's flux, each epoch's largest occupancy, and the largest end-of-life dose.
- **The validated attributes (`ClassFields`).** A setter checks the Python type, and for some fields the sign, before storing a value. Otherwise it raises `ValueError`.
- **The preset sensors (`CustomizedSensors`).** These are the simple and realistic ETL sensors, the eleven PPS hybrid layouts and the three TI production layouts. Each preset is given as a list of blocks of pads. One method builds the `Sensor` with its `SensorPad` objects.

## How it is modelled

**Stateful parts.** The grid, a pad, a sensor and a validated-attribute holder are classes. Their methods change fields in place, just as the source's objects do. Each method is proved against a function of its inputs and old state. The properties the source promises are proved as lemmas about those functions.

**Numbers.** Lengths and fluences are exact reals. Python's `int()` truncates toward zero and `math.ceil` rounds up; both are written out.

**Inputs.** The fluence file is given to the grid as a sequence of `(xIdx, yIdx, value)` samples. The charge function is a parameter of the voltage scan.

**Modules.**
- `Wrappers`: Option and Result.
- `FluenceMaps`: the dictionary of dictionaries, in insertion order.
- `Overlap`: rectangles and the per-axis overlap rule.
- `Integrator`: the per-epoch pad integration.
- `Hitmaps`: the grid.
- `Edges`: bin-edge merging.
- `DoseEol`: the dose raster.
- `Voltage`: the voltage window.
- `Pads`: `SensorPad`.
- `Sensors`: `Sensor`.
- `ClassFields`: the validated attributes.
- `Presets`: the preset sensors.

## Model

| member | source | states |
|---|---|---|
| FluenceMaps.PutSpec | pps_hitmaps/PPSHitmap.py:150-153 | Storing a sample makes it readable at its point. Every other point keeps its presence and value. A new x key is appended to the key order, and an existing one keeps its place. |
| FluenceMaps.LoadSamples | pps_hitmaps/PPSHitmap.py:143-155 | The line-by-line loop builds exactly the map `Load` describes. |
| FluenceMaps.LoadLastWins | pps_hitmaps/PPSHitmap.py:150-155 | A point is present iff some sample names it. Its value is the last such sample's value plus the background flux, if one is set. |
| FluenceMaps.LoadNonNegative | pps_hitmaps/PPSHitmap.py:143-155 | Non-negative samples and background give a map with no negative value. |
| FluenceMaps.LastValueFromSamples | pps_hitmaps/PPSHitmap.py:153 | The value kept for a point is the value of some sample of that point. |
| Hitmaps.Trunc | pps_hitmaps/PPSHitmap.py:66 | `int()` of a float truncates toward zero: the floor for non-negative numbers, the ceiling for negative ones. |
| Hitmaps.Ceil | pps_hitmaps/PPSHitmap.py:214-215 | `ceil` gives the least integer not below its argument. |
| Hitmaps.FirstMissingRowSpec | pps_hitmaps/PPSHitmap.py:71-75 | The first row of a column without an entry, with every earlier row present; none iff the whole column is present. |
| Hitmaps.FirstMissingSpec | pps_hitmaps/PPSHitmap.py:69-75 | The first missing grid point in scan order (column by column, row by row), with every earlier point present; none iff the whole block is present. |
| Hitmaps.FirstMissingStable | pps_hitmaps/PPSHitmap.py:69-75 | Once a missing point is found, scanning further columns reports the same point, because the scan raises there. |
| Hitmaps.PeakStep | pps_hitmaps/PPSHitmap.py:77-85 | After one more cell is offered, maxFluence is still the largest scanned cell at or beyond the edge column, the first in scan order among equals. |
| Hitmaps.RidgeStep | pps_hitmaps/PPSHitmap.py:86-93 | After one more cell is offered, each scanned column's ridge entry is still its largest cell, at the lowest row among equals. |
| Hitmaps.NextColumn | pps_hitmaps/PPSHitmap.py:69-93 | Finishing a column carries the peak and ridge invariants to the next column. |
| Hitmaps.ScanColumn | pps_hitmaps/PPSHitmap.py:71-93 | One column's loop reports its first missing row. Up to that row, maxFluence and the ridge keep their meaning. |
| Hitmaps.ScanGrid | pps_hitmaps/PPSHitmap.py:66-93 | The whole scan reports the first missing grid point. Up to that point, maxFluence is the peak beyond the edge and the ridge holds every column's top. |
| Hitmaps.FirstEdgeCellFailsAsWritten | pps_hitmaps/PPSHitmap.py:67-78 | As written, the first cell at or beyond the edge fails on the empty record. The corrected scan takes that cell as the peak. |
| Hitmaps.OnePointGridAsWritten | pps_hitmaps/PPSHitmap.py:66-94 | A complete one-point grid beyond the edge cannot be validated as written. The corrected scan finds its peak. |
| Hitmaps.ScanSizesSpan | pps_hitmaps/PPSHitmap.py:419-427 | The linear scan's pad sizes start at minPad, end at maxPad, and are equally spaced. |
| Hitmaps.WindowShape | pps_hitmaps/PPSHitmap.py:214-225 | The integration window has xBins columns from the peak column. It has an odd number of rows centred on the peak row. For positive steps, they are the fewest columns, and the fewest odd number of rows, that cover the pad. |
| Hitmaps.XWeightAt | pps_hitmaps/PPSHitmap.py:234-236 | A column's weight is 1, except the last column's, which is the part of the pad length left over. |
| Hitmaps.YWeightAt | pps_hitmaps/PPSHitmap.py:238-242 | A row's weight is 1, minus the cut at the top row and the cut at the bottom row. |
| Hitmaps.XWeightsCoverPad | pps_hitmaps/PPSHitmap.py:225-236 | The column weights lie in (0, 1] and add up to xLen/xStep, the pad length in cells. |
| Hitmaps.YWeightsCoverPad | pps_hitmaps/PPSHitmap.py:227-242 | The row weights lie in (0, 1] and add up to yLen/yStep, the pad height in cells. |
| Hitmaps.WindowFluenceUniform | pps_hitmaps/PPSHitmap.py:224-243 | On a window of uniform fluence v, the weighted sum is v times the pad area in cells. |
| Hitmaps.WindowFluenceBounded | pps_hitmaps/PPSHitmap.py:224-243 | On a window where no cell exceeds v, the weighted sum is at most v times the pad area in cells. |
| Hitmaps.WindowHitsUniform | pps_hitmaps/PPSHitmap.py:243-245 | On a uniform window, the integrated occupancy equals the peak-uniform formula for that fluence. |
| Hitmaps.WindowHitsBounded | pps_hitmaps/PPSHitmap.py:243-245 | A window bounded by v gives no more occupancy than the peak-uniform formula for v. |
| Hitmaps.PadHitsMonotone | pps_hitmaps/PPSHitmap.py:202 | The peak-uniform occupancy grows with the fluence. |
| Hitmaps.AreaConversion | pps_hitmaps/PPSHitmap.py:245 | Converting a cell-weighted fluence to occupancy with the cell area is the peak-uniform formula with the pad area. |
| Hitmaps.IntegratedWindow | pps_hitmaps/PPSHitmap.py:206-246 | When every window cell is present, integratePadOccupancy succeeds with the window's weighted fluence converted to occupancy. |
| Hitmaps.UniformWindowIsPeakUniform | pps_hitmaps/PPSHitmap.py:196-246 | When the window is uniformly at the peak fluence, the two estimates agree. |
| Hitmaps.IntegratedAtMostPeakUniform | pps_hitmaps/PPSHitmap.py:196-246 | When no window cell exceeds the peak, the integrated occupancy succeeds and never exceeds the peak-uniform one. |
| Hitmaps.ValidatedPeakBoundsIntegral | pps_hitmaps/PPSHitmap.py:66-246 | After a successful validation, a pad window inside the grid gives an integrated occupancy no larger than the peak-uniform one. |
| Hitmaps.PeakUniformIsGridMaximum | pps_hitmaps/PPSHitmap.py:196-204 | There is no peak-uniform occupancy iff no grid cell lies at or beyond the edge. Otherwise it is the largest one any such cell would give. |
| Hitmaps.CellContribution | pps_hitmaps/PPSHitmap.py:229-242 | The loop body's contributionX and contributionY are the cell's column and row weights. |
| Hitmaps.AddCell | pps_hitmaps/PPSHitmap.py:243 | Adding one present cell extends the column's weighted sum by that cell. |
| Hitmaps.WindowColumn | pps_hitmaps/PPSHitmap.py:227-243 | One window column reports its first missing row. When the column is complete, its weighted sum is returned. |
| Hitmaps.AddColumn | pps_hitmaps/PPSHitmap.py:225-243 | One column of the window extends the sum, or reports the first missing point of the window. |
| Hitmaps.SumWindow | pps_hitmaps/PPSHitmap.py:224-243 | The double loop reports the window's first missing point. When there is none, it returns the window's weighted fluence. |
| Hitmaps.IntegrateWindow | pps_hitmaps/PPSHitmap.py:206-246 | integratePadOccupancy returns `IntegratedOccupancy`, covering the missing-peak, zero-step and missing-cell errors. |
| Hitmaps.ScanPad | pps_hitmaps/PPSHitmap.py:446-451 | One bin of the scan gives its pad size and that size's integrated occupancy. |
| Hitmaps.IntegrateScan | pps_hitmaps/PPSHitmap.py:442-453 | The scan succeeds iff every bin does. It then gives the bins' sizes and occupancies in order. Otherwise it fails with the first failing bin's error. |
| Hitmaps.PPSHitmap.constructor | pps_hitmaps/PPSHitmap.py:6-59 | The fields are stored. The map starts empty and unvalidated. maxFluence and ridge do not exist yet. nsigma is 15.9 for physics or 7 for calibration, and the detector edge is converted to metres. |
| Hitmaps.PPSHitmap.Create | pps_hitmaps/PPSHitmap.py:35-44 | An unsupported betastar is refused first, then physics together with calibration. Otherwise a fresh, unvalidated grid is returned. |
| Hitmaps.PPSHitmap.LoadMap | pps_hitmaps/PPSHitmap.py:143-155 | The map is rebuilt from the samples. Nothing else changes. |
| Hitmaps.PPSHitmap.CheckMap | pps_hitmaps/PPSHitmap.py:139-141 | The map is loaded only when it is missing. |
| Hitmaps.PPSHitmap.FreeMap | pps_hitmaps/PPSHitmap.py:157-159 | A present map is emptied, and a missing one stays missing. |
| Hitmaps.PPSHitmap.Validate | pps_hitmaps/PPSHitmap.py:61-94 | Fails iff a step is zero or a grid point is missing, with that error. Once the x step is non-zero, it creates maxFluence and ridge. Success marks the grid validated. maxFluence and the ridge mean the peak beyond the edge and the column tops, up to where the scan stopped. |
| Hitmaps.PPSHitmap.CheckValid | pps_hitmaps/PPSHitmap.py:118-124 | A validated grid is left alone. Otherwise the grid is validated, and it fails exactly when validation does. |
| Hitmaps.PPSHitmap.IntegratePadOccupancy | pps_hitmaps/PPSHitmap.py:206-246 | The map is checked. Before validate, with both steps non-zero, the read of maxFluence raises AttributeError. Otherwise the integrated occupancy at the peak is returned. The validation state is untouched. |
| Hitmaps.PPSHitmap.PeakUniformPadOccupancy | pps_hitmaps/PPSHitmap.py:196-204 | Before validate has created maxFluence, the read raises AttributeError. Afterwards it gives the peak fluence spread uniformly over the pad, or nothing when there is no peak. |
| Hitmaps.PPSHitmap.SquarePadPeakUniformScan | pps_hitmaps/PPSHitmap.py:409-430 | Gives nothing for fewer than two bins. Before validate, the first bin raises AttributeError. Otherwise gives `bins` equally spaced sizes from minPad to maxPad, each with the peak-uniform occupancy of that square pad. |
| Hitmaps.PPSHitmap.SquarePadIntegrateScan | pps_hitmaps/PPSHitmap.py:432-453 | Gives nothing for fewer than two bins. Otherwise the map is checked. Before validate, with both steps non-zero, the first bin raises AttributeError. Otherwise the result is every bin's size and integrated occupancy, or the error of the first failing bin, every earlier bin having succeeded. |
| Overlap.Inflate | pps_hitmaps/SensorPad.py:60-63 | The margin rectangle has the same centre, each side longer by twice the extra. For a non-negative extra it contains the core. |
| Overlap.Shifted | pps_hitmaps/SensorPad.py:79-82 | Shifting a rectangle keeps its size and moves its lower corner by the offset. |
| Overlap.ClippedOverlap | pps_hitmaps/SensorPad.py:118-124 | The overlap of a cell with an interval is never negative and never longer than the cell. |
| Overlap.ContributionIsClippedOverlap | pps_hitmaps/SensorPad.py:118-124 | The source's contribution (1 minus the parts sticking out) equals the overlap length over the step. |
| Overlap.ContributionInUnit | pps_hitmaps/SensorPad.py:118-124 | A contribution lies in [0, 1]. |
| Overlap.ContributionMonotone | pps_hitmaps/SensorPad.py:118-132 | A wider interval never gives a cell a smaller contribution. |
| Overlap.SkippedHasNoOverlap | pps_hitmaps/SensorPad.py:110-112 | A skipped cell has no overlap with the interval. |
| Overlap.SkippedShrinks | pps_hitmaps/SensorPad.py:110-116 | A cell skipped by a wider interval is skipped by a narrower one. |
| Integrator.MakeDose | pps_hitmaps/SensorPad.py:201-210 | The dose record keeps the totals. Its occupancy norm is the cell area in cm², and its occupancy is flux times 1.6e-12 times that norm. |
| Integrator.IntegrateRect | pps_hitmaps/SensorPad.py:95-200 | The walk over the grid's columns, in insertion order, yields `Integral`. |
| Integrator.IntegrateColumn | pps_hitmaps/SensorPad.py:137-199 | The walk over one column's rows, in insertion order, folds `Step` over its cells. |
| Integrator.VisitCell | pps_hitmaps/SensorPad.py:142-175 | One cell adds its weighted flux, updates the peak value and appends its point. A skipped cell does nothing. |
| Integrator.ColumnFlux | pps_hitmaps/SensorPad.py:160 | A column's flux is the running flux plus the sum of its cells' added terms. |
| Integrator.CellWidths | pps_hitmaps/SensorPad.py:103-105 | Cell edges are one step apart, in millimetres. |
| Integrator.ContributionsAreFractions | pps_hitmaps/SensorPad.py:118-158 | Each cell's contributionX and contributionY are the fractions of the cell the rectangle covers. |
| Integrator.CellOutsideOnX | pps_hitmaps/SensorPad.py:110-135 | A column outside the rectangle adds nothing. |
| Integrator.FluxIsOverlapSum | pps_hitmaps/SensorPad.py:95-200 | The total flux is the sum over the walked cells of value × x-fraction × y-fraction. |
| Integrator.FractionsMonotone | pps_hitmaps/SensorPad.py:118-158 | A containing rectangle covers at least as large a fraction of every cell. |
| Integrator.CellMonotone | pps_hitmaps/SensorPad.py:153-184 | On a non-negative map, every cell's term for a containing rectangle is at least its term for the contained one. |
| Integrator.OverlapSumMonotone | pps_hitmaps/SensorPad.py:95-200 | On a non-negative map, a containing rectangle collects at least as much flux. |
| Integrator.MarginFluxDominates | pps_hitmaps/SensorPad.py:60-200 | The margin rectangle collects at least the core rectangle's flux. |
| Integrator.IntegralScaled | pps_hitmaps/SensorPad.py:318-349 | Integrating with a weight scales the flux and every contributing cell's flux. The peak value and the cell list are unchanged. |
| Integrator.StepPeak | pps_hitmaps/SensorPad.py:162-175 | One cell keeps every contributing cell's flux at or below the peak value. |
| Integrator.ColumnPeak | pps_hitmaps/SensorPad.py:137-199 | A column keeps every contributing cell's flux at or below the peak value. |
| Integrator.GridPeak | pps_hitmaps/SensorPad.py:102-199 | The whole walk keeps every contributing cell's flux at or below the peak value. |
| Integrator.PeakIsLargestContribution | pps_hitmaps/SensorPad.py:162-175 | There is no peak iff no cell contributed. Otherwise the peak is some contributing cell's flux and at least every one of them. |
| Edges.Clean | pps_hitmaps/SensorPad.py:5-15 | The merged list is empty iff the input is, keeps the first edge, and is no longer than the input. |
| Edges.CleanEdges | pps_hitmaps/SensorPad.py:5-15 | The loop computes `Clean`. |
| Edges.CleanSubset | pps_hitmaps/SensorPad.py:5-15 | Every kept edge is an input edge. |
| Edges.CleanSpaced | pps_hitmaps/SensorPad.py:12-13 | Consecutive kept edges differ by more than the threshold. |
| Edges.CleanCovers | pps_hitmaps/SensorPad.py:8-13 | Every input edge is within the threshold of a kept edge. |
| Edges.CleanSortedIncreasing | pps_hitmaps/SensorPad.py:5-15 | A sorted input gives strictly increasing kept edges. |
| Edges.InsertAdds | pps_hitmaps/SensorPad.py:23 | Inserting adds exactly one copy of the edge. |
| Edges.InsertKeepsSorted | pps_hitmaps/SensorPad.py:23 | Inserting into a sorted list keeps it sorted. |
| Edges.SortSorted | pps_hitmaps/SensorPad.py:23 | Sorting gives a sorted permutation of the list. |
| Edges.ConcatMembers | pps_hitmaps/SensorPad.py:20-21 | An edge is in the pooled list iff it is in one of the lists. |
| Edges.SummariseEdges | pps_hitmaps/SensorPad.py:17-25 | The lists are pooled, sorted and merged. |
| Edges.SummaryProperties | pps_hitmaps/SensorPad.py:17-25 | The summary is strictly increasing. It holds only edges from the lists, and lies within the threshold of every edge of every list. |
| Edges.SummaryFromLists | pps_hitmaps/SensorPad.py:17-25 | Every summary edge comes from one of the lists. |
| Edges.SummaryCoversLists | pps_hitmaps/SensorPad.py:17-25 | Every edge of every list is within the threshold of a summary edge. |
| DoseEol.Centred | pps_hitmaps/SensorPad.py:650-656 | The raster frame keeps the rectangle's size and is centred on the origin. |
| DoseEol.AddNewKeeps | pps_hitmaps/SensorPad.py:698-705 | Adding an edge only when new keeps the list free of duplicates and adds exactly that edge. |
| DoseEol.CollectXIsEdgeSet | pps_hitmaps/SensorPad.py:697-701 | An epoch's x edges are exactly the left and right edges of its contributing cells, without duplicates. |
| DoseEol.EpochEdges | pps_hitmaps/SensorPad.py:695-710 | One epoch's edges are collected, sorted and merged. |
| DoseEol.EpochEdgeLists | pps_hitmaps/SensorPad.py:692-713 | Every epoch's edge lists, in epoch order. |
| DoseEol.RasterEdges | pps_hitmaps/SensorPad.py:692-716 | The raster's edges are the summary of every epoch's edge lists. |
| DoseEol.FirstCovering | pps_hitmaps/SensorPad.py:750-754 | The first contributing cell whose interior holds the point; none iff no cell holds it. |
| DoseEol.FindCovering | pps_hitmaps/SensorPad.py:750-754 | The inner loop with its break finds `FirstCovering`. |
| DoseEol.DoseAt | pps_hitmaps/SensorPad.py:748-754 | A bin's dose sums, over the epochs, the first covering cell's flux times one epoch's luminosity. |
| DoseEol.CellDoseNonNegative | pps_hitmaps/SensorPad.py:748-754 | Non-negative fluxes and luminosity give a non-negative bin dose. |
| DoseEol.UncoveredCellIsEmpty | pps_hitmaps/SensorPad.py:748-754 | A bin no contributing cell covers gets no dose. |
| DoseEol.FillRaster | pps_hitmaps/SensorPad.py:743-757 | Every bin of the edge grid gets the dose at its centre. |
| DoseEol.RasterDosesAreCells | pps_hitmaps/SensorPad.py:743-757 | The filled raster is the reference raster `Cells`. |
| DoseEol.CellsAreRasterDoses | pps_hitmaps/SensorPad.py:743-757 | The reference raster has the filled raster's meaning, and every column has a bin. |
| DoseEol.DoseRaster | pps_hitmaps/SensorPad.py:613-757 | The raster computation returns `DoseRasterOf`. |
| DoseEol.RasterShape | pps_hitmaps/SensorPad.py:627-757 | The raster fails iff there are no epochs. When fewer than two edges remain on an axis, it is one empty bin over the centred pad. Otherwise the edges strictly increase and every bin holds its centre's dose. |
| DoseEol.MaxOf | pps_hitmaps/SensorPad.py:789 | The maximum of the bin contents is one of them and at least every one. |
| DoseEol.MaxDoseBounds | pps_hitmaps/SensorPad.py:789 | The largest bin content bounds every bin and is a bin's content. |
| DoseEol.EolMaxDoseIsFullestBin | pps_hitmaps/SensorPad.py:780-789 | maxDoseEOL fails iff there are no epochs. Otherwise it is the fullest bin's content. |
| Voltage.First | pps_hitmaps/SensorPad.py:816-822 | The first voltage in a range satisfying a test, and none only when no voltage does. |
| Voltage.CellWindowMeaning | pps_hitmaps/SensorPad.py:813-822 | A bin's lowest voltage is the first to collect minCharge. Every voltage up to its highest stays at or below maxCharge, and the next one exceeds it. With no highest voltage, nothing up to maxVolt exceeds maxCharge. |
| Voltage.ScanCell | pps_hitmaps/SensorPad.py:813-822 | The voltage loop with its break computes the bin's window. |
| Voltage.WindowsAt | pps_hitmaps/SensorPad.py:808-811 | Each bin's window is computed from half its content. |
| Voltage.FoldAllWork | pps_hitmaps/SensorPad.py:824-825 | allCellsWork stays true exactly while every bin has a lowest voltage. |
| Voltage.FoldMin | pps_hitmaps/SensorPad.py:827-834 | The folded lowest voltage is some bin's, and the largest of the bins' lowest voltages. |
| Voltage.FoldMax | pps_hitmaps/SensorPad.py:829-837 | The folded highest voltage is some bin's, and the smallest of the bins' highest voltages. |
| Voltage.WindowMeaning | pps_hitmaps/SensorPad.py:804-843 | The pad has a lowest voltage iff there are bins and every bin works. It is the largest bin minimum, and the highest voltage is the smallest bin maximum. |
| Voltage.BinWithinWindow | pps_hitmaps/SensorPad.py:804-843 | Every bin works at the pad's window: its lowest voltage is at most the pad's, and its highest is at least the pad's. |
| Voltage.ScanBin | pps_hitmaps/SensorPad.py:811-822 | One bin's window from its content. |
| Voltage.ScanColumn | pps_hitmaps/SensorPad.py:809-837 | One x bin's y loop folds its bins into the scan. |
| Voltage.ScanRaster | pps_hitmaps/SensorPad.py:801-843 | The two loops over the histogram return the pad's window. |
| Pads.PlanPartial | pps_hitmaps/SensorPad.py:223-231 | The kept count minus one, plus the last epoch's fraction, is the relevant number of shifts, to within 1e-4. The fraction is in (0, 1]. |
| Pads.Take | pps_hitmaps/SensorPad.py:228-230 | Python slicing `s[:k]`: a prefix of length k, the whole list past its end, and counting from the end for negative k. |
| Pads.PartialWeight | pps_hitmaps/SensorPad.py:223-231 | The weights of the kept epochs add up to the relevant number of shifts to within 1e-4, and exactly when the last epoch's fraction is below 1. |
| Pads.LastEpochScaled | pps_hitmaps/SensorPad.py:318-349 | The last kept epoch's dose is the full dose scaled by the fraction, in flux, occupancy and every cell. Its peak value is unscaled. |
| Pads.ShiftedMargin | pps_hitmaps/SensorPad.py:87-90 | Shifting the margin rectangle is the margin of the shifted core. |
| Pads.MarginDoseDominates | pps_hitmaps/SensorPad.py:201-217 | On a non-negative map, an epoch's margin dose has at least the core dose's flux and occupancy. |
| Pads.IntegrateEpoch | pps_hitmaps/SensorPad.py:79-210 | One epoch integrates the shifted rectangle and makes its dose record. |
| Pads.CutShifts | pps_hitmaps/SensorPad.py:223-231 | The kept shifts and the last epoch's fraction are those of the plan. |
| Pads.SensorPad.constructor | pps_hitmaps/SensorPad.py:45-66 | A pad holds its core rectangle, its margin (the core inflated by extra), its epochs, and no doses. |
| Pads.SensorPad.SetEpochs | pps_hitmaps/SensorPad.py:68-69 | A negative epoch count is refused and leaves the pad unchanged. Otherwise only the epoch count changes. |
| Pads.SensorPad.CalculateFlux | pps_hitmaps/SensorPad.py:71-217 | Shifts not matching the epoch count are refused, leaving the doses unchanged. Otherwise the core and margin doses hold one record per shift, in order. |
| Pads.SensorPad.CalculatePartialFlux | pps_hitmaps/SensorPad.py:219-392 | One core record per kept shift, full except the last, which is scaled by the fraction. The margin records are full for every kept shift. |
| Pads.SensorPad.DoseEOL | pps_hitmaps/SensorPad.py:613-757 | The end-of-life raster of the core or margin doses, over the centred core or margin rectangle. |
| Pads.SensorPad.MaxDoseEOL | pps_hitmaps/SensorPad.py:780-789 | The fullest bin of that raster. |
| Pads.SensorPad.VoltageEOL | pps_hitmaps/SensorPad.py:791-843 | The voltage window of that raster. |
| Sensors.FirstMismatch | pps_hitmaps/Sensor.py:46-47 | The first pad whose epoch count differs from the number of shifts; every earlier pad matches. |
| Sensors.SetAllEpochs | pps_hitmaps/Sensor.py:35-36 | Every pad gets one epoch per shift and keeps its rectangles and doses. |
| Sensors.FluxPads | pps_hitmaps/Sensor.py:46-47 | The pads before the first mismatching one hold full doses for the shifts. The first mismatching pad raises, and the pads not yet reached keep their doses. |
| Sensors.ArgMaxIsFirstMaximum | pps_hitmaps/Sensor.py:57-68 | The chosen pad has the largest occupancy and comes before any other pad with that occupancy. |
| Sensors.Column | pps_hitmaps/Sensor.py:64-67 | An epoch's occupancy of every pad. |
| Sensors.EpochMaxSpec | pps_hitmaps/Sensor.py:57-76 | An epoch's maximum exists iff there are pads and each has a record for that epoch. It is then the first largest occupancy. Without pads, the error names the epoch. |
| Sensors.MaxOccupanciesSpec | pps_hitmaps/Sensor.py:55-78 | One maximum per epoch, each the first largest pad occupancy. The scan succeeds iff there are no epochs, or there are pads and each has every epoch. |
| Sensors.MaxOccupanciesErrPersists | pps_hitmaps/Sensor.py:56-78 | The first failing epoch ends the scan with its error. |
| Sensors.EpochMaxOccupancy | pps_hitmaps/Sensor.py:57-76 | The pad loop of one epoch computes `EpochMax`. |
| Sensors.MaxOccupancyScan | pps_hitmaps/Sensor.py:55-78 | The epoch loop computes `MaxOccupancies`. |
| Sensors.RunningMaxErrPersists | pps_hitmaps/Sensor.py:278-279 | A pad that fails ends the loop with its error. |
| Sensors.RunningMaxSpec | pps_hitmaps/Sensor.py:276-286 | The running maximum is none iff there are no pads. Otherwise it is some pad's value and at least every one. The first failing pad's error is returned. |
| Sensors.Sensor.constructor | pps_hitmaps/Sensor.py:21-31 | A sensor with the given shifts, no pads, zero bounds and no flux. |
| Sensors.Sensor.SetShifts | pps_hitmaps/Sensor.py:33-38 | The shifts are replaced, and every pad gets one epoch per shift, keeping its rectangles and doses. The flux flag is cleared. |
| Sensors.Sensor.CalculateFlux | pps_hitmaps/Sensor.py:40-49 | The map is checked, then the pads are calculated in order. Success, which sets the flag, iff every pad's epochs match the shifts. Otherwise the first mismatching pad's error, with the earlier pads calculated. |
| Sensors.Sensor.FindMaxOccupancy | pps_hitmaps/Sensor.py:51-78 | Refused before the flux is calculated. Otherwise each epoch's largest core or margin occupancy. |
| Sensors.Sensor.MaxDoseEOL | pps_hitmaps/Sensor.py:275-286 | The largest end-of-life dose over the pads, none without pads, or the first failing pad's error. |
| ClassFields.IntegerFieldsAdmit | pps_hitmaps/ClassFields/__init__.py:6-37 | The integer fields accept exactly the integers: all of them, the positive ones, the non-negative ones. The value is stored unchanged. |
| ClassFields.IntegerFieldsNest | pps_hitmaps/ClassFields/__init__.py:6-91 | Each field's accepted values nest: positive within non-negative within integer within float, and the float and pair lists within lists. |
| ClassFields.FloatFieldAdmits | pps_hitmaps/ClassFields/__init__.py:46-49 | FloatField accepts exactly the numbers and stores them converted to float. |
| ClassFields.AdmitIdempotent | pps_hitmaps/ClassFields/__init__.py:6-91 | Setting a field again to its stored value stores the same value. |
| ClassFields.ListFieldsAdmit | pps_hitmaps/ClassFields/__init__.py:58-91 | The list fields accept lists of numbers, or lists of tuples of numbers, respectively. Values are stored unchanged, and the empty list is always accepted. |
| ClassFields.PairListChecksInOrder | pps_hitmaps/ClassFields/__init__.py:86-88 | A list with a non-tuple is refused with the tuple message, before the numbers are checked. |
| ClassFields.BoolsAreIntegers | pps_hitmaps/ClassFields/__init__.py:18-49 | A bool passes the integer checks as Python's int. True is a positive integer and becomes 1.0 in a float field. |
| ClassFields.PairLengthNotChecked | pps_hitmaps/ClassFields/__init__.py:84-91 | Tuple lengths are never checked. Replacing a tuple of numbers in any list by a tuple of numbers of another length leaves the verdict unchanged: the same acceptance, or the same error. |
| ClassFields.Instance.constructor | pps_hitmaps/ClassFields/__init__.py:3-4 | An instance starts with no attributes. |
| ClassFields.Instance.Get | pps_hitmaps/ClassFields/__init__.py:3-4 | Reading an attribute finds it iff it was set. |
| ClassFields.Instance.Set | pps_hitmaps/ClassFields/__init__.py:6-91 | A value the field refuses raises the field's error and changes nothing. An accepted value, possibly converted, is stored under the name. |
| Presets.LayoutLength | pps_hitmaps/CustomizedSensors.py:19-27 | The number of pads appended is the sum of the blocks' sizes. |
| Presets.LayoutAppend | pps_hitmaps/CustomizedSensors.py:83-97 | Laying out two runs of blocks appends their pads in order. |
| Presets.Strips | pps_hitmaps/CustomizedSensors.py:83-97 | One block per column, each spanning the column's widened span. |
| Presets.ColumnsCount | pps_hitmaps/CustomizedSensors.py:83-99 | A column loop lays out its first column's pads plus `rows` pads per further column. |
| Presets.HybridCount | pps_hitmaps/CustomizedSensors.py:61-538 | Every PPS hybrid lays out 256 pads. |
| Presets.TICount | pps_hitmaps/CustomizedSensors.py:540-656 | The TI production sensors lay out 18, 5 and 35 pads. |
| Presets.PresetCount | pps_hitmaps/CustomizedSensors.py:7-656 | Every preset's pad count: 256 for ETL and hybrids, 18, 5 and 35 for TI production. |
| Presets.ColumnsTile | pps_hitmaps/CustomizedSensors.py:83-97 | Every preset's columns abut one another and end at the sensitive area's far edge. |
| Presets.HybridTile | pps_hitmaps/CustomizedSensors.py:61-538 | The widened columns of each hybrid abut and end at pad 16. |
| Presets.TITile | pps_hitmaps/CustomizedSensors.py:540-656 | The columns of each TI production layout abut and end at its last cell. |
| Presets.StripPad | pps_hitmaps/CustomizedSensors.py:94-97 | Pad y of a column is that column's cell in row y, pulled in by the spacing. |
| Presets.GridPad | pps_hitmaps/CustomizedSensors.py:51-57 | Pad 16x + y of a 16-by-16 layout is cell (x, y) pulled in by the spacing. |
| Presets.ETLLayout | pps_hitmaps/CustomizedSensors.py:19-57 | Both ETL presets lay out 16 plain columns of 16 pads, starting 8 pad sizes below zero on each axis. |
| Presets.ETLPad | pps_hitmaps/CustomizedSensors.py:51-57 | Pad 16x + y of an ETL preset is grid cell (x, y) pulled in by the preset's extra. |
| Presets.SimpleETLTiles | pps_hitmaps/CustomizedSensors.py:19-25 | SimpleETL's pad 16x + y is exactly the 1.3 mm cell (x, y). |
| Presets.SimpleETLBounds | pps_hitmaps/CustomizedSensors.py:11-17 | SimpleETL's bounds are ±10.4 mm and coincide with its sensitive area. |
| Presets.RealisticETLMarginsTile | pps_hitmaps/CustomizedSensors.py:49-57 | Every RealisticETL pad's margin rectangle is exactly its grid cell, and a pad is one spacing narrower than a pad size. |
| Presets.CellMargin | pps_hitmaps/CustomizedSensors.py:52-57 | A pad pulled in from its cell by s inflates back to the cell and is 2s narrower. |
| Presets.Hybrid1WideColumn | pps_hitmaps/CustomizedSensors.py:83-97 | PPSHybrid1's last column is double width and ends at the sensitive edge minus half a spacing. |
| Presets.Hybrid1Split | pps_hitmaps/CustomizedSensors.py:83-97 | PPSHybrid1's pads are its first column's 32 half-height pads, then the 14 further columns, 256 in all. |
| Presets.WideColumnPad | pps_hitmaps/CustomizedSensors.py:86-87 | A pad of a column widened over cells 14-16 spans both cells. |
| Presets.ETLFits | pps_hitmaps/CustomizedSensors.py:19-57 | The ETL layouts' blocks lie within the sensitive area, and their columns tile it. |
| Presets.HybridPresetFits | pps_hitmaps/CustomizedSensors.py:61-538 | Each hybrid's blocks lie within the sensitive area, and its columns tile it. |
| Presets.TIPresetFits | pps_hitmaps/CustomizedSensors.py:540-656 | Each TI production layout's blocks lie within its sensitive area, and its columns tile it. |
| Presets.PresetFits | pps_hitmaps/CustomizedSensors.py:7-656 | Every preset's blocks lie within its sensitive area, and its columns tile it. |
| Presets.PresetMarginsWithin | pps_hitmaps/CustomizedSensors.py:7-656 | Every pad's margin rectangle lies within the preset's sensitive area. |
| Presets.SensitiveAreaWithinBounds | pps_hitmaps/CustomizedSensors.py:42-49 | With a guard ring of at least half the spacing, the sensitive area lies within the sensor bounds. |
| Presets.AppendPads | pps_hitmaps/CustomizedSensors.py:19-25 | The loop appends one fresh pad per rectangle, in order, with the given epochs and extra. The earlier pads and the other fields are kept. |
| Presets.NewSensor | pps_hitmaps/CustomizedSensors.py:8-27 | A fresh sensor with the shifts, the bounds, no flux, one fresh pad per rectangle (one epoch per shift), and numPads set to their number. |
| Presets.Build | pps_hitmaps/CustomizedSensors.py:7-656 | A preset's sensor: its bounds, its layout's pads in order with its extra and one epoch per shift, and numPads set. |

## Left out

- ROOT histograms, matplotlib figures and printing are left out: `getHisto`, `plotShifts`, the `…Graph` methods, `plotFlux`, `plotDose`, `plotOccupancy`, `plotLossProbabilityVsDeadtime` and `preview`. They render; the dose raster behind `plotDoseEOL` is modelled as the numbers fed to its histogram.
- `calcLossProb` is left out because it needs `exp`. The logarithmic pad-size scans are left out because they need `log` and `2**`.
- Hitmaps.PPSHitmap.SquarePadPeakUniformScan: requires `doLog ==> minPad == 0`, so only the early return of the logarithmic branch is modelled. Its `exp`/`log` arithmetic is not.
- Hitmaps.PPSHitmap.SquarePadIntegrateScan: same `doLog ==> minPad == 0` precondition, for the same reason.
- Reading the fluence file (`open`, `split`, `float`) is left out; its lines are the `samples` sequence. The `filename`, `station` and `verbose` arguments are dropped.
- Grid keys rounded to six decimals are replaced by the exact integer indices they stand for, and IEEE floats by exact reals. Float rounding is therefore not captured, for example two coordinates that round to the same key.
- Hitmaps.PPSHitmap.constructor: requires a supported betastar and not both physics and calibration. The exceptions the source raises there are modelled by `Hitmaps.PPSHitmap.Create`.
- The map is never `None` in the source, so `_checkMap` never loads it. This is modelled as written: the map stays empty until `LoadMap` is called.
- Sensors.Sensor.CalculateFlux: requires positive hitmap steps (the `Integrator.Geometry` type). The source also accepts a zero or negative step, integrating over degenerate cells.
- Sensors.Sensor.CalculateFlux: the doses of a pad object that appears twice in the pad list, before and after the failing pad, are not described.
- Sensors.FluxPads: the same aliasing case is not described.
- Pads.SensorPad.CalculateFlux: the grid-step arguments have the `Integrator.Geometry` type, so only positive steps are modelled. The source also integrates with a zero step, where no partial-overlap division is reached and the occupancy norm is 0.
- Pads.SensorPad.CalculatePartialFlux: same positive-step restriction through the `Integrator.Geometry` type.
- Sensors.FluxPads: same positive-step restriction through the `Integrator.Geometry` type.
- Pads.IntegrateEpoch: same positive-step restriction, as the helper both pad calculations use.
- Integrator.IntegrateRect: same positive-step restriction, as the integration every pad calculation uses.
- The `isinstance(hitmap, PPSHitmap)` check (Sensor.py:41) is enforced by Dafny's types instead.
- The ClassFields checks are modelled once, in `ClassFields`. `Sensor` and `SensorPad` hold typed fields rather than re-running those checks on every assignment. The only exception is the epoch count's sign check, in `Pads.SensorPad.SetEpochs`.
- The mutable default `shifts=[]` shared between calls is not modelled.
- The `reuse` argument of `SensorPad.maxDoseEOL`, which reads an earlier plot back, is not modelled: the raster is always recomputed.
- The `TypeError` path of the histogram constructor is not modelled. The raster's edges are proved strictly increasing with at least two per axis, so that path does not apply.
- The `padSize`, `padSpacing` and `guardRing` attributes each preset stores on its sensor are not modelled as `Sensor` fields. Nothing else in the package reads them; the layout functions take them as parameters.
- Each preset class is modelled as a layout function of its parameters plus one building method, rather than as eleven-plus constructors.
- Pads.PartialWeight: requires the plan to keep at least one shift and no more than there are. With no shift kept, or a luminosity above 300, the weights are not summed.

## Findings

| source | as written | input that shows it | evidently intended | confidence | as-written member | corrected member |
|---|---|---|---|---|---|---|
| pps_hitmaps/PPSHitmap.py:67-78 | `validate` sets `maxFluence` to an empty dictionary, then tests it against `None` and reads its `"fluence"` key. The first cell at or beyond the detector-edge column raises `KeyError`. | Any grid with a column at or beyond the edge, e.g. a one-point grid with its point at column 0 and edge column 0 | `maxFluence` starts as `None`, so the first cell beyond the edge becomes the peak | high, not executed | Hitmaps.OnePointGridAsWritten | Hitmaps.PPSHitmap.Validate |
