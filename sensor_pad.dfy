/**
 * One timing-detector pad (SensorPad): a core rectangle in millimetres, the
 * same rectangle inflated by the inter-pad margin, an epoch count, and the
 * per-epoch dose records of the core and of the margin rectangle, which
 * calculateFlux and calculatepartialFlux replace.
 */
module Pads {
  import opened Wrappers
  import opened Overlap
  import opened FluenceMaps
  import opened Integrator
  import DoseEol
  import Voltage

  /** One epoch's offset of the pad, in millimetres: `shifts[epoch][0]`, `shifts[epoch][1]`. */
  datatype Shift = Shift(dx: real, dy: real)

  datatype PadError =
    | NegativeEpochs       // the epochs field only accepts integers >= 0
    | ShiftCountMismatch   // calculateFlux got a number of shifts other than epochs

  /** Side of the default pad, in millimetres. */
  const DefaultPadSize: real := 1.3

  /** The default pad: one epoch, centred at the origin, no margin. */
  const DefaultCore: Rect := Rect(-DefaultPadSize / 2.0, DefaultPadSize / 2.0, -DefaultPadSize / 2.0, DefaultPadSize / 2.0)

  /** The dose record of rectangle r moved by one epoch's shift, weighted by scale. */
  function EpochDose(r: Rect, s: Shift, g: Geometry, m: FluenceMap, scale: real): Dose
  {
    MakeDose(Integral(Shifted(r, s.dx, s.dy), g, m, scale), g)
  }

  /** A dose record of every epoch's shift with weight 1. */
  ghost predicate FullDoses(ds: seq<Dose>, r: Rect, shifts: seq<Shift>, g: Geometry, m: FluenceMap)
  {
    |ds| == |shifts| && forall e :: 0 <= e < |ds| ==> ds[e] == EpochDose(r, shifts[e], g, m, 1.0)
  }

  // ---------------------------------------------------------------------
  // The epochs kept by calculatepartialFlux.

  /** How many leading shifts are integrated and the weight of the last one. */
  datatype PartialPlan = PartialPlan(count: int, fraction: real)

  /**
   * n * L / 300 epochs' worth of shifts: its integer part, plus one more
   * epoch when the fractional part exceeds 1e-4, which then weighs the last
   * epoch; otherwise the last epoch weighs 1.
   */
  function PlanPartial(n: nat, lumi: real): (p: PartialPlan)
    ensures var relevant := n as real * lumi / 300.0;
      && p.count as real - 1.0 + p.fraction <= relevant
      && relevant <= p.count as real - 1.0 + p.fraction + 0.0001
    ensures 0.0 < p.fraction <= 1.0
  {
    var relevant := n as real * lumi / 300.0;
    var intpart := relevant.Floor;
    var floatpart := relevant - intpart as real;
    if floatpart > 0.0001 then PartialPlan(intpart + 1, floatpart) else PartialPlan(intpart, 1.0)
  }

  /** Python's `s[:k]`: the first k elements, all of them when k is too large, and for k < 0 all but the last -k. */
  function Take<T>(s: seq<T>, k: int): (t: seq<T>)
    ensures t <= s
    ensures 0 <= k <= |s| ==> |t| == k
    ensures k > |s| ==> t == s
    ensures k < 0 ==> |t| == if |s| + k >= 0 then |s| + k else 0
  {
    if k >= |s| then s
    else if k >= 0 then s[..k]
    else if |s| + k >= 0 then s[..|s| + k]
    else []
  }

  /**
   * When the plan keeps at least one shift and no more than there are, the
   * epochs it integrates weigh n * L / 300 in total: exactly when the
   * fractional part was kept, and to within 1e-4 when it was dropped.
   */
  lemma PartialWeight(n: nat, lumi: real)
    requires 0 < PlanPartial(n, lumi).count <= n
    ensures var p := PlanPartial(n, lumi);
      var weight := (|Take(seq(n, i => 0), p.count)| - 1) as real + p.fraction;
      var relevant := n as real * lumi / 300.0;
      && relevant - 0.0001 <= weight <= relevant
      && (p.fraction < 1.0 ==> weight == relevant)
  {
    var p := PlanPartial(n, lumi);
    var relevant := n as real * lumi / 300.0;
    assert |Take(seq(n, i => 0), p.count)| == p.count;
    if p.fraction < 1.0 {
      assert p.count == relevant.Floor + 1;
    }
  }

  /** The last integrated epoch weighted by f carries f times the flux, points and occupancy, and the same peak. */
  lemma LastEpochScaled(r: Rect, s: Shift, g: Geometry, m: FluenceMap, f: real)
    ensures var d, d1 := EpochDose(r, s, g, m, f), EpochDose(r, s, g, m, 1.0);
      && d.totalFlux == f * d1.totalFlux
      && d.occupancy == f * d1.occupancy
      && d.maxFlux == d1.maxFlux
      && |d.fluxMap| == |d1.fluxMap|
      && forall i :: 0 <= i < |d.fluxMap| ==> d.fluxMap[i] == d1.fluxMap[i].(flux := f * d1.fluxMap[i].flux)
  {
    var rs := Shifted(r, s.dx, s.dy);
    IntegralScaled(rs, g, m, f);
    var t1 := Integral(rs, g, m, 1.0).flux;
    assert (f * t1) * HitsPerFluence * OccupancyNorm(g) == f * (t1 * HitsPerFluence * OccupancyNorm(g));
  }

  /** Moving the margin rectangle is moving the core and then inflating it. */
  lemma ShiftedMargin(r: Rect, extra: real, s: Shift)
    ensures Shifted(Inflate(r, extra), s.dx, s.dy) == Inflate(Shifted(r, s.dx, s.dy), extra)
  {
  }

  /**
   * On a grid of non-negative samples, each epoch's margin dose collects at
   * least the core dose's flux and occupancy.
   */
  lemma MarginDoseDominates(r: Rect, extra: real, s: Shift, g: Geometry, m: FluenceMap)
    requires WellFormed(r) && extra >= 0.0 && NonNegative(m)
    ensures EpochDose(r, s, g, m, 1.0).totalFlux <= EpochDose(Inflate(r, extra), s, g, m, 1.0).totalFlux
    ensures EpochDose(r, s, g, m, 1.0).occupancy <= EpochDose(Inflate(r, extra), s, g, m, 1.0).occupancy
  {
    var rs := Shifted(r, s.dx, s.dy);
    ShiftedMargin(r, extra, s);
    MarginFluxDominates(rs, extra, g, m, 1.0);
    var a, b := Integral(rs, g, m, 1.0).flux, Integral(Inflate(rs, extra), g, m, 1.0).flux;
    var k := HitsPerFluence * OccupancyNorm(g);
    assert k > 0.0;
    assert a * HitsPerFluence * OccupancyNorm(g) == a * k;
    assert b * HitsPerFluence * OccupancyNorm(g) == b * k;
  }

  /** One epoch of either rectangle: integrate it moved by the shift, then form the dose record. */
  method IntegrateEpoch(r: Rect, s: Shift, g: Geometry, m: FluenceMap, weight: real) returns (d: Dose)
    ensures d == EpochDose(r, s, g, m, weight)
  {
    var acc := IntegrateRect(Shifted(r, s.dx, s.dy), g, m, weight);
    d := MakeDose(acc, g);
  }

  /** The shifts calculatepartialFlux keeps and the weight of the last one. */
  method CutShifts(shifts: seq<Shift>, lumi: real) returns (cutshifts: seq<Shift>, floatpart: real)
    ensures cutshifts == Take(shifts, PlanPartial(|shifts|, lumi).count)
    ensures floatpart == PlanPartial(|shifts|, lumi).fraction
  {
    var relevantShifts := |shifts| as real * lumi / 300.0;
    var intpart := relevantShifts.Floor;
    floatpart := relevantShifts - intpart as real;
    if floatpart > 0.0001 {
      cutshifts := Take(shifts, intpart + 1);
    } else {
      cutshifts := Take(shifts, intpart);
      floatpart := 1.0;
    }
  }

  class SensorPad {
    var epochs: int
    var core: Rect
    var margin: Rect
    var doses: seq<Dose>
    var dosesExtra: seq<Dose>

    /** The epochs field holds a non-negative integer. */
    ghost predicate Valid()
      reads this
    {
      epochs >= 0
    }

    /** The pad holds the dose of every shift, for its core and for its margin. */
    ghost predicate HasFullDoses(shifts: seq<Shift>, g: Geometry, m: FluenceMap)
      reads this
    {
      FullDoses(doses, core, shifts, g, m) && FullDoses(dosesExtra, margin, shifts, g, m)
    }

    constructor (epochs: nat, core: Rect, extra: real)
      ensures Valid()
      ensures this.epochs == epochs && this.core == core && margin == Inflate(core, extra)
      ensures doses == [] && dosesExtra == []
    {
      this.epochs := epochs;
      this.core := core;
      margin := Inflate(core, extra);
      doses := [];
      dosesExtra := [];
    }

    /** The epochs setter: a negative count is refused and nothing changes. */
    method SetEpochs(e: int) returns (r: Result<(), PadError>)
      requires Valid()
      modifies this
      ensures Valid()
      ensures e < 0 ==> r == Err(NegativeEpochs) && epochs == old(epochs)
      ensures e >= 0 ==> r.Ok? && epochs == e
      ensures core == old(core) && margin == old(margin)
      ensures doses == old(doses) && dosesExtra == old(dosesExtra)
    {
      if e < 0 {
        return Err(NegativeEpochs);
      }
      epochs := e;
      r := Ok(());
    }

    /**
     * One dose record per epoch for the core and for the margin rectangle,
     * each moved by that epoch's shift. A shift count other than epochs is
     * refused before any dose is touched.
     */
    method CalculateFlux(shifts: seq<Shift>, g: Geometry, m: FluenceMap) returns (r: Result<(), PadError>)
      requires Valid()
      modifies this
      ensures Valid()
      ensures epochs == old(epochs) && core == old(core) && margin == old(margin)
      ensures |shifts| != epochs ==>
                r == Err(ShiftCountMismatch) && doses == old(doses) && dosesExtra == old(dosesExtra)
      ensures |shifts| == epochs ==>
                r.Ok? && HasFullDoses(shifts, g, m)
    {
      if |shifts| != epochs {
        return Err(ShiftCountMismatch);
      }
      doses := [];
      dosesExtra := [];
      for epoch := 0 to epochs
        invariant epochs == old(epochs) && core == old(core) && margin == old(margin)
        invariant FullDoses(doses, core, shifts[..epoch], g, m)
        invariant FullDoses(dosesExtra, margin, shifts[..epoch], g, m)
      {
        var dose := IntegrateEpoch(core, shifts[epoch], g, m, 1.0);
        var doseExtra := IntegrateEpoch(margin, shifts[epoch], g, m, 1.0);
        doses := doses + [dose];
        dosesExtra := dosesExtra + [doseExtra];
      }
      assert shifts[..epochs] == shifts;
      r := Ok(());
    }

    /**
     * The doses of the first n * L / 300 shifts' worth of epochs (see
     * PlanPartial): every kept epoch is integrated as in CalculateFlux,
     * except that the core flux and points of the last one are weighted by
     * the plan's fraction. The margin doses are never weighted, and the shift
     * count is not checked against epochs.
     */
    method CalculatePartialFlux(shifts: seq<Shift>, lumi: real, g: Geometry, m: FluenceMap)
      requires Valid()
      modifies this
      ensures Valid()
      ensures epochs == old(epochs) && core == old(core) && margin == old(margin)
      ensures var p := PlanPartial(|shifts|, lumi);
        var kept := Take(shifts, p.count);
        && |doses| == |kept|
        && (forall e :: 0 <= e < |kept| - 1 ==> doses[e] == EpochDose(core, kept[e], g, m, 1.0))
        && (|kept| > 0 ==> doses[|kept| - 1] == EpochDose(core, kept[|kept| - 1], g, m, p.fraction))
        && FullDoses(dosesExtra, margin, kept, g, m)
    {
      var cutshifts, floatpart := CutShifts(shifts, lumi);
      doses := [];
      dosesExtra := [];
      for epoch := 0 to |cutshifts|
        invariant epochs == old(epochs) && core == old(core) && margin == old(margin)
        invariant |doses| == epoch
        invariant forall e :: 0 <= e < epoch ==>
                    doses[e] == EpochDose(core, cutshifts[e], g, m, if e == |cutshifts| - 1 then floatpart else 1.0)
        invariant FullDoses(dosesExtra, margin, cutshifts[..epoch], g, m)
      {
        var weight := if epoch == |cutshifts| - 1 then floatpart else 1.0;
        var dose := IntegrateEpoch(core, shifts[epoch], g, m, weight);
        var doseExtra := IntegrateEpoch(margin, shifts[epoch], g, m, 1.0);
        doses := doses + [dose];
        dosesExtra := dosesExtra + [doseExtra];
      }
      assert cutshifts[..|cutshifts|] == cutshifts;
    }

    /** `self.doses`, or `self.doses_extra` when the margin is included. */
    function PadDoses(usePadSpacing: bool): seq<Dose>
      reads this
    {
      if usePadSpacing then doses else dosesExtra
    }

    /** The core rectangle, or the margin rectangle when the margin is included. */
    function PadRect(usePadSpacing: bool): Rect
      reads this
    {
      if usePadSpacing then core else margin
    }

    /** plotDoseEOL: the end-of-life dose raster of the core or of the margin rectangle. */
    method DoseEOL(lumi: real, usePadSpacing: bool) returns (r: Result<DoseEol.Raster, DoseEol.EolError>)
      ensures r == DoseEol.DoseRasterOf(PadDoses(usePadSpacing), epochs, PadRect(usePadSpacing), lumi)
    {
      var ds, rect := doses, core;
      if !usePadSpacing {
        ds, rect := dosesExtra, margin;
      }
      r := DoseEol.DoseRaster(ds, epochs, rect, lumi);
    }

    /** maxDoseEOL: the content of the fullest bin of the raster plotDoseEOL draws. */
    method MaxDoseEOL(lumi: real, usePadSpacing: bool) returns (r: Result<real, DoseEol.EolError>)
      ensures r == DoseEol.EolMaxDose(PadDoses(usePadSpacing), epochs, PadRect(usePadSpacing), lumi)
    {
      var hist := DoseEOL(lumi, usePadSpacing);
      if hist.Err? {
        return Err(hist.error);
      }
      DoseEol.RasterShape(PadDoses(usePadSpacing), epochs, PadRect(usePadSpacing), lumi);
      r := Ok(DoseEol.MaxDose(hist.value));
    }

    /**
     * getVoltageEOL: the bias-voltage window of the raster plotDoseEOL
     * draws, for the given charge function and limits.
     */
    method VoltageEOL(sc: Voltage.ChargeScan, lumi: real, usePadSpacing: bool)
      returns (r: Result<(Option<int>, Option<int>), DoseEol.EolError>)
      ensures r == Voltage.EolWindow(sc, PadDoses(usePadSpacing), epochs, PadRect(usePadSpacing), lumi)
    {
      var hist := DoseEOL(lumi, usePadSpacing);
      if hist.Err? {
        return Err(hist.error);
      }
      var minV, maxV := Voltage.ScanRaster(sc, hist.value);
      r := Ok((minV, maxV));
    }
  }
}
