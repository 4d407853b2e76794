/**
 * A sensor (Sensor): a list of pads, the per-epoch shifts every pad is
 * moved by, the sensor bounds, and a flag recording whether the pads' doses
 * have been calculated since the shifts last changed.
 */
module Sensors {
  import opened Wrappers
  import opened Overlap
  import opened FluenceMaps
  import opened Integrator
  import opened Pads
  import DoseEol
  import Hitmaps

  datatype SensorError =
    | NoFlux                    // RuntimeError: the fluxes have not been calculated
    | NoPadForEpoch(epoch: nat) // RuntimeError: no pad to take the maximum occupancy from
    | DoseIndexError            // IndexError: a pad holds fewer doses than there are shifts
    | PadFailure(e: PadError)   // a pad refused calculateFlux

  // ---------------------------------------------------------------------
  // The state of a list of pads.

  /** The index of the first pad whose epoch count is not n, or |pads| when there is none. */
  function FirstMismatch(pads: seq<SensorPad>, n: int): (k: nat)
    reads pads
    ensures k <= |pads|
    ensures k < |pads| ==> pads[k].epochs != n
    ensures forall j :: 0 <= j < k ==> pads[j].epochs == n
    decreases |pads|
  {
    if pads == [] then 0
    else if pads[0].epochs != n then 0
    else 1 + FirstMismatch(pads[1..], n)
  }

  /** The first mismatch is the index before which every pad matches and at which one does not. */
  lemma FirstMismatchAt(pads: seq<SensorPad>, n: int, k: nat)
    requires k <= |pads| && (forall j :: 0 <= j < k ==> pads[j].epochs == n) && (k < |pads| ==> pads[k].epochs != n)
    ensures FirstMismatch(pads, n) == k
  {
  }

  /** Every pad's doses (usePadSpacing) or margin doses (otherwise), pad by pad. */
  function DoseTable(pads: seq<SensorPad>, usePadSpacing: bool): seq<seq<Dose>>
    reads pads
  {
    seq(|pads|, i requires 0 <= i < |pads| reads pads => pads[i].PadDoses(usePadSpacing))
  }

  /** Every pad's maxDoseEOL, pad by pad. */
  function EolTable(pads: seq<SensorPad>, lumi: real, usePadSpacing: bool): seq<Result<real, DoseEol.EolError>>
    reads pads
  {
    seq(|pads|, i requires 0 <= i < |pads| reads pads =>
      DoseEol.EolMaxDose(pads[i].PadDoses(usePadSpacing), pads[i].epochs, pads[i].PadRect(usePadSpacing), lumi))
  }

  lemma EolTableAt(pads: seq<SensorPad>, lumi: real, usePadSpacing: bool, i: nat)
    requires i < |pads|
    ensures |EolTable(pads, lumi, usePadSpacing)| == |pads|
    ensures EolTable(pads, lumi, usePadSpacing)[i]
              == DoseEol.EolMaxDose(pads[i].PadDoses(usePadSpacing), pads[i].epochs, pads[i].PadRect(usePadSpacing), lumi)
  {
  }

  /** The loop of setShifts: every pad's epoch count becomes n; nothing else changes. */
  method SetAllEpochs(pads: seq<SensorPad>, n: nat)
    requires forall i :: 0 <= i < |pads| ==> pads[i].Valid()
    modifies pads
    ensures forall i :: 0 <= i < |pads| ==> pads[i].Valid() && pads[i].epochs == n
    ensures forall i :: 0 <= i < |pads| ==>
              && pads[i].core == old(pads[i].core) && pads[i].margin == old(pads[i].margin)
              && pads[i].doses == old(pads[i].doses) && pads[i].dosesExtra == old(pads[i].dosesExtra)
  {
    for i := 0 to |pads|
      invariant forall j :: 0 <= j < |pads| ==> pads[j].Valid()
      invariant forall j :: 0 <= j < i ==> pads[j].epochs == n
      invariant forall j :: 0 <= j < |pads| ==>
                  && pads[j].core == old(pads[j].core) && pads[j].margin == old(pads[j].margin)
                  && pads[j].doses == old(pads[j].doses) && pads[j].dosesExtra == old(pads[j].dosesExtra)
    {
      var _ := pads[i].SetEpochs(n);
    }
  }

  /** Pad i is none of the first k pads. */
  predicate NotAmong(pads: seq<SensorPad>, k: nat, i: nat)
    requires k <= |pads| && i < |pads|
  {
    forall j :: 0 <= j < k ==> pads[j] != pads[i]
  }

  /**
   * The loop of calculateFlux: the pads in order until the first one whose
   * epoch count is not the number of shifts, which refuses. Every pad before
   * it holds the doses of every shift; a pad from it on that is not also an
   * earlier pad is untouched.
   */
  method FluxPads(pads: seq<SensorPad>, shifts: seq<Shift>, g: Geometry, m: FluenceMap) returns (k: nat)
    requires forall i :: 0 <= i < |pads| ==> pads[i].Valid()
    modifies pads
    ensures k <= |pads| && (forall j :: 0 <= j < k ==> pads[j].epochs == |shifts|) && (k < |pads| ==> pads[k].epochs != |shifts|)
    ensures forall i :: 0 <= i < |pads| ==>
              && pads[i].Valid() && pads[i].epochs == old(pads[i].epochs)
              && pads[i].core == old(pads[i].core) && pads[i].margin == old(pads[i].margin)
    ensures forall i :: 0 <= i < k ==>
              pads[i].HasFullDoses(shifts, g, m)
    ensures forall i :: k <= i < |pads| && NotAmong(pads, k, i) ==>
              pads[i].doses == old(pads[i].doses) && pads[i].dosesExtra == old(pads[i].dosesExtra)
  {
    for i := 0 to |pads|
      invariant forall j :: 0 <= j < |pads| ==>
                  && pads[j].Valid() && pads[j].epochs == old(pads[j].epochs)
                  && pads[j].core == old(pads[j].core) && pads[j].margin == old(pads[j].margin)
      invariant forall j :: 0 <= j < i ==> pads[j].epochs == |shifts| && pads[j].HasFullDoses(shifts, g, m)
      invariant forall j :: i <= j < |pads| && NotAmong(pads, i, j) ==> unchanged(pads[j])
    {
      var r := pads[i].CalculateFlux(shifts, g, m);
      if r.Err? {
        return i;
      }
    }
    k := |pads|;
  }

  // ---------------------------------------------------------------------
  // findMaxOccupancy.

  /** The running argmax over xs[..n]: a later entry replaces the kept one only when strictly larger. */
  function ArgMax(xs: seq<real>, n: nat): (k: nat)
    requires 0 < n <= |xs|
    ensures k < n
  {
    if n == 1 then 0
    else
      var p := ArgMax(xs, n - 1);
      if xs[n - 1] > xs[p] then n - 1 else p
  }

  /** The kept entry is the first maximum of xs[..n]. */
  lemma {:induction false} ArgMaxIsFirstMaximum(xs: seq<real>, n: nat)
    requires 0 < n <= |xs|
    ensures var k := ArgMax(xs, n);
      && k < n
      && (forall j :: 0 <= j < n ==> xs[j] <= xs[k])
      && (forall j :: 0 <= j < k ==> xs[j] < xs[k])
  {
    if n > 1 {
      ArgMaxIsFirstMaximum(xs, n - 1);
    }
  }

  /** The occupancies of one epoch, pad by pad (0 for a pad without that epoch). */
  function Column(table: seq<seq<Dose>>, epoch: nat): (c: seq<real>)
    ensures |c| == |table|
    ensures forall i :: 0 <= i < |table| && epoch < |table[i]| ==> c[i] == table[i][epoch].occupancy
  {
    seq(|table|, i requires 0 <= i < |table| => if epoch < |table[i]| then table[i][epoch].occupancy else 0.0)
  }

  /** Every pad holds a dose for the epoch. */
  predicate AllHave(table: seq<seq<Dose>>, epoch: nat)
  {
    forall i :: 0 <= i < |table| ==> epoch < |table[i]|
  }

  /**
   * The maximum occupancy of one epoch: an error without pads, an index
   * error when a pad lacks the epoch, otherwise the occupancy of the first
   * pad with the largest one.
   */
  function EpochMax(table: seq<seq<Dose>>, epoch: nat): Result<real, SensorError>
  {
    if |table| == 0 then Err(NoPadForEpoch(epoch))
    else if !AllHave(table, epoch) then Err(DoseIndexError)
    else Ok(table[ArgMax(Column(table, epoch), |table|)][epoch].occupancy)
  }

  /** The maximum occupancies of epochs 0 .. n-1, stopping at the first epoch that fails. */
  function MaxOccupancies(table: seq<seq<Dose>>, n: nat): Result<seq<real>, SensorError>
  {
    if n == 0 then Ok([])
    else
      var prev := MaxOccupancies(table, n - 1);
      if prev.Err? then prev
      else
        var cur := EpochMax(table, n - 1);
        if cur.Err? then Err(cur.error) else Ok(prev.value + [cur.value])
  }

  /** An epoch that fails fails every longer scan with the same error. */
  lemma {:induction false} MaxOccupanciesErrPersists(table: seq<seq<Dose>>, i: nat, n: nat)
    requires i <= n && MaxOccupancies(table, i).Err?
    ensures MaxOccupancies(table, n) == MaxOccupancies(table, i)
    decreases n
  {
    if i < n {
      MaxOccupanciesErrPersists(table, i, n - 1);
    }
  }

  /**
   * One epoch succeeds exactly when there are pads and each holds the
   * epoch; then it is the occupancy of the first pad whose occupancy is
   * largest. Without pads it names the epoch; otherwise a short pad gives
   * the index error.
   */
  lemma EpochMaxSpec(table: seq<seq<Dose>>, e: nat)
    ensures var r := EpochMax(table, e);
      && (r.Ok? <==> |table| > 0 && AllHave(table, e))
      && (r.Ok? ==>
            && (forall j :: 0 <= j < |table| ==> table[j][e].occupancy <= r.value)
            && (exists k :: 0 <= k < |table| && table[k][e].occupancy == r.value
                  && forall j :: 0 <= j < k ==> table[j][e].occupancy < r.value))
      && (|table| == 0 ==> r == Err(NoPadForEpoch(e)))
      && (|table| > 0 && r.Err? ==> r == Err(DoseIndexError))
  {
    if |table| > 0 && AllHave(table, e) {
      var c := Column(table, e);
      ArgMaxIsFirstMaximum(c, |table|);
      var k := ArgMax(c, |table|);
      var v := table[k][e].occupancy;
      assert EpochMax(table, e) == Ok(v);
      forall j | 0 <= j < |table| ensures table[j][e].occupancy <= v {
        assert c[j] == table[j][e].occupancy;
      }
      forall j | 0 <= j < k ensures table[j][e].occupancy < v {
        assert c[j] == table[j][e].occupancy;
      }
    }
  }

  /**
   * findMaxOccupancy over n epochs succeeds exactly when there are no epochs
   * or there are pads and each holds all n doses. Then entry e is the
   * occupancy of the first pad whose epoch-e occupancy is largest: some
   * pad's, at least every pad's, and above every earlier pad's. Without pads
   * the first epoch fails; otherwise a short pad gives the index error.
   */
  lemma {:induction false} MaxOccupanciesSpec(table: seq<seq<Dose>>, n: nat)
    ensures var r := MaxOccupancies(table, n);
      && (r.Ok? <==> n == 0 || (|table| > 0 && forall i :: 0 <= i < |table| ==> n <= |table[i]|))
      && (r.Ok? ==> |r.value| == n)
      && (r.Ok? ==> forall e :: 0 <= e < n ==>
            && (forall j :: 0 <= j < |table| ==> table[j][e].occupancy <= r.value[e])
            && (exists k :: 0 <= k < |table| && table[k][e].occupancy == r.value[e]
                  && forall j :: 0 <= j < k ==> table[j][e].occupancy < r.value[e]))
      && (n > 0 && |table| == 0 ==> r == Err(NoPadForEpoch(0)))
      && (n > 0 && |table| > 0 && r.Err? ==> r == Err(DoseIndexError))
    decreases n
  {
    if n > 0 {
      MaxOccupanciesSpec(table, n - 1);
      EpochMaxSpec(table, n - 1);
      var prev := MaxOccupancies(table, n - 1);
      var cur := EpochMax(table, n - 1);
      var r := MaxOccupancies(table, n);
      if |table| > 0 && !AllHave(table, n - 1) {
        var i :| 0 <= i < |table| && n - 1 >= |table[i]|;
        assert !(n <= |table[i]|);
      }
      if r.Ok? {
        assert r.value == prev.value + [cur.value];
        forall e | 0 <= e < n
          ensures && (forall j :: 0 <= j < |table| ==> table[j][e].occupancy <= r.value[e])
                  && (exists k :: 0 <= k < |table| && table[k][e].occupancy == r.value[e]
                        && forall j :: 0 <= j < k ==> table[j][e].occupancy < r.value[e])
        {
          if e < n - 1 {
            assert r.value[e] == prev.value[e];
          } else {
            assert r.value[e] == cur.value;
          }
        }
      }
    }
  }

  /** One epoch of findMaxOccupancy: the running argmax over the pads. */
  method EpochMaxOccupancy(table: seq<seq<Dose>>, epoch: nat) returns (r: Result<real, SensorError>)
    ensures r == EpochMax(table, epoch)
  {
    var padIdx: Option<nat> := None;
    for idx := 0 to |table|
      invariant idx == 0 <==> padIdx.None?
      invariant padIdx.Some? ==> padIdx.value < idx && padIdx.value == ArgMax(Column(table, epoch), idx)
      invariant idx >= 2 ==> forall j :: 0 <= j < idx ==> epoch < |table[j]|
    {
      if padIdx.None? {
        padIdx := Some(idx);
      } else {
        if epoch >= |table[idx]| || epoch >= |table[padIdx.value]| {
          return Err(DoseIndexError);
        }
        if table[idx][epoch].occupancy > table[padIdx.value][epoch].occupancy {
          padIdx := Some(idx);
        }
      }
    }
    if padIdx.None? {
      return Err(NoPadForEpoch(epoch));
    }
    if epoch >= |table[padIdx.value]| {
      return Err(DoseIndexError);
    }
    r := Ok(table[padIdx.value][epoch].occupancy);
  }

  /** A successful epoch extends a successful scan by its maximum. */
  lemma MaxOccupanciesStep(table: seq<seq<Dose>>, e: nat, occupancy: seq<real>, v: real)
    requires MaxOccupancies(table, e) == Ok(occupancy) && EpochMax(table, e) == Ok(v)
    ensures MaxOccupancies(table, e + 1) == Ok(occupancy + [v])
  {
  }

  /** A failing epoch fails the scan that reaches it with its error. */
  lemma MaxOccupanciesFail(table: seq<seq<Dose>>, e: nat, occupancy: seq<real>)
    requires MaxOccupancies(table, e) == Ok(occupancy) && EpochMax(table, e).Err?
    ensures MaxOccupancies(table, e + 1) == Err(EpochMax(table, e).error)
  {
  }

  /** The epoch loop of findMaxOccupancy. */
  method MaxOccupancyScan(table: seq<seq<Dose>>, n: nat) returns (r: Result<seq<real>, SensorError>)
    ensures r == MaxOccupancies(table, n)
  {
    var occupancy: seq<real> := [];
    for epoch := 0 to n
      invariant MaxOccupancies(table, epoch) == Ok(occupancy)
    {
      var cur := EpochMaxOccupancy(table, epoch);
      if cur.Err? {
        MaxOccupanciesFail(table, epoch, occupancy);
        MaxOccupanciesErrPersists(table, epoch + 1, n);
        return Err(cur.error);
      }
      MaxOccupanciesStep(table, epoch, occupancy, cur.value);
      occupancy := occupancy + [cur.value];
    }
    r := Ok(occupancy);
  }

  // ---------------------------------------------------------------------
  // maxDoseEOL.

  /**
   * The running maximum over the pads' end-of-life doses: None without
   * pads, a later dose replacing the kept one only when strictly larger;
   * the first pad that fails ends the scan with its error.
   */
  function RunningMax(rs: seq<Result<real, DoseEol.EolError>>): Result<Option<real>, DoseEol.EolError>
    decreases |rs|
  {
    if rs == [] then Ok(None)
    else
      var prev := RunningMax(rs[..|rs| - 1]);
      var last := rs[|rs| - 1];
      if prev.Err? then prev
      else if last.Err? then Err(last.error)
      else if prev.value.None? || last.value > prev.value.value then Ok(Some(last.value))
      else prev
  }

  /** A failing prefix fails the whole scan with the same error. */
  lemma {:induction false} RunningMaxErrPersists(rs: seq<Result<real, DoseEol.EolError>>, i: nat)
    requires i <= |rs| && RunningMax(rs[..i]).Err?
    ensures RunningMax(rs) == RunningMax(rs[..i])
    decreases |rs|
  {
    if i < |rs| {
      assert rs[..|rs| - 1][..i] == rs[..i];
      RunningMaxErrPersists(rs[..|rs| - 1], i);
    } else {
      assert rs[..i] == rs;
    }
  }

  /** One more pad's dose: its error ends the scan, a larger dose replaces the kept one. */
  lemma RunningMaxSnoc(rs: seq<Result<real, DoseEol.EolError>>, i: nat, kept: Option<real>)
    requires i < |rs| && RunningMax(rs[..i]) == Ok(kept)
    ensures rs[i].Err? ==> RunningMax(rs[..i + 1]) == Err(rs[i].error)
    ensures rs[i].Ok? && (kept.None? || rs[i].value > kept.value) ==> RunningMax(rs[..i + 1]) == Ok(Some(rs[i].value))
    ensures rs[i].Ok? && kept.Some? && rs[i].value <= kept.value ==> RunningMax(rs[..i + 1]) == Ok(kept)
  {
    assert rs[..i + 1][..i] == rs[..i];
  }

  /**
   * maxDoseEOL succeeds exactly when every pad does, and then is None
   * exactly without pads and otherwise one pad's dose that no pad exceeds;
   * a failure carries the error of the first failing pad.
   */
  lemma {:induction false} RunningMaxSpec(rs: seq<Result<real, DoseEol.EolError>>)
    ensures var r := RunningMax(rs);
      && (r.Ok? <==> forall i :: 0 <= i < |rs| ==> rs[i].Ok?)
      && (r.Ok? ==> (r.value.None? <==> rs == []))
      && (r.Ok? && r.value.Some? ==>
            && (exists i :: 0 <= i < |rs| && rs[i] == Ok(r.value.value))
            && (forall i :: 0 <= i < |rs| ==> rs[i].value <= r.value.value))
      && (r.Err? ==> exists i :: 0 <= i < |rs| && rs[i] == Err(r.error) && forall j :: 0 <= j < i ==> rs[j].Ok?)
    decreases |rs|
  {
    if rs != [] {
      var init := rs[..|rs| - 1];
      RunningMaxSpec(init);
      assert forall i :: 0 <= i < |init| ==> rs[i] == init[i];
      var r := RunningMax(rs);
      if RunningMax(init).Err? {
        var i :| 0 <= i < |init| && init[i] == Err(RunningMax(init).error) && forall j :: 0 <= j < i ==> init[j].Ok?;
        assert rs[i] == Err(r.error);
      } else if r.Err? {
        assert rs[|rs| - 1] == Err(r.error);
      } else if r.value.value != rs[|rs| - 1].value {
        var i :| 0 <= i < |init| && init[i] == Ok(r.value.value);
        assert rs[i] == Ok(r.value.value);
      }
    }
  }

  // ---------------------------------------------------------------------
  // The sensor.

  class Sensor {
    var numPads: int
    var shifts: seq<Shift>
    var minX: real
    var maxX: real
    var minY: real
    var maxY: real
    var padVec: seq<SensorPad>
    var hasFlux: bool

    /** numPads is a non-negative integer field and every pad's epoch count is one too. */
    ghost predicate Valid()
      reads this, padVec
    {
      numPads >= 0 && forall i :: 0 <= i < |padVec| ==> padVec[i].Valid()
    }

    /** Sensor(shifts): no pads, all bounds 0, no fluxes. */
    constructor (shifts: seq<Shift>)
      ensures Valid()
      ensures this.shifts == shifts && numPads == 0 && padVec == [] && !hasFlux
      ensures minX == 0.0 && maxX == 0.0 && minY == 0.0 && maxY == 0.0
    {
      this.shifts := shifts;
      numPads := 0;
      padVec := [];
      minX, maxX, minY, maxY := 0.0, 0.0, 0.0, 0.0;
      hasFlux := false;
    }

    /**
     * setShifts: the new shifts, every pad's epoch count set to their
     * number, and the fluxes marked stale; the pads keep their rectangles
     * and doses.
     */
    method SetShifts(shifts: seq<Shift>)
      requires Valid()
      modifies this, padVec
      ensures Valid()
      ensures this.shifts == shifts && !hasFlux
      ensures padVec == old(padVec) && numPads == old(numPads)
      ensures minX == old(minX) && maxX == old(maxX) && minY == old(minY) && maxY == old(maxY)
      ensures forall i :: 0 <= i < |padVec| ==> padVec[i].epochs == |shifts|
      ensures forall i :: 0 <= i < |padVec| ==>
                && padVec[i].core == old(padVec[i].core) && padVec[i].margin == old(padVec[i].margin)
                && padVec[i].doses == old(padVec[i].doses) && padVec[i].dosesExtra == old(padVec[i].dosesExtra)
    {
      this.shifts := shifts;
      SetAllEpochs(padVec, |shifts|);
      hasFlux := false;
    }

    /**
     * calculateFlux: the hitmap's map is checked, then every pad calculates
     * its doses for the sensor's shifts in order. The first pad whose epoch
     * count is not the number of shifts refuses, leaving the pads before it
     * calculated and the flag as it was; only a complete pass sets the flag.
     */
    method CalculateFlux(hitmap: Hitmaps.PPSHitmap) returns (r: Result<(), SensorError>)
      requires Valid()
      requires hitmap.xStep > 0.0 && hitmap.yStep > 0.0
      modifies this, padVec, hitmap
      ensures Valid()
      ensures old(hitmap.fluenceMap).Some? ==> hitmap.fluenceMap == old(hitmap.fluenceMap)
      ensures old(hitmap.fluenceMap).None? ==> hitmap.fluenceMap == Some(Load(hitmap.samples, hitmap.addBackgroundFlux))
      ensures hitmap.validated == old(hitmap.validated) && hitmap.scanned == old(hitmap.scanned) && hitmap.maxFluence == old(hitmap.maxFluence)
      ensures padVec == old(padVec) && shifts == old(shifts) && numPads == old(numPads)
      ensures forall i :: 0 <= i < |padVec| ==>
                && padVec[i].epochs == old(padVec[i].epochs)
                && padVec[i].core == old(padVec[i].core) && padVec[i].margin == old(padVec[i].margin)
      ensures var k := FirstMismatch(padVec, |shifts|);
        && (r.Ok? <==> k == |padVec|)
        && (r.Ok? ==> hasFlux)
        && (r.Err? ==> r == Err(PadFailure(ShiftCountMismatch)) && hasFlux == old(hasFlux))
        && (forall i :: 0 <= i < k ==> padVec[i].HasFullDoses(shifts, hitmap.Grid(), hitmap.fluenceMap.value))
        && (forall i :: k <= i < |padVec| && NotAmong(padVec, k, i) ==>
              padVec[i].doses == old(padVec[i].doses) && padVec[i].dosesExtra == old(padVec[i].dosesExtra))
    {
      hitmap.CheckMap();
      var g: Geometry := hitmap.Grid();
      var k := FluxPads(padVec, shifts, g, hitmap.fluenceMap.value);
      FirstMismatchAt(padVec, |shifts|, k);
      if k < |padVec| {
        return Err(PadFailure(ShiftCountMismatch));
      }
      hasFlux := true;
      r := Ok(());
    }

    /**
     * findMaxOccupancy: refused until the fluxes are calculated; otherwise
     * the maximum occupancy of each epoch over the pads' doses
     * (usePadSpacing) or margin doses, see MaxOccupanciesSpec.
     */
    method FindMaxOccupancy(usePadSpacing: bool) returns (r: Result<seq<real>, SensorError>)
      ensures !hasFlux ==> r == Err(NoFlux)
      ensures hasFlux ==> r == MaxOccupancies(DoseTable(padVec, usePadSpacing), |shifts|)
    {
      if !hasFlux {
        return Err(NoFlux);
      }
      r := MaxOccupancyScan(DoseTable(padVec, usePadSpacing), |shifts|);
    }

    /**
     * maxDoseEOL: the largest of the pads' end-of-life doses, None without
     * pads; the first pad that fails ends it with its error. See
     * RunningMaxSpec.
     */
    method MaxDoseEOL(lumi: real, usePadSpacing: bool) returns (r: Result<Option<real>, DoseEol.EolError>)
      ensures r == RunningMax(EolTable(padVec, lumi, usePadSpacing))
    {
      ghost var table := EolTable(padVec, lumi, usePadSpacing);
      var maxDose: Option<real> := None;
      for i := 0 to |padVec|
        invariant RunningMax(table[..i]) == Ok(maxDose)
      {
        var padDose := padVec[i].MaxDoseEOL(lumi, usePadSpacing);
        EolTableAt(padVec, lumi, usePadSpacing, i);
        RunningMaxSnoc(table, i, maxDose);
        if padDose.Err? {
          RunningMaxErrPersists(table, i + 1);
          return Err(padDose.error);
        }
        if maxDose.None? || padDose.value > maxDose.value {
          maxDose := Some(padDose.value);
        }
      }
      assert table[..|padVec|] == table;
      r := Ok(maxDose);
    }
  }
}
