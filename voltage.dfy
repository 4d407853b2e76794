/**
 * The bias-voltage window of a pad at end of life (SensorPad.getVoltageEOL).
 *
 * Every bin of the dose raster is a fluence; for each bin the voltages
 * 1..maxVolt are tried in turn with the caller's charge function. The bin's
 * lowest working voltage is the first one collecting at least minCharge;
 * its highest is one below the first voltage collecting more than
 * maxCharge, where the scan stops. The pad's window is the largest of the
 * lowest voltages and the smallest of the highest ones, and is empty when
 * some bin never reaches minCharge.
 */
module Voltage {
  import opened Wrappers
  import opened Overlap
  import opened Integrator
  import opened DoseEol

  /** The charge function and the limits getVoltageEOL is called with. */
  datatype ChargeScan = ChargeScan(charge: (int, real) -> real, minCharge: real, maxCharge: real, maxVolt: int)

  const DefaultMinCharge: real := 10.0
  const DefaultMaxCharge: real := 100.0
  const DefaultMaxVolt: int := 700

  /** A bin's working voltages: minVCell and maxVCell. */
  datatype Window = Window(minV: Option<int>, maxV: Option<int>)

  /** The first v in lo..hi satisfying p, if any. */
  function First(p: int -> bool, lo: int, hi: int): (r: Option<int>)
    ensures r.Some? ==> lo <= r.value <= hi && p(r.value) && forall v :: lo <= v < r.value ==> !p(v)
    ensures r.None? ==> forall v :: lo <= v <= hi ==> !p(v)
    decreases hi - lo
  {
    if hi < lo then None
    else
      var f := First(p, lo, hi - 1);
      if f.Some? then f else if p(hi) then Some(hi) else None
  }

  /** Voltage v collects at least minCharge at fluence phi. */
  function Collects(sc: ChargeScan, phi: real): int -> bool
  {
    v => sc.charge(v, phi) >= sc.minCharge
  }

  /** Voltage v collects more than maxCharge at fluence phi. */
  function Saturates(sc: ChargeScan, phi: real): int -> bool
  {
    v => sc.charge(v, phi) > sc.maxCharge
  }

  /**
   * The window of one bin: the scan stops at the first saturating voltage
   * (or at maxVolt), and the lowest working voltage is looked for up to and
   * including that voltage.
   */
  function CellWindow(sc: ChargeScan, phi: real): Window
  {
    var above := First(Saturates(sc, phi), 1, sc.maxVolt);
    var stop := if above.Some? then above.value else sc.maxVolt;
    Window(First(Collects(sc, phi), 1, stop), if above.Some? then Some(above.value - 1) else None)
  }

  /**
   * What a bin's window means: its lowest voltage is the first to collect
   * minCharge; every voltage up to its highest stays at or below maxCharge
   * and the next one exceeds it; with no highest voltage, nothing up to
   * maxVolt exceeds maxCharge.
   */
  lemma CellWindowMeaning(sc: ChargeScan, phi: real)
    ensures var w := CellWindow(sc, phi);
      && (w.minV.Some? ==>
            1 <= w.minV.value <= sc.maxVolt && sc.charge(w.minV.value, phi) >= sc.minCharge &&
            forall v :: 1 <= v < w.minV.value ==> sc.charge(v, phi) < sc.minCharge)
      && (w.maxV.Some? ==>
            0 <= w.maxV.value < sc.maxVolt && sc.charge(w.maxV.value + 1, phi) > sc.maxCharge &&
            forall v :: 1 <= v <= w.maxV.value ==> sc.charge(v, phi) <= sc.maxCharge)
      && (w.maxV.None? ==> forall v :: 1 <= v <= sc.maxVolt ==> sc.charge(v, phi) <= sc.maxCharge)
      && (w.minV.None? && w.maxV.Some? ==> forall v :: 1 <= v <= w.maxV.value + 1 ==> sc.charge(v, phi) < sc.minCharge)
      && (w.minV.Some? && w.maxV.Some? ==> w.minV.value <= w.maxV.value + 1)
  {
    var w := CellWindow(sc, phi);
    var above := First(Saturates(sc, phi), 1, sc.maxVolt);
    if above.Some? {
      forall v | 1 <= v <= w.maxV.value ensures sc.charge(v, phi) <= sc.maxCharge {
        assert !Saturates(sc, phi)(v);
      }
    } else {
      forall v | 1 <= v <= sc.maxVolt ensures sc.charge(v, phi) <= sc.maxCharge {
        assert !Saturates(sc, phi)(v);
      }
    }
    if w.minV.Some? {
      forall v | 1 <= v < w.minV.value ensures sc.charge(v, phi) < sc.minCharge {
        assert !Collects(sc, phi)(v);
      }
    } else if above.Some? {
      forall v | 1 <= v <= w.maxV.value + 1 ensures sc.charge(v, phi) < sc.minCharge {
        assert !Collects(sc, phi)(v);
      }
    }
  }

  /** The voltage loop of one bin, left with `break` at the first saturating voltage. */
  method ScanCell(sc: ChargeScan, phi: real) returns (w: Window)
    ensures w == CellWindow(sc, phi)
  {
    var minVCell: Option<int> := None;
    var maxVCell: Option<int> := None;
    var volt := 1;
    while volt <= sc.maxVolt
      invariant 1 <= volt && (volt <= sc.maxVolt + 1 || volt == 1)
      invariant minVCell == First(Collects(sc, phi), 1, volt - 1)
      invariant maxVCell.None? && First(Saturates(sc, phi), 1, volt - 1).None?
      decreases sc.maxVolt - volt
    {
      var charge := sc.charge(volt, phi);
      if minVCell.None? && charge >= sc.minCharge {
        minVCell := Some(volt);
      }
      if maxVCell.None? && charge > sc.maxCharge {
        maxVCell := Some(volt - 1);
        assert Saturates(sc, phi)(volt);
        assert First(Saturates(sc, phi), 1, sc.maxVolt) == Some(volt);
        return Window(minVCell, maxVCell);
      }
      volt := volt + 1;
    }
    return Window(minVCell, maxVCell);
  }

  // ---------------------------------------------------------------------
  // Combining the bins.

  /** The state of the bin loop: minV, maxV and allCellsWork. */
  datatype Scan = Scan(minV: Option<int>, maxV: Option<int>, allCellsWork: bool)

  const Initial: Scan := Scan(None, None, true)

  /** One bin folded into the scan, in the order of the source's tests. */
  function Combine(a: Scan, w: Window): Scan
  {
    var allWork := if w.minV.None? then false else a.allCellsWork;
    var minV := if a.minV.None? then w.minV else a.minV;
    var maxV := if a.maxV.None? then w.maxV else a.maxV;
    var minV' := if w.minV.Some? && minV.Some? && w.minV.value > minV.value then w.minV else minV;
    var maxV' := if w.maxV.Some? && maxV.Some? && w.maxV.value < maxV.value then w.maxV else maxV;
    Scan(minV', maxV', allWork)
  }

  /** The bins folded in loop order. */
  function Fold(ws: seq<Window>): Scan
    decreases |ws|
  {
    if ws == [] then Initial else Combine(Fold(ws[..|ws| - 1]), ws[|ws| - 1])
  }

  /** The returned pair: nothing when some bin does not work. */
  function Finish(a: Scan): (Option<int>, Option<int>)
  {
    if a.allCellsWork then (a.minV, a.maxV) else (None, None)
  }

  /** The window of the bin with content c: the content is halved into a fluence. */
  function WindowOf(sc: ChargeScan, c: real): Window
  {
    CellWindow(sc, c / 2.0)
  }

  /** The windows of the bins with the given contents, in order. */
  function Windows(sc: ChargeScan, contents: seq<real>): (ws: seq<Window>)
    ensures |ws| == |contents|
    decreases |contents|
  {
    if contents == [] then [] else Windows(sc, contents[..|contents| - 1]) + [WindowOf(sc, contents[|contents| - 1])]
  }

  lemma {:induction false} WindowsAt(sc: ChargeScan, contents: seq<real>, i: nat)
    requires i < |contents|
    ensures Windows(sc, contents)[i] == WindowOf(sc, contents[i])
    decreases |contents|
  {
    if i < |contents| - 1 {
      var front := contents[..|contents| - 1];
      WindowsAt(sc, front, i);
      assert front[i] == contents[i];
    }
  }

  /** getVoltageEOL on a raster: every bin, x bin by x bin. */
  function RasterWindow(sc: ChargeScan, r: Raster): (Option<int>, Option<int>)
  {
    Finish(Fold(Windows(sc, Flatten(r.cells))))
  }

  /** getVoltageEOL of a pad: the window of its raster, or the raster's error. */
  function EolWindow(sc: ChargeScan, doses: seq<Dose>, epochs: int, rect: Rect, lumi: real): Result<(Option<int>, Option<int>), EolError>
  {
    var r := DoseRasterOf(doses, epochs, rect, lumi);
    if r.Err? then Err(r.error) else Ok(RasterWindow(sc, r.value))
  }

  /** The scan stays "working" exactly while every bin has a lowest voltage. */
  lemma {:induction false} FoldAllWork(ws: seq<Window>)
    ensures Fold(ws).allCellsWork <==> forall i :: 0 <= i < |ws| ==> ws[i].minV.Some?
    decreases |ws|
  {
    if ws != [] {
      var front := ws[..|ws| - 1];
      FoldAllWork(front);
      assert forall i :: 0 <= i < |front| ==> front[i] == ws[i];
    }
  }

  /** minV is the largest lowest voltage of the bins, or nothing when no bin has one. */
  lemma {:induction false} FoldMin(ws: seq<Window>)
    ensures var m := Fold(ws).minV;
      && (m.None? <==> forall i :: 0 <= i < |ws| ==> ws[i].minV.None?)
      && (m.Some? ==> exists i :: 0 <= i < |ws| && ws[i].minV == m)
      && (m.Some? ==> forall i :: 0 <= i < |ws| && ws[i].minV.Some? ==> ws[i].minV.value <= m.value)
    decreases |ws|
  {
    if ws != [] {
      var front := ws[..|ws| - 1];
      FoldMin(front);
      assert forall i :: 0 <= i < |front| ==> front[i] == ws[i];
      var m := Fold(front).minV;
      var m' := Fold(ws).minV;
      if m.Some? && m' == m {
        var i :| 0 <= i < |front| && front[i].minV == m;
        assert ws[i].minV == m';
      } else if m'.Some? {
        assert ws[|ws| - 1].minV == m';
      }
    }
  }

  /** maxV is the smallest highest voltage of the bins, or nothing when no bin has one. */
  lemma {:induction false} FoldMax(ws: seq<Window>)
    ensures var m := Fold(ws).maxV;
      && (m.None? <==> forall i :: 0 <= i < |ws| ==> ws[i].maxV.None?)
      && (m.Some? ==> exists i :: 0 <= i < |ws| && ws[i].maxV == m)
      && (m.Some? ==> forall i :: 0 <= i < |ws| && ws[i].maxV.Some? ==> m.value <= ws[i].maxV.value)
    decreases |ws|
  {
    if ws != [] {
      var front := ws[..|ws| - 1];
      FoldMax(front);
      assert forall i :: 0 <= i < |front| ==> front[i] == ws[i];
      var m := Fold(front).maxV;
      var m' := Fold(ws).maxV;
      if m.Some? && m' == m {
        var i :| 0 <= i < |front| && front[i].maxV == m;
        assert ws[i].maxV == m';
      } else if m'.Some? {
        assert ws[|ws| - 1].maxV == m';
      }
    }
  }

  /**
   * The pad's window: a lowest voltage is returned exactly when there are
   * bins and every one reaches minCharge, and it is then the largest of the
   * bins' lowest voltages; a highest voltage is returned only then too, and
   * it is the smallest of the bins' highest voltages.
   */
  lemma WindowMeaning(ws: seq<Window>)
    ensures var (minV, maxV) := Finish(Fold(ws));
      && (minV.Some? <==> |ws| > 0 && forall i :: 0 <= i < |ws| ==> ws[i].minV.Some?)
      && (minV.Some? ==> forall i :: 0 <= i < |ws| ==> ws[i].minV.value <= minV.value)
      && (minV.Some? ==> exists i :: 0 <= i < |ws| && ws[i].minV == minV)
      && (maxV.Some? ==> minV.Some?)
      && (maxV.Some? ==> forall i :: 0 <= i < |ws| && ws[i].maxV.Some? ==> maxV.value <= ws[i].maxV.value)
      && (maxV.Some? ==> exists i :: 0 <= i < |ws| && ws[i].maxV == maxV)
  {
    FoldAllWork(ws);
    FoldMin(ws);
    FoldMax(ws);
  }

  /**
   * For every bin of the raster: the pad's lowest voltage is at least the
   * bin's, the pad's highest voltage at most the bin's, and a bin that never
   * reaches minCharge leaves the pad with no window at all.
   */
  lemma BinWithinWindow(sc: ChargeScan, r: Raster, xBin: nat, yBin: nat)
    requires xBin < |r.cells| && yBin < |r.cells[xBin]|
    ensures var w := WindowOf(sc, r.cells[xBin][yBin]);
      var (minV, maxV) := RasterWindow(sc, r);
      && (minV.Some? ==> w.minV.Some? && w.minV.value <= minV.value)
      && (maxV.Some? && w.maxV.Some? ==> maxV.value <= w.maxV.value)
      && (w.minV.None? ==> minV.None? && maxV.None?)
  {
    var contents := Flatten(r.cells);
    FlattenHolds(r.cells, xBin, yBin);
    var i :| 0 <= i < |contents| && contents[i] == r.cells[xBin][yBin];
    WindowsAt(sc, contents, i);
    WindowMeaning(Windows(sc, contents));
  }

  lemma PrefixStep<T>(a: seq<T>, b: seq<T>, i: nat)
    requires i < |b|
    ensures a + b[..i + 1] == (a + b[..i]) + [b[i]]
  {
    assert b[..i + 1] == b[..i] + [b[i]];
  }

  lemma WindowsSnoc(sc: ChargeScan, s: seq<real>, c: real)
    ensures Windows(sc, s + [c]) == Windows(sc, s) + [WindowOf(sc, c)]
  {
    assert (s + [c])[..|s|] == s;
  }

  lemma FoldSnoc(ws: seq<Window>, w: Window)
    ensures Fold(ws + [w]) == Combine(Fold(ws), w)
  {
    assert (ws + [w])[..|ws|] == ws;
  }

  /** One bin: its content halved into a fluence, then scanned. */
  method ScanBin(sc: ChargeScan, content: real) returns (w: Window)
    ensures w == WindowOf(sc, content)
  {
    var phi := content / 2.0;
    w := ScanCell(sc, phi);
  }

  /** The y loop of one x bin. */
  method ScanColumn(sc: ChargeScan, acc0: Scan, done: seq<real>, column: seq<real>) returns (acc: Scan)
    requires acc0 == Fold(Windows(sc, done))
    ensures acc == Fold(Windows(sc, done + column))
  {
    acc := acc0;
    assert done + column[..0] == done;
    for y := 0 to |column|
      invariant acc == Fold(Windows(sc, done + column[..y]))
    {
      var w := ScanBin(sc, column[y]);
      PrefixStep(done, column, y);
      WindowsSnoc(sc, done + column[..y], column[y]);
      FoldSnoc(Windows(sc, done + column[..y]), w);
      acc := Combine(acc, w);
    }
    assert column[..|column|] == column;
  }

  /** The bin loops of getVoltageEOL over a raster, x bin by x bin. */
  method ScanRaster(sc: ChargeScan, r: Raster) returns (minV: Option<int>, maxV: Option<int>)
    ensures (minV, maxV) == RasterWindow(sc, r)
  {
    var cells := r.cells;
    var acc := Initial;
    for x := 0 to |cells|
      invariant acc == Fold(Windows(sc, Flatten(cells[..x])))
    {
      assert cells[..x + 1][..x] == cells[..x];
      acc := ScanColumn(sc, acc, Flatten(cells[..x]), cells[x]);
    }
    assert cells[..|cells|] == cells;
    minV, maxV := acc.minV, acc.maxV;
    if !acc.allCellsWork {
      minV, maxV := None, None;
    }
  }
}
