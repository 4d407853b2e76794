/**
 * The backing store of a fluence grid: the source's dictionary of
 * dictionaries, x -> (y -> value). Keys are integer grid indices (the sample
 * at (i, j) sits at (xMin + i*xStep, yMin + j*yStep)) instead of coordinates
 * rounded to six decimals. Python dictionaries iterate in insertion order, so
 * the order in which x keys, and y keys within each x, were first stored is
 * kept beside the values; the pad integrator walks the grid in that order.
 */
module FluenceMaps {
  import opened Wrappers

  /** One line of the sample file: x index, y index, fluence value. */
  datatype Sample = Sample(xIdx: int, yIdx: int, value: real)

  datatype FluenceMap = FluenceMap(
    values: map<int, map<int, real>>,
    xOrder: seq<int>,
    yOrder: map<int, seq<int>>)

  const Empty: FluenceMap := FluenceMap(map[], [], map[])

  /** `x in map and y in map[x]` */
  predicate Has(m: FluenceMap, x: int, y: int)
  {
    x in m.values && y in m.values[x]
  }

  /** `map[x][y]`, read as 0 where the sample is absent (callers check Has first). */
  function Get(m: FluenceMap, x: int, y: int): real
  {
    if Has(m, x, y) then m.values[x][y] else 0.0
  }

  /** The y keys of column x, in insertion order (`for y in map[x]`). */
  function Rows(m: FluenceMap, x: int): seq<int>
  {
    if x in m.yOrder then m.yOrder[x] else []
  }

  /** Every stored sample is non-negative. */
  ghost predicate NonNegative(m: FluenceMap)
  {
    forall x, y :: Has(m, x, y) ==> m.values[x][y] >= 0.0
  }

  /**
   * `map[x][y] = v`, creating the inner dictionary for a new x first. A new
   * key goes to the end of its order; an existing key keeps its place and
   * only its value is overwritten.
   */
  function Put(m: FluenceMap, x: int, y: int, v: real): FluenceMap
  {
    if x !in m.values then
      FluenceMap(m.values[x := map[y := v]], m.xOrder + [x], m.yOrder[x := [y]])
    else if y in m.values[x] then
      FluenceMap(m.values[x := m.values[x][y := v]], m.xOrder, m.yOrder)
    else
      FluenceMap(m.values[x := m.values[x][y := v]], m.xOrder, m.yOrder[x := Rows(m, x) + [y]])
  }

  /**
   * After `map[x][y] = v`, (x, y) holds v, every other point is as it was,
   * and a new x goes to the end of the x order.
   */
  lemma PutSpec(m: FluenceMap, x: int, y: int, v: real)
    ensures var m' := Put(m, x, y, v);
      && Has(m', x, y) && Get(m', x, y) == v
      && (forall x', y' :: (x' != x || y' != y) ==>
            (Has(m', x', y') <==> Has(m, x', y')) && Get(m', x', y') == Get(m, x', y'))
      && m'.xOrder == (if x in m.values then m.xOrder else m.xOrder + [x])
  {
  }

  function Background(bg: Option<real>): real
  {
    if bg.Some? then bg.value else 0.0
  }

  /**
   * The dictionary `_loadMap` builds from the samples, in file order, each
   * value raised by the background flux when one is configured.
   */
  function Load(samples: seq<Sample>, bg: Option<real>): FluenceMap
    decreases |samples|
  {
    if samples == [] then Empty
    else
      var last := samples[|samples| - 1];
      Put(Load(samples[..|samples| - 1], bg), last.xIdx, last.yIdx, last.value + Background(bg))
  }

  /** Loading one more line stores that line's value. */
  lemma LoadNext(samples: seq<Sample>, bg: Option<real>, i: int)
    requires 0 <= i < |samples|
    ensures Load(samples[..i + 1], bg)
         == Put(Load(samples[..i], bg), samples[i].xIdx, samples[i].yIdx, samples[i].value + Background(bg))
  {
    assert samples[..i + 1][..i] == samples[..i];
  }

  /** The loop of `_loadMap`: each line's value, plus the background when configured, stored at its point. */
  method LoadSamples(samples: seq<Sample>, addBackgroundFlux: Option<real>) returns (m: FluenceMap)
    ensures m == Load(samples, addBackgroundFlux)
  {
    m := Empty;
    for i := 0 to |samples|
      invariant m == Load(samples[..i], addBackgroundFlux)
    {
      LoadNext(samples, addBackgroundFlux, i);
      var s := samples[i];
      var value := s.value;
      if addBackgroundFlux.Some? {
        value := value + addBackgroundFlux.value;
      }
      assert value == s.value + Background(addBackgroundFlux);
      m := Put(m, s.xIdx, s.yIdx, value);
    }
    assert samples[..|samples|] == samples;
  }

  /** The value of the last sample at (x, y), if any. */
  function LastValue(samples: seq<Sample>, x: int, y: int): Option<real>
    decreases |samples|
  {
    if samples == [] then None
    else
      var last := samples[|samples| - 1];
      if last.xIdx == x && last.yIdx == y then Some(last.value)
      else LastValue(samples[..|samples| - 1], x, y)
  }

  /**
   * After loading, (x, y) is present exactly when some sample names it, and
   * it holds the LAST such sample's value plus the background: a later
   * duplicate overwrites an earlier one.
   */
  lemma {:induction false} LoadLastWins(samples: seq<Sample>, bg: Option<real>, x: int, y: int)
    ensures Has(Load(samples, bg), x, y) <==> LastValue(samples, x, y).Some?
    ensures LastValue(samples, x, y).Some? ==>
              Get(Load(samples, bg), x, y) == LastValue(samples, x, y).value + Background(bg)
    decreases |samples|
  {
    if samples != [] {
      var last := samples[|samples| - 1];
      LoadLastWins(samples[..|samples| - 1], bg, x, y);
      PutSpec(Load(samples[..|samples| - 1], bg), last.xIdx, last.yIdx, last.value + Background(bg));
    }
  }

  /** Loading non-negative samples with a non-negative background gives a non-negative map. */
  lemma {:induction false} LoadNonNegative(samples: seq<Sample>, bg: Option<real>)
    requires forall i :: 0 <= i < |samples| ==> samples[i].value >= 0.0
    requires Background(bg) >= 0.0
    ensures NonNegative(Load(samples, bg))
    decreases |samples|
  {
    if samples != [] {
      LoadNonNegative(samples[..|samples| - 1], bg);
      var m := Load(samples, bg);
      forall x, y | Has(m, x, y) ensures m.values[x][y] >= 0.0 {
        LoadLastWins(samples, bg, x, y);
        LastValueFromSamples(samples, x, y);
      }
    }
  }

  /** A last value is the value of one of the samples. */
  lemma {:induction false} LastValueFromSamples(samples: seq<Sample>, x: int, y: int)
    ensures LastValue(samples, x, y).Some? ==>
              exists i :: 0 <= i < |samples| && samples[i] == Sample(x, y, LastValue(samples, x, y).value)
    decreases |samples|
  {
    if samples != [] {
      var last := samples[|samples| - 1];
      if !(last.xIdx == x && last.yIdx == y) {
        LastValueFromSamples(samples[..|samples| - 1], x, y);
        if LastValue(samples, x, y).Some? {
          var i :| 0 <= i < |samples| - 1 && samples[..|samples| - 1][i] == Sample(x, y, LastValue(samples, x, y).value);
          assert samples[i] == samples[..|samples| - 1][i];
        }
      } else {
        assert samples[|samples| - 1] == Sample(x, y, last.value);
      }
    }
  }
}
