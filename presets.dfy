/**
 * The preset sensors (CustomizedSensors): each preset fixes the sensor
 * bounds and appends its pads column by column, every pad made with one
 * epoch per shift. A preset's pads are described here as a list of blocks,
 * each a rectangle of equally sized cells appended row by row; a pad is its
 * cell with every side pulled in by half the inter-pad spacing, so that the
 * pad's margin rectangle is the cell again.
 */
module Presets {
  import opened Overlap
  import opened Pads
  import opened Sensors

  /** Pad size, inter-pad spacing and guard ring of a preset, in millimetres. */
  datatype Params = Params(padSize: real, padSpacing: real, guardRing: real)

  /** The defaults of the ETL and PPS hybrid presets. */
  const HybridDefaults := Params(1.3, 0.1, 0.3)

  /** The defaults of the TI production presets. */
  const TIDefaults := Params(1.3, 0.03, 0.3)

  /** SimpleETLSensor's fixed pad size, and its size: 16 pads, no spacing and no guard ring. */
  const SimplePadSize: real := 1.3
  const SimpleSize: real := SimplePadSize * 16.0

  datatype Preset =
    | SimpleETL
    | RealisticETL(params: Params)
    | PPSHybrid(n: int, params: Params)      // PPSHybrid1Sensor .. PPSHybrid11Sensor
    | TIProduction(n: int, params: Params)   // TIProduction1Sensor .. TIProduction3Sensor

  predicate Known(preset: Preset)
  {
    match preset
    case SimpleETL => true
    case RealisticETL(_) => true
    case PPSHybrid(n, _) => 1 <= n <= 11
    case TIProduction(n, _) => 1 <= n <= 3
  }

  // ---------------------------------------------------------------------
  // Blocks of pads.

  /** nx by ny cells of the given width and height from (xEdge, yEdge), appended row by row. */
  datatype Block = Block(xEdge: real, width: real, nx: nat, yEdge: real, height: real, ny: nat)

  /** Cell (xi, y) of the block. */
  function CellAt(b: Block, xi: int, y: int): Rect
  {
    Rect(b.xEdge + xi as real * b.width, b.xEdge + (xi + 1) as real * b.width,
         b.yEdge + y as real * b.height, b.yEdge + (y + 1) as real * b.height)
  }

  /** The pad in cell (xi, y): its sides pulled in by s. */
  function PadAt(b: Block, xi: int, y: int, s: real): Rect
  {
    Rect(b.xEdge + xi as real * b.width + s, b.xEdge + (xi + 1) as real * b.width - s,
         b.yEdge + y as real * b.height + s, b.yEdge + (y + 1) as real * b.height - s)
  }

  /** The pads of a block in the order the source appends them: y outer, x inner. */
  function BlockPads(b: Block, s: real): (pads: seq<Rect>)
    ensures |pads| == b.ny * b.nx
  {
    if b.nx == 0 then []
    else seq(b.ny * b.nx, k requires 0 <= k < b.ny * b.nx => PadAt(b, k % b.nx, k / b.nx, s))
  }

  /** The pads of all blocks, block after block. */
  function Layout(blocks: seq<Block>, s: real): seq<Rect>
    decreases |blocks|
  {
    if blocks == [] then [] else Layout(blocks[..|blocks| - 1], s) + BlockPads(blocks[|blocks| - 1], s)
  }

  /** The number of pads of all blocks. */
  function PadCount(blocks: seq<Block>): nat
    decreases |blocks|
  {
    if blocks == [] then 0 else PadCount(blocks[..|blocks| - 1]) + blocks[|blocks| - 1].ny * blocks[|blocks| - 1].nx
  }

  lemma {:induction false} LayoutLength(blocks: seq<Block>, s: real)
    ensures |Layout(blocks, s)| == PadCount(blocks)
    decreases |blocks|
  {
    if blocks != [] {
      LayoutLength(blocks[..|blocks| - 1], s);
    }
  }

  /** Appending blocks appends their pads. */
  lemma {:induction false} LayoutAppend(a: seq<Block>, b: seq<Block>, s: real)
    ensures Layout(a + b, s) == Layout(a, s) + Layout(b, s)
    ensures PadCount(a + b) == PadCount(a) + PadCount(b)
    decreases |b|
  {
    if b != [] {
      var b' := b[..|b| - 1];
      assert (a + b)[..|a + b| - 1] == a + b';
      LayoutAppend(a, b', s);
    } else {
      assert a + b == a;
    }
  }

  /** Blocks of c pads each hold |blocks| * c pads. */
  lemma {:induction false} PadCountUniform(blocks: seq<Block>, c: nat)
    requires forall i :: 0 <= i < |blocks| ==> blocks[i].ny * blocks[i].nx == c
    ensures PadCount(blocks) == |blocks| * c
    decreases |blocks|
  {
    if blocks != [] {
      PadCountUniform(blocks[..|blocks| - 1], c);
    }
  }

  lemma MulStep(k: nat, n: nat, c: nat, j: nat)
    requires k < n && j < c
    ensures k * c + j < n * c
  {
    assert k * c + j < (k + 1) * c;
    assert (k + 1) * c <= n * c;
  }

  /** With c pads per block, pad j of block k is pad k * c + j. */
  lemma {:induction false} LayoutUniformIndex(blocks: seq<Block>, s: real, c: nat, k: nat, j: nat, i: nat)
    requires forall b :: 0 <= b < |blocks| ==> blocks[b].ny * blocks[b].nx == c
    requires k < |blocks| && j < c && i == k * c + j
    ensures j < |BlockPads(blocks[k], s)|
    ensures i < |Layout(blocks, s)| && Layout(blocks, s)[i] == BlockPads(blocks[k], s)[j]
    decreases |blocks|
  {
    var init := blocks[..|blocks| - 1];
    LayoutLength(init, s);
    PadCountUniform(init, c);
    LayoutLength(blocks, s);
    PadCountUniform(blocks, c);
    MulStep(k, |blocks|, c, j);
    if k < |blocks| - 1 {
      LayoutUniformIndex(init, s, c, k, j, i);
    } else {
      assert k * c == |Layout(init, s)|;
    }
  }

  // ---------------------------------------------------------------------
  // The presets' columns.

  /** Columns [lo, hi) of pad sizes from the sensitive edge: column x spans [x, x + 1) unless widened. */
  function ColumnSpan(x: int, wide: map<int, (int, int)>): (int, int)
  {
    if x in wide then wide[x] else (x, x + 1)
  }

  /** One column: `rows` cells of side p upwards from ey, across columns [lo, hi) counted from ex. */
  function StripBlock(ex: real, p: real, span: (int, int), ey: real, rows: nat): Block
  {
    Block(ex + span.0 as real * p, (span.1 - span.0) as real * p, 1, ey, p, rows)
  }

  /** The columns from .. to-1 of a preset's column loop. */
  function Strips(ex: real, p: real, from: nat, to: nat, wide: map<int, (int, int)>, ey: real, rows: nat): (bs: seq<Block>)
    ensures |bs| == if to >= from then to - from else 0
    ensures forall i :: 0 <= i < |bs| ==> bs[i] == StripBlock(ex, p, ColumnSpan(from + i, wide), ey, rows)
  {
    seq(if to >= from then to - from else 0, i => StripBlock(ex, p, ColumnSpan(from + i, wide), ey, rows))
  }

  /** The first column of a hybrid split into n cells of height p / n, 16 * n of them. */
  function SplitRows(e: real, p: real, n: nat): Block
    requires n > 0
  {
    Block(e, p, 1, e, p / n as real, 16 * n)
  }

  /** A first column of 2 by 32 quarter-size pads (PPSHybrid5, 6 and 8). */
  function SplitColumn(e: real, p: real): seq<Block>
  {
    [Block(e, p / 2.0, 2, e, p / 2.0, 32)]
  }

  /**
   * A first column of 32 quarter-size pads in its left half and 16
   * half-width pads in its right half (PPSHybrid10 and 11).
   */
  function HalfColumns(e: real, p: real): seq<Block>
  {
    [Block(e, p / 2.0, 1, e, p / 2.0, 32), Block(e + p / 2.0, p / 2.0, 1, e, p, 16)]
  }

  /**
   * A preset's column loop: the blocks its first column gets, then the
   * columns from .. to-1, each `rows` pads of side padSize from (ex, ey),
   * the columns named in `wide` widened to the span given there.
   */
  datatype Columns = Columns(head: seq<Block>, ex: real, ey: real, from: nat, to: nat, wide: map<int, (int, int)>, rows: nat)

  function PadSize(preset: Preset): real
  {
    if preset.SimpleETL? then SimplePadSize else preset.params.padSize
  }

  function HybridColumns(n: int, p: real): Columns
  {
    var e := -p * 8.0;
    var split := SplitColumn(e, p);
    var halvesThenFull := HalfColumns(e, p);
    if n == 1 then Columns([SplitRows(e, p, 2)], e, e, 1, 15, map[14 := (14, 16)], 16)
    else if n == 2 then Columns([SplitRows(e, p, 3)], e, e, 1, 14, map[13 := (13, 16)], 16)
    else if n == 3 then Columns([SplitRows(e, p, 4)], e, e, 1, 13, map[12 := (12, 16)], 16)
    else if n == 4 then Columns([SplitRows(e, p, 4)], e, e, 1, 13, map[11 := (11, 13), 12 := (13, 16)], 16)
    else if n == 5 then Columns(split, e, e, 1, 13, map[12 := (12, 16)], 16)
    else if n == 6 then Columns(split, e, e, 1, 13, map[11 := (11, 13), 12 := (13, 16)], 16)
    else if n == 7 then Columns([SplitRows(e, p, 4)], e, e, 1, 13, map[10 := (10, 12), 11 := (12, 14), 12 := (14, 16)], 16)
    else if n == 8 then Columns(split, e, e, 1, 13, map[10 := (10, 12), 11 := (12, 14), 12 := (14, 16)], 16)
    else if n == 9 then Columns([SplitRows(e, p, 3)], e, e, 1, 14, map[12 := (12, 14), 13 := (14, 16)], 16)
    else if n == 10 then Columns(halvesThenFull, e, e, 1, 14, map[13 := (13, 16)], 16)
    else Columns(halvesThenFull, e, e, 1, 14, map[12 := (12, 14), 13 := (14, 16)], 16)
  }

  function TIColumns(n: int, p: real): Columns
  {
    if n == 1 then
      var e := -p * 1.5;
      Columns([Block(e, p, 1, e, p / 4.0, 12)], e, e, 1, 3, map[], 3)
    else if n == 2 then
      Columns([Block(-p, p, 1, -p * 0.5, p / 4.0, 4)], -p, -p * 0.5, 1, 2, map[], 1)
    else
      var e := -p * 2.5;
      Columns([Block(e, p, 1, e, p / 4.0, 20)], e, e, 1, 4, map[3 := (3, 5)], 5)
  }

  function ColumnsOf(preset: Preset): Columns
  {
    match preset
    case SimpleETL => Columns([], -SimplePadSize * 8.0, -SimplePadSize * 8.0, 0, 16, map[], 16)
    case RealisticETL(prm) =>
      var e := -prm.padSize * 8.0;
      Columns([], e, e, 0, 16, map[], 16)
    case PPSHybrid(n, prm) => HybridColumns(n, prm.padSize)
    case TIProduction(n, prm) => TIColumns(n, prm.padSize)
  }

  /** The blocks of a column loop with pads of side p: the first column's, then one per further column. */
  function ColumnBlocks(c: Columns, p: real): seq<Block>
  {
    c.head + Strips(c.ex, p, c.from, c.to, c.wide, c.ey, c.rows)
  }

  /** The blocks of a preset, column by column. */
  function Blocks(preset: Preset): seq<Block>
  {
    ColumnBlocks(ColumnsOf(preset), PadSize(preset))
  }

  /** How far each pad's sides are pulled in from its cell: the `extra` it is made with. */
  function Extra(preset: Preset): real
  {
    if preset.SimpleETL? then 0.0 else preset.params.padSpacing / 2.0
  }

  /** The core rectangles of a preset's pads, in the order they are appended. */
  function PresetPads(preset: Preset): seq<Rect>
  {
    Layout(Blocks(preset), Extra(preset))
  }

  /** Columns and rows of pad sizes the preset's sensitive area spans. */
  function Cells(preset: Preset): (int, int)
  {
    match preset
    case TIProduction(n, _) => if n == 1 then (3, 3) else if n == 2 then (2, 1) else (5, 5)
    case _ => (16, 16)
  }

  /** The sensor bounds: plus and minus half the sensor size, padSize * cells + 2 * guardRing - padSpacing. */
  function Bounds(preset: Preset): Rect
  {
    if preset.SimpleETL? then
      Rect(-SimpleSize / 2.0, SimpleSize / 2.0, -SimpleSize / 2.0, SimpleSize / 2.0)
    else
      var prm := preset.params;
      var sizeX := prm.padSize * Cells(preset).0 as real + 2.0 * prm.guardRing - prm.padSpacing;
      var sizeY := prm.padSize * Cells(preset).1 as real + 2.0 * prm.guardRing - prm.padSpacing;
      Rect(-sizeX / 2.0, sizeX / 2.0, -sizeY / 2.0, sizeY / 2.0)
  }

  /** The area the pads' margin rectangles are laid out over: the sensor without its guard ring. */
  function SensitiveArea(preset: Preset): Rect
  {
    match preset
    case SimpleETL => Rect(-SimpleSize / 2.0, SimpleSize / 2.0, -SimpleSize / 2.0, SimpleSize / 2.0)
    case RealisticETL(prm) => var h := prm.padSize * 8.0; Rect(-h, h, -h, h)
    case PPSHybrid(_, prm) => var h := prm.padSize * 8.0; Rect(-h, h, -h, h)
    case TIProduction(n, prm) =>
      var half := if n == 1 then (1.5, 1.5) else if n == 2 then (1.0, 0.5) else (2.5, 2.5);
      Rect(-prm.padSize * half.0, prm.padSize * half.0, -prm.padSize * half.1, prm.padSize * half.1)
  }

  // ---------------------------------------------------------------------
  // Properties of the presets.

  /** A column loop lays out its first column's pads and `rows` pads per further column. */
  lemma ColumnsCount(c: Columns, p: real, s: real)
    ensures |Layout(ColumnBlocks(c, p), s)| == PadCount(c.head) + (if c.to >= c.from then c.to - c.from else 0) * c.rows
  {
    var tail := Strips(c.ex, p, c.from, c.to, c.wide, c.ey, c.rows);
    LayoutAppend(c.head, tail, s);
    LayoutLength(c.head + tail, s);
    PadCountUniform(tail, c.rows);
  }

  lemma PadCountOne(b: Block)
    ensures PadCount([b]) == b.ny * b.nx
  {
    assert [b][..0] == [];
  }

  lemma PadCountTwo(a: Block, b: Block)
    ensures PadCount([a, b]) == a.ny * a.nx + b.ny * b.nx
  {
    assert [a, b][..1] == [a];
    PadCountOne(a);
  }

  lemma SplitRowsCount(e: real, p: real, m: nat)
    requires m > 0
    ensures PadCount([SplitRows(e, p, m)]) == 16 * m
  {
    PadCountOne(SplitRows(e, p, m));
  }

  lemma SplitColumnCount(e: real, p: real)
    ensures PadCount(SplitColumn(e, p)) == 64
  {
    PadCountOne(SplitColumn(e, p)[0]);
  }

  lemma HalfColumnsCount(e: real, p: real)
    ensures PadCount(HalfColumns(e, p)) == 48
  {
    PadCountTwo(HalfColumns(e, p)[0], HalfColumns(e, p)[1]);
  }

  /** Every hybrid's first column and further columns hold 256 pads together. */
  lemma HybridCount(n: int, p: real)
    requires 1 <= n <= 11
    ensures var c := HybridColumns(n, p);
      c.from <= c.to && PadCount(c.head) + (c.to - c.from) * c.rows == 256
  {
    var e := -p * 8.0;
    SplitRowsCount(e, p, 2);
    SplitRowsCount(e, p, 3);
    SplitRowsCount(e, p, 4);
    SplitColumnCount(e, p);
    HalfColumnsCount(e, p);
  }

  /** The TI production presets' pads: 18, 5 and 35. */
  lemma TICount(n: int, p: real)
    requires 1 <= n <= 3
    ensures var c := TIColumns(n, p);
      c.from <= c.to && PadCount(c.head) + (c.to - c.from) * c.rows == ExpectedCount(TIProduction(n, Params(p, 0.0, 0.0)))
  {
    var c := TIColumns(n, p);
    PadCountOne(c.head[0]);
    assert c.head == [c.head[0]];
  }

  /** The number of pads of every preset. */
  function ExpectedCount(preset: Preset): nat
  {
    match preset
    case TIProduction(n, _) => if n == 1 then 18 else if n == 2 then 5 else 35
    case _ => 256
  }

  /**
   * The number of pads: 256 for the ETL and every PPS hybrid preset (for
   * PPSHybrid10 and 11 the first column's second row loop adds 16 pads to
   * its 32), and 18, 5 and 35 for the TI production presets.
   */
  lemma PresetCount(preset: Preset)
    requires Known(preset)
    ensures |PresetPads(preset)| == ExpectedCount(preset)
  {
    ColumnsCount(ColumnsOf(preset), PadSize(preset), Extra(preset));
    match preset
    case SimpleETL =>
    case RealisticETL(_) =>
    case PPSHybrid(n, prm) => HybridCount(n, prm.padSize);
    case TIProduction(n, prm) => TICount(n, prm.padSize);
  }

  /** Column x ends where column x + 1 starts. */
  predicate Abuts(x: int, wide: map<int, (int, int)>)
  {
    ColumnSpan(x, wide).1 == ColumnSpan(x + 1, wide).0
  }

  /** The columns of a column loop abut and run from column `from` to `end` pad sizes. */
  predicate SpansTile(from: nat, to: nat, wide: map<int, (int, int)>, end: int)
  {
    && from < to
    && ColumnSpan(from, wide).0 == from
    && (forall x :: from <= x < to - 1 ==> Abuts(x, wide))
    && (forall x :: from <= x < to ==> ColumnSpan(x, wide).0 < ColumnSpan(x, wide).1)
    && ColumnSpan(to - 1, wide).1 == end
  }

  /**
   * The widened columns of every preset still abut, each at least one pad
   * size wide, and the last one ends at the far edge of the sensitive area.
   */
  lemma ColumnsTile(preset: Preset)
    requires Known(preset)
    ensures var c := ColumnsOf(preset);
      SpansTile(c.from, c.to, c.wide, Cells(preset).0)
  {
    match preset
    case SimpleETL => PlainTile(0, 16);
    case RealisticETL(_) => PlainTile(0, 16);
    case PPSHybrid(n, prm) => HybridTile(n, prm.padSize);
    case TIProduction(n, prm) => TITile(n, prm.padSize);
  }

  /** Unwidened columns from .. to-1 tile [from, to). */
  lemma PlainTile(from: nat, to: nat)
    requires from < to
    ensures SpansTile(from, to, map[], to)
  {
    forall x | from <= x < to - 1 ensures Abuts(x, map[]) {
    }
  }

  /**
   * Columns before k keep their width, and the columns from k on tile
   * [k, end): then the columns from `from` on tile [from, end).
   */
  lemma WidenedTile(from: nat, k: nat, to: nat, wide: map<int, (int, int)>, end: int)
    requires from <= k < to
    requires forall x :: from <= x < k ==> x !in wide
    requires k in wide && wide[k].0 == k
    requires SpansTile(k, to, wide, end)
    ensures SpansTile(from, to, wide, end)
  {
    forall x | from <= x < to - 1 ensures Abuts(x, wide) {
      if x < k - 1 {
        assert x + 1 !in wide;
      } else if x == k - 1 {
      }
    }
  }

  /** Unit columns 1 .. k-1, then column k widened to the edge at 16. */
  lemma OneWidened(k: nat)
    requires 1 <= k < 15
    ensures SpansTile(1, k + 1, map[k := (k, 16)], 16)
  {
    WidenedTile(1, k, k + 1, map[k := (k, 16)], 16);
  }

  /** Unit columns 1 .. k-1, then columns k and k + 1 widened to the edge at 16. */
  lemma TwoWidened(k: nat)
    requires 1 <= k && k + 2 < 16
    ensures SpansTile(1, k + 2, map[k := (k, k + 2), k + 1 := (k + 2, 16)], 16)
  {
    var w := map[k := (k, k + 2), k + 1 := (k + 2, 16)];
    assert SpansTile(k, k + 2, w, 16) by { assert Abuts(k, w); }
    WidenedTile(1, k, k + 2, w, 16);
  }

  /** Unit columns 1 .. k-1, then three double columns from k to the edge at k + 6. */
  lemma ThreeWidened(k: nat)
    requires 1 <= k
    ensures SpansTile(1, k + 3, map[k := (k, k + 2), k + 1 := (k + 2, k + 4), k + 2 := (k + 4, k + 6)], k + 6)
  {
    var w := map[k := (k, k + 2), k + 1 := (k + 2, k + 4), k + 2 := (k + 4, k + 6)];
    assert SpansTile(k, k + 3, w, k + 6) by { assert Abuts(k, w) && Abuts(k + 1, w); }
    WidenedTile(1, k, k + 3, w, k + 6);
  }

  lemma HybridTile(n: int, p: real)
    requires 1 <= n <= 11
    ensures var c := HybridColumns(n, p);
      SpansTile(c.from, c.to, c.wide, 16)
  {
    OneWidened(14);
    OneWidened(13);
    OneWidened(12);
    TwoWidened(11);
    ThreeWidened(10);
    TwoWidened(12);
  }

  lemma TITile(n: int, p: real)
    requires 1 <= n <= 3
    ensures var c := TIColumns(n, p);
      SpansTile(c.from, c.to, c.wide, Cells(TIProduction(n, Params(p, 0.0, 0.0))).0)
  {
    PlainTile(1, 3);
    PlainTile(1, 2);
    WidenedTile(1, 3, 4, map[3 := (3, 5)], 5);
  }

  lemma SpanEdges(e: real, p: real, lo: int, hi: int)
    ensures e + lo as real * p + 1 as real * ((hi - lo) as real * p) == e + hi as real * p
  {
    assert (hi - lo) as real * p == hi as real * p - lo as real * p;
  }

  /** Pad y of a column strip over columns [lo, hi). */
  lemma StripPad(ex: real, p: real, lo: int, hi: int, ey: real, rows: nat, s: real, y: nat)
    requires y < rows
    ensures var pads := BlockPads(StripBlock(ex, p, (lo, hi), ey, rows), s);
      && |pads| == rows
      && pads[y] == Rect(ex + lo as real * p + s, ex + hi as real * p - s,
                         ey + y as real * p + s, ey + (y + 1) as real * p - s)
  {
    var b := StripBlock(ex, p, (lo, hi), ey, rows);
    assert b.xEdge == ex + lo as real * p && b.width == (hi - lo) as real * p;
    assert BlockPads(b, s)[y] == PadAt(b, y % 1, y / 1, s);
    assert y % 1 == 0 && y / 1 == y;
    SpanEdges(ex, p, lo, hi);
  }

  /** The cell in column x, row y of a grid of pitch p from (e, e), its sides pulled in by s. */
  function GridRect(e: real, p: real, s: real, x: nat, y: nat): Rect
  {
    Rect(e + x as real * p + s, e + (x + 1) as real * p - s, e + y as real * p + s, e + (y + 1) as real * p - s)
  }

  /** Pad y of column x of an ETL-style preset. */
  lemma GridCell(e: real, p: real, s: real, x: nat, y: nat)
    requires y < 16
    ensures BlockPads(StripBlock(e, p, (x, x + 1), e, 16), s)[y] == GridRect(e, p, s, x, y)
  {
    StripPad(e, p, x, x + 1, e, 16, s, y);
  }

  /** Pad 16x + y of an ETL-style preset is the pad in column x, row y. */
  lemma GridPad(e: real, p: real, s: real, x: nat, y: nat)
    requires x < 16 && y < 16
    ensures var pads := Layout([] + Strips(e, p, 0, 16, map[], e, 16), s);
      && 16 * x + y < |pads|
      && pads[16 * x + y] == GridRect(e, p, s, x, y)
  {
    var blocks := Strips(e, p, 0, 16, map[], e, 16);
    assert [] + blocks == blocks;
    LayoutUniformIndex(blocks, s, 16, x, y, 16 * x + y);
    assert x * 16 == 16 * x;
    assert blocks[x] == StripBlock(e, p, (x, x + 1), e, 16);
    GridCell(e, p, s, x, y);
  }

  /** The ETL presets lay out 16 unwidened columns of 16 pads from (-8 padSize, -8 padSize). */
  lemma ETLLayout(preset: Preset)
    requires preset.SimpleETL? || preset.RealisticETL?
    ensures var e, p := -PadSize(preset) * 8.0, PadSize(preset);
      PresetPads(preset) == Layout([] + Strips(e, p, 0, 16, map[], e, 16), Extra(preset))
  {
  }

  /** Pad 16x + y of an ETL preset is the cell in column x, row y with its sides pulled in by Extra. */
  lemma ETLPad(preset: Preset, e: real, p: real, s: real, x: nat, y: nat)
    requires preset.SimpleETL? || preset.RealisticETL?
    requires p == PadSize(preset) && e == -p * 8.0 && s == Extra(preset) && x < 16 && y < 16
    ensures 16 * x + y < |PresetPads(preset)| && PresetPads(preset)[16 * x + y] == GridRect(e, p, s, x, y)
  {
    GridPad(e, p, s, x, y);
    ETLLayout(preset);
    SamePad(PresetPads(preset), Layout([] + Strips(e, p, 0, 16, map[], e, 16), s), 16 * x + y, GridRect(e, p, s, x, y));
  }

  lemma SamePad(a: seq<Rect>, b: seq<Rect>, k: nat, r: Rect)
    requires a == b && k < |b| && b[k] == r
    ensures k < |a| && a[k] == r
  {
  }

  /**
   * SimpleETLSensor: pad 16x + y is the square of side SimplePadSize in
   * column x, row y counted from -8 SimplePadSize, without spacing, so the
   * 256 pads tile the sensor bounds exactly (SimpleETLBounds).
   */
  lemma SimpleETLTiles(preset: Preset, x: nat, y: nat)
    requires preset.SimpleETL? && x < 16 && y < 16
    ensures var pads := PresetPads(preset);
      var e, p := -SimplePadSize * 8.0, SimplePadSize;
      && 16 * x + y < |pads|
      && pads[16 * x + y] == Rect(e + x as real * p, e + (x + 1) as real * p, e + y as real * p, e + (y + 1) as real * p)
  {
    ETLPad(preset, -SimplePadSize * 8.0, SimplePadSize, 0.0, x, y);
  }

  /** The SimpleETLSensor bounds are its sensitive area: 16 pads of 1.3 mm from -10.4 mm to 10.4 mm. */
  lemma SimpleETLBounds()
    ensures SimplePadSize == 1.3 && SimplePadSize * 8.0 == 10.4
    ensures Bounds(SimpleETL) == SensitiveArea(SimpleETL) == Rect(-10.4, 10.4, -10.4, 10.4)
  {
  }

  /**
   * RealisticETLSensor: the margin rectangle of pad 16x + y is the cell of
   * side padSize in column x, row y from -8 padSize, so the margins tile
   * [-8 padSize, 8 padSize] squared; the pad itself is that cell less half
   * the spacing on every side.
   */
  lemma RealisticETLMarginsTile(prm: Params, x: nat, y: nat)
    requires x < 16 && y < 16
    ensures var pads := PresetPads(RealisticETL(prm));
      var e, p := -prm.padSize * 8.0, prm.padSize;
      && 16 * x + y < |pads|
      && Inflate(pads[16 * x + y], Extra(RealisticETL(prm)))
           == Rect(e + x as real * p, e + (x + 1) as real * p, e + y as real * p, e + (y + 1) as real * p)
      && pads[16 * x + y].maxX - pads[16 * x + y].minX == p - prm.padSpacing
  {
    var preset := RealisticETL(prm);
    ETLPad(preset, -prm.padSize * 8.0, prm.padSize, Extra(preset), x, y);
    CellMargin(PresetPads(preset), 16 * x + y, -prm.padSize * 8.0, prm.padSize, Extra(preset), x, y);
  }

  /** A cell with its sides pulled in by s, inflated by s, is the cell again; its width is p - 2s. */
  lemma CellMargin(pads: seq<Rect>, k: nat, e: real, p: real, s: real, x: nat, y: nat)
    requires k < |pads| && pads[k] == GridRect(e, p, s, x, y)
    ensures Inflate(pads[k], s) == Rect(e + x as real * p, e + (x + 1) as real * p, e + y as real * p, e + (y + 1) as real * p)
    ensures pads[k].maxX - pads[k].minX == p - 2.0 * s
  {
    assert (x + 1) as real * p == x as real * p + p;
  }

  /**
   * PPSHybrid1Sensor: column 0 holds 32 half-height pads; column 14, the
   * last 16 pads, is two pad sizes wide and reaches the edge of the
   * sensitive area.
   */
  lemma Hybrid1WideColumn(prm: Params, y: nat)
    requires y < 16
    ensures var pads := PresetPads(PPSHybrid(1, prm));
      var p, sp := prm.padSize, prm.padSpacing;
      && |pads| == 256
      && pads[240 + y].maxX - pads[240 + y].minX == 2.0 * p - sp
      && pads[240 + y].maxX == 8.0 * p - sp / 2.0
  {
    var p, s := prm.padSize, prm.padSpacing / 2.0;
    var e := -p * 8.0;
    var tail := Strips(e, p, 1, 15, map[14 := (14, 16)], e, 16);
    Hybrid1Split(prm);
    LayoutUniformIndex(tail, s, 16, 13, y, 208 + y);
    assert tail[13] == StripBlock(e, p, (14, 16), e, 16);
    WideColumnPad(e, p, s, y);
    AppendIndex(Layout([SplitRows(e, p, 2)], s), Layout(tail, s), 208 + y);
  }

  /** PPSHybrid1Sensor: 32 pads of the split first column, then the strips of columns 1 to 14. */
  lemma Hybrid1Split(prm: Params)
    ensures var p, s := prm.padSize, prm.padSpacing / 2.0;
      var e := -p * 8.0;
      var head, tail := Layout([SplitRows(e, p, 2)], s), Layout(Strips(e, p, 1, 15, map[14 := (14, 16)], e, 16), s);
      && PresetPads(PPSHybrid(1, prm)) == head + tail
      && |head| == 32 && |PresetPads(PPSHybrid(1, prm))| == 256
  {
    var p, s := prm.padSize, prm.padSpacing / 2.0;
    var e := -p * 8.0;
    var c := HybridColumns(1, p);
    assert c == Columns([SplitRows(e, p, 2)], e, e, 1, 15, map[14 := (14, 16)], 16);
    assert PresetPads(PPSHybrid(1, prm)) == Layout(ColumnBlocks(c, p), s);
    HybridCount(1, p);
    ColumnsCount(c, p, s);
    LayoutAppend(c.head, Strips(e, p, 1, 15, c.wide, e, 16), s);
    SplitRowsCount(e, p, 2);
    LayoutLength(c.head, s);
  }

  lemma AppendIndex(a: seq<Rect>, b: seq<Rect>, i: nat)
    requires i < |b|
    ensures (a + b)[|a| + i] == b[i]
  {
  }

  lemma WideColumnPad(e: real, p: real, s: real, y: nat)
    requires y < 16
    ensures BlockPads(StripBlock(e, p, (14, 16), e, 16), s)[y]
              == Rect(e + 14.0 * p + s, e + 16.0 * p - s, e + y as real * p + s, e + (y + 1) as real * p - s)
  {
    StripPad(e, p, 14, 16, e, 16, s, y);
  }

  /** A block whose cells all lie in r. */
  predicate BlockWithin(b: Block, r: Rect)
  {
    && b.width >= 0.0 && b.height >= 0.0
    && r.minX <= b.xEdge && b.xEdge + b.nx as real * b.width <= r.maxX
    && r.minY <= b.yEdge && b.yEdge + b.ny as real * b.height <= r.maxY
  }

  lemma MulLe(i: int, n: int, w: real)
    requires 0 <= i <= n && w >= 0.0
    ensures 0.0 <= i as real * w <= n as real * w
  {
    assert n as real * w == i as real * w + (n - i) as real * w;
  }

  lemma DivBelow(k: nat, nx: nat, ny: nat)
    requires nx > 0 && k < ny * nx
    ensures k / nx < ny && k % nx < nx
  {
  }

  /** A cell of a block lying in r lies in r. */
  lemma CellWithin(b: Block, r: Rect, xi: nat, y: nat)
    requires BlockWithin(b, r) && xi < b.nx && y < b.ny
    ensures Contains(r, CellAt(b, xi, y))
  {
    MulLe(xi, b.nx, b.width);
    MulLe(xi + 1, b.nx, b.width);
    MulLe(y, b.ny, b.height);
    MulLe(y + 1, b.ny, b.height);
  }

  /** Every margin rectangle (the cell) of a block lying in r lies in r. */
  lemma BlockMarginsWithin(b: Block, r: Rect, s: real)
    requires BlockWithin(b, r)
    ensures forall k :: 0 <= k < |BlockPads(b, s)| ==> Contains(r, Inflate(BlockPads(b, s)[k], s))
  {
    forall k | 0 <= k < |BlockPads(b, s)| ensures Contains(r, Inflate(BlockPads(b, s)[k], s)) {
      DivBelow(k, b.nx, b.ny);
      var xi, y := k % b.nx, k / b.nx;
      assert BlockPads(b, s)[k] == PadAt(b, xi, y, s);
      assert Inflate(PadAt(b, xi, y, s), s) == CellAt(b, xi, y);
      CellWithin(b, r, xi, y);
    }
  }

  /** Every margin rectangle of a layout whose blocks lie in r lies in r. */
  lemma {:induction false} LayoutMarginsWithin(blocks: seq<Block>, r: Rect, s: real)
    requires forall i :: 0 <= i < |blocks| ==> BlockWithin(blocks[i], r)
    ensures forall k :: 0 <= k < |Layout(blocks, s)| ==> Contains(r, Inflate(Layout(blocks, s)[k], s))
    decreases |blocks|
  {
    if blocks != [] {
      var init := blocks[..|blocks| - 1];
      LayoutMarginsWithin(init, r, s);
      BlockMarginsWithin(blocks[|blocks| - 1], r, s);
      var pads := Layout(blocks, s);
      forall k | 0 <= k < |pads| ensures Contains(r, Inflate(pads[k], s)) {
        if k < |Layout(init, s)| {
          assert pads[k] == Layout(init, s)[k];
        } else {
          assert pads[k] == BlockPads(blocks[|blocks| - 1], s)[k - |Layout(init, s)|];
        }
      }
    }
  }

  /** A column strip within the spans [0, end) lies in the area from (ex, ey) of end by rows pad sizes. */
  lemma StripWithin(ex: real, p: real, span: (int, int), ey: real, rows: nat, end: int, r: Rect)
    requires p >= 0.0 && 0 <= span.0 <= span.1 <= end
    requires r.minX == ex && r.maxX == ex + end as real * p && r.minY == ey && r.maxY == ey + rows as real * p
    ensures BlockWithin(StripBlock(ex, p, span, ey, rows), r)
  {
    StripBounds(ex, p, span, ey, rows, end);
  }

  /** A column strip over columns within [0, end) lies between ex and ex + end p across, ey and ey + rows p up. */
  lemma StripBounds(ex: real, p: real, span: (int, int), ey: real, rows: nat, end: int)
    requires p >= 0.0 && 0 <= span.0 <= span.1 <= end
    ensures var b := StripBlock(ex, p, span, ey, rows);
      && b.width >= 0.0 && b.height >= 0.0
      && ex <= b.xEdge && b.xEdge + b.nx as real * b.width <= ex + end as real * p
      && b.yEdge == ey && b.yEdge + b.ny as real * b.height == ey + rows as real * p
  {
    StripEdges(ex, p, span, ey, rows);
    MulLe(0, span.0, p);
    MulLe(span.1, end, p);
    MulLe(0, span.1 - span.0, p);
  }

  /** The edges of a column strip: from column span.0 to column span.1, rows pad sizes high. */
  lemma StripEdges(ex: real, p: real, span: (int, int), ey: real, rows: nat)
    ensures var b := StripBlock(ex, p, span, ey, rows);
      && b.xEdge == ex + span.0 as real * p && b.width == (span.1 - span.0) as real * p
      && b.xEdge + b.nx as real * b.width == ex + span.1 as real * p
      && b.yEdge == ey && b.height == p && b.yEdge + b.ny as real * b.height == ey + rows as real * p
  {
    SpanEdges(ex, p, span.0, span.1);
  }

  lemma SplitRowsWithin(p: real, m: nat)
    requires p >= 0.0 && m > 0
    ensures BlockWithin(SplitRows(-p * 8.0, p, m), Rect(-p * 8.0, p * 8.0, -p * 8.0, p * 8.0))
  {
    var h := p / m as real;
    assert h * m as real == p;
    assert (16 * m) as real * h == 16.0 * (m as real * h);
  }

  /** The blocks of one split first column lie in [-8p, 8p] squared. */
  lemma SplitColumnWithin(p: real)
    requires p >= 0.0
    ensures var head := SplitColumn(-p * 8.0, p);
      forall i :: 0 <= i < |head| ==> BlockWithin(head[i], Rect(-p * 8.0, p * 8.0, -p * 8.0, p * 8.0))
  {
  }

  /** The two blocks of a half-width first column lie in [-8p, 8p] squared. */
  lemma HalfColumnsWithin(p: real)
    requires p >= 0.0
    ensures var head := HalfColumns(-p * 8.0, p);
      forall i :: 0 <= i < |head| ==> BlockWithin(head[i], Rect(-p * 8.0, p * 8.0, -p * 8.0, p * 8.0))
  {
  }

  /** The first-column blocks of a hybrid lie in its sensitive area. */
  lemma HybridHeadWithin(n: int, p: real)
    requires 1 <= n <= 11 && p >= 0.0
    ensures var head := HybridColumns(n, p).head;
      forall i :: 0 <= i < |head| ==> BlockWithin(head[i], Rect(-p * 8.0, p * 8.0, -p * 8.0, p * 8.0))
  {
    var e := -p * 8.0;
    var head := HybridColumns(n, p).head;
    if n == 5 || n == 6 || n == 8 {
      assert head == SplitColumn(e, p);
      SplitColumnWithin(p);
    } else if n == 10 || n == 11 {
      assert head == HalfColumns(e, p);
      HalfColumnsWithin(p);
    } else {
      var m: nat := if n == 1 then 2 else if n == 2 || n == 9 then 3 else 4;
      assert head == [SplitRows(e, p, m)];
      SplitRowsWithin(p, m);
    }
  }

  /** The first-column block of a TI production preset lies in its sensitive area. */
  lemma TIHeadWithin(n: int, p: real)
    requires 1 <= n <= 3 && p >= 0.0
    ensures var head := TIColumns(n, p).head;
      forall i :: 0 <= i < |head| ==> BlockWithin(head[i], SensitiveArea(TIProduction(n, Params(p, 0.0, 0.0))))
  {
  }

  /**
   * A column loop with pads of side p fits r: its columns abut from its
   * first column to `end` pad sizes, r is that area, and its first-column
   * blocks lie in r.
   */
  predicate Fits(c: Columns, p: real, end: int, r: Rect)
  {
    && p >= 0.0
    && SpansTile(c.from, c.to, c.wide, end)
    && r == Rect(c.ex, c.ex + end as real * p, c.ey, c.ey + c.rows as real * p)
    && (forall i :: 0 <= i < |c.head| ==> BlockWithin(c.head[i], r))
  }

  lemma HybridFits(n: int, p: real)
    requires 1 <= n <= 11 && p >= 0.0
    ensures Fits(HybridColumns(n, p), p, 16, Rect(-p * 8.0, p * 8.0, -p * 8.0, p * 8.0))
  {
    HybridTile(n, p);
    HybridHeadWithin(n, p);
  }

  lemma TIFits(n: int, p: real)
    requires 1 <= n <= 3 && p >= 0.0
    ensures var preset := TIProduction(n, Params(p, 0.0, 0.0));
      Fits(TIColumns(n, p), p, Cells(preset).0, SensitiveArea(preset))
  {
    if n == 1 {
      TITile(1, p);
      TIHeadWithin(1, p);
    } else if n == 2 {
      TITile(2, p);
      TIHeadWithin(2, p);
    } else {
      TITile(3, p);
      TIHeadWithin(3, p);
    }
  }

  /** The plain 16 by 16 grid of the ETL presets fits [-8p, 8p] squared. */
  lemma PlainFits(p: real)
    requires p >= 0.0
    ensures Fits(Columns([], -p * 8.0, -p * 8.0, 0, 16, map[], 16), p, 16, Rect(-p * 8.0, p * 8.0, -p * 8.0, p * 8.0))
  {
    PlainTile(0, 16);
  }

  lemma ETLFits(preset: Preset)
    requires (preset.SimpleETL? || preset.RealisticETL?) && PadSize(preset) >= 0.0
    ensures Fits(ColumnsOf(preset), PadSize(preset), Cells(preset).0, SensitiveArea(preset))
  {
    var p := PadSize(preset);
    PlainFits(p);
    assert ColumnsOf(preset) == Columns([], -p * 8.0, -p * 8.0, 0, 16, map[], 16);
    assert SensitiveArea(preset) == Rect(-p * 8.0, p * 8.0, -p * 8.0, p * 8.0);
  }

  lemma HybridPresetFits(n: int, prm: Params)
    requires 1 <= n <= 11 && prm.padSize >= 0.0
    ensures var preset := PPSHybrid(n, prm);
      Fits(ColumnsOf(preset), PadSize(preset), Cells(preset).0, SensitiveArea(preset))
  {
    HybridFits(n, prm.padSize);
  }

  lemma TIPresetFits(n: int, prm: Params)
    requires 1 <= n <= 3 && prm.padSize >= 0.0
    ensures var preset := TIProduction(n, prm);
      Fits(ColumnsOf(preset), PadSize(preset), Cells(preset).0, SensitiveArea(preset))
  {
    TIFits(n, prm.padSize);
    assert SensitiveArea(TIProduction(n, prm)) == SensitiveArea(TIProduction(n, Params(prm.padSize, 0.0, 0.0)));
  }

  /** Every preset's column loop fits its sensitive area. */
  lemma PresetFits(preset: Preset)
    requires Known(preset) && PadSize(preset) >= 0.0
    ensures Fits(ColumnsOf(preset), PadSize(preset), Cells(preset).0, SensitiveArea(preset))
  {
    match preset
    case SimpleETL =>
      ETLFits(preset);
    case RealisticETL(_) =>
      ETLFits(preset);
    case PPSHybrid(n, prm) =>
      HybridPresetFits(n, prm);
    case TIProduction(n, prm) =>
      TIPresetFits(n, prm);
  }

  /** The margins of a column loop that fits r lie in r. */
  lemma ColumnsMarginsWithin(c: Columns, p: real, end: int, r: Rect, s: real)
    requires Fits(c, p, end, r)
    ensures forall k :: 0 <= k < |Layout(ColumnBlocks(c, p), s)| ==> Contains(r, Inflate(Layout(ColumnBlocks(c, p), s)[k], s))
  {
    var tail := Strips(c.ex, p, c.from, c.to, c.wide, c.ey, c.rows);
    forall i | 0 <= i < |tail| ensures BlockWithin(tail[i], r) {
      ColumnWithinSpan(c.from, c.to, c.wide, end, c.from + i);
      StripWithin(c.ex, p, ColumnSpan(c.from + i, c.wide), c.ey, c.rows, end, r);
    }
    var blocks := c.head + tail;
    forall i | 0 <= i < |blocks| ensures BlockWithin(blocks[i], r) {
      if i >= |c.head| {
        assert blocks[i] == tail[i - |c.head|];
      }
    }
    LayoutMarginsWithin(blocks, r, s);
  }

  /**
   * The margin rectangle of every pad of every preset lies in the preset's
   * sensitive area, the sensor less its guard ring.
   */
  lemma PresetMarginsWithin(preset: Preset)
    requires Known(preset) && PadSize(preset) >= 0.0
    ensures var pads := PresetPads(preset);
      forall k :: 0 <= k < |pads| ==> Contains(SensitiveArea(preset), Inflate(pads[k], Extra(preset)))
  {
    PresetFits(preset);
    var c, p, s := ColumnsOf(preset), PadSize(preset), Extra(preset);
    ColumnsMarginsWithin(c, p, Cells(preset).0, SensitiveArea(preset), s);
    assert PresetPads(preset) == Layout(ColumnBlocks(c, p), s);
  }

  /** Abutting columns from column `from` stay within [from, end). */
  lemma ColumnWithinSpan(from: nat, to: nat, wide: map<int, (int, int)>, end: int, x: int)
    requires SpansTile(from, to, wide, end) && from <= x < to
    ensures from <= ColumnSpan(x, wide).0 <= ColumnSpan(x, wide).1 <= end
  {
    ColumnStartsAfter(from, to, wide, end, x);
    ColumnEndsBefore(from, to, wide, end, x);
  }

  lemma {:induction false} ColumnStartsAfter(from: nat, to: nat, wide: map<int, (int, int)>, end: int, x: int)
    requires SpansTile(from, to, wide, end) && from <= x < to
    ensures from <= ColumnSpan(x, wide).0
    decreases x - from
  {
    if x > from {
      ColumnStartsAfter(from, to, wide, end, x - 1);
      assert Abuts(x - 1, wide);
    }
  }

  lemma {:induction false} ColumnEndsBefore(from: nat, to: nat, wide: map<int, (int, int)>, end: int, x: int)
    requires SpansTile(from, to, wide, end) && from <= x < to
    ensures ColumnSpan(x, wide).1 <= end
    decreases (to as int) - x
  {
    if x < to - 1 {
      ColumnEndsBefore(from, to, wide, end, x + 1);
      assert Abuts(x, wide);
    }
  }

  /** The guard ring lies outside the sensitive area: the bounds contain it when 2 guardRing >= padSpacing. */
  lemma SensitiveAreaWithinBounds(preset: Preset)
    requires Known(preset) && !preset.SimpleETL?
    requires 2.0 * preset.params.guardRing >= preset.params.padSpacing
    ensures Contains(Bounds(preset), SensitiveArea(preset))
  {
  }

  // ---------------------------------------------------------------------
  // Building a preset sensor.

  /** A pad as the presets make it: the given core, epoch count and margin, and no doses yet. */
  ghost predicate NewPad(pad: SensorPad, core: Rect, epochs: nat, extra: real)
    reads pad
  {
    pad.Valid() && pad.epochs == epochs && pad.core == core && pad.margin == Inflate(core, extra)
    && pad.doses == [] && pad.dosesExtra == []
  }

  /** The column loops' `self.padVec += [SensorPad(...)]`, one pad per core rectangle in order. */
  method AppendPads(sensor: Sensor, cores: seq<Rect>, epochs: nat, extra: real)
    modifies sensor
    ensures |sensor.padVec| == |old(sensor.padVec)| + |cores|
    ensures sensor.padVec[..|old(sensor.padVec)|] == old(sensor.padVec)
    ensures forall pad | pad in sensor.padVec[|old(sensor.padVec)|..] :: fresh(pad)
    ensures forall i :: 0 <= i < |cores| ==> NewPad(sensor.padVec[|old(sensor.padVec)| + i], cores[i], epochs, extra)
    ensures sensor.shifts == old(sensor.shifts) && sensor.numPads == old(sensor.numPads) && sensor.hasFlux == old(sensor.hasFlux)
    ensures sensor.minX == old(sensor.minX) && sensor.maxX == old(sensor.maxX)
    ensures sensor.minY == old(sensor.minY) && sensor.maxY == old(sensor.maxY)
  {
    ghost var n0 := |sensor.padVec|;
    for i := 0 to |cores|
      invariant |sensor.padVec| == n0 + i
      invariant sensor.padVec[..n0] == old(sensor.padVec)
      invariant forall pad | pad in sensor.padVec[n0..] :: fresh(pad)
      invariant forall j :: 0 <= j < i ==> NewPad(sensor.padVec[n0 + j], cores[j], epochs, extra)
      invariant sensor.shifts == old(sensor.shifts) && sensor.numPads == old(sensor.numPads) && sensor.hasFlux == old(sensor.hasFlux)
      invariant sensor.minX == old(sensor.minX) && sensor.maxX == old(sensor.maxX)
      invariant sensor.minY == old(sensor.minY) && sensor.maxY == old(sensor.maxY)
    {
      ghost var before := sensor.padVec;
      var pad := new SensorPad(epochs, cores[i], extra);
      sensor.padVec := sensor.padVec + [pad];
      assert sensor.padVec[..n0] == before[..n0];
      assert sensor.padVec[n0..] == before[n0..] + [pad];
      forall j | 0 <= j < i + 1
        ensures NewPad(sensor.padVec[n0 + j], cores[j], epochs, extra)
      {
        if j < i {
          assert sensor.padVec[n0 + j] == before[n0 + j];
        }
      }
    }
  }

  /** A sensor with the given shifts and bounds and one new pad per core rectangle, in order. */
  method NewSensor(shifts: seq<Shift>, b: Rect, cores: seq<Rect>, extra: real) returns (sensor: Sensor)
    ensures fresh(sensor) && sensor.Valid()
    ensures sensor.shifts == shifts && !sensor.hasFlux
    ensures Rect(sensor.minX, sensor.maxX, sensor.minY, sensor.maxY) == b
    ensures |sensor.padVec| == |cores| && sensor.numPads == |sensor.padVec|
    ensures forall pad | pad in sensor.padVec :: fresh(pad)
    ensures forall i :: 0 <= i < |sensor.padVec| ==> NewPad(sensor.padVec[i], cores[i], |shifts|, extra)
  {
    sensor := new Sensor(shifts);
    sensor.minX, sensor.maxX, sensor.minY, sensor.maxY := b.minX, b.maxX, b.minY, b.maxY;
    AppendPads(sensor, cores, |shifts|, extra);
    sensor.numPads := |sensor.padVec|;
    assert sensor.padVec[0..] == sensor.padVec;
    forall i | 0 <= i < |sensor.padVec|
      ensures NewPad(sensor.padVec[i], cores[i], |shifts|, extra)
    {
      assert sensor.padVec[i] == sensor.padVec[0 + i];
    }
  }

  /**
   * A preset sensor: `Sensor.__init__` with the shifts, the preset's
   * bounds, its pads appended in order with one epoch per shift, and
   * numPads set to their number.
   */
  method Build(preset: Preset, shifts: seq<Shift>) returns (sensor: Sensor)
    ensures fresh(sensor) && sensor.Valid()
    ensures sensor.shifts == shifts && !sensor.hasFlux
    ensures Rect(sensor.minX, sensor.maxX, sensor.minY, sensor.maxY) == Bounds(preset)
    ensures |sensor.padVec| == |PresetPads(preset)| && sensor.numPads == |sensor.padVec|
    ensures forall pad | pad in sensor.padVec :: fresh(pad)
    ensures forall i :: 0 <= i < |sensor.padVec| ==> NewPad(sensor.padVec[i], PresetPads(preset)[i], |shifts|, Extra(preset))
  {
    sensor := NewSensor(shifts, Bounds(preset), PresetPads(preset), Extra(preset));
  }
}
