/**
 * The SVG exporter: each pixel row is compressed into maximal same-colour
 * runs, one `<rect>` per run, between the XML declaration with the `<svg>`
 * header and the closing tag.
 */
module Svg {
  import opened Colors
  import opened Generation
  import opened Grids

  // ---------------------------------------------------------------------------
  // Run-length encoding of one row
  // ---------------------------------------------------------------------------

  /** Columns [start, start + len) of a row, all of one colour. */
  datatype Run = Run(start: int, len: int, color: Rgb)

  /** The column just past the last run. */
  function End(runs: seq<Run>): int {
    if runs == [] then 0 else runs[|runs| - 1].start + runs[|runs| - 1].len
  }

  predicate NonEmptyRuns(runs: seq<Run>) {
    forall k | 0 <= k < |runs| :: runs[k].len >= 1
  }

  /** The first run starts at 0 and each later run where the previous one ended. */
  predicate Contiguous(runs: seq<Run>) {
    && (|runs| > 0 ==> runs[0].start == 0)
    && forall k | 0 <= k < |runs| - 1 :: runs[k + 1].start == runs[k].start + runs[k].len
  }

  /** Neighbouring runs differ in colour, so no two could be merged. */
  predicate Alternating(runs: seq<Run>) {
    forall k | 0 <= k < |runs| - 1 :: runs[k].color != runs[k + 1].color
  }

  /** The pixels a run list paints, left to right. */
  function Expand(runs: seq<Run>): seq<Rgb>
    requires NonEmptyRuns(runs)
  {
    if runs == [] then []
    else
      var last := runs[|runs| - 1];
      Expand(runs[..|runs| - 1]) + seq(last.len, _ => last.color)
  }

  /** `runs` is the maximal run-length encoding of `row`. */
  predicate Encodes(runs: seq<Run>, row: seq<Rgb>) {
    && NonEmptyRuns(runs) && Contiguous(runs) && Alternating(runs)
    && Expand(runs) == row
  }

  lemma {:induction false} ExpandLength(runs: seq<Run>)
    requires NonEmptyRuns(runs) && Contiguous(runs)
    ensures |Expand(runs)| == End(runs)
  {
    if runs != [] {
      var init := runs[..|runs| - 1];
      assert NonEmptyRuns(init) && Contiguous(init);
      ExpandLength(init);
    }
  }

  /** Dropping the last run of an encoding leaves an encoding of the row up to its start. */
  lemma EncodesInit(runs: seq<Run>, row: seq<Rgb>)
    requires Encodes(runs, row) && runs != []
    ensures 0 <= runs[|runs| - 1].start < |row|
    ensures runs[|runs| - 1].start + runs[|runs| - 1].len == |row|
    ensures Encodes(runs[..|runs| - 1], row[..runs[|runs| - 1].start])
    ensures forall j | runs[|runs| - 1].start <= j < |row| :: row[j] == runs[|runs| - 1].color
  {
    var init := runs[..|runs| - 1];
    var last := runs[|runs| - 1];
    assert NonEmptyRuns(init) && Contiguous(init) && Alternating(init);
    ExpandLength(init);
    ExpandLength(runs);
    assert End(init) == last.start;
    assert Expand(runs) == Expand(init) + seq(last.len, _ => last.color);
    assert row[..last.start] == Expand(init);
  }

  /** Every pixel covered by a run has the run's colour. */
  lemma {:induction false} RunsPaintTheirPixels(runs: seq<Run>, row: seq<Rgb>, k: int, j: int)
    requires Encodes(runs, row)
    requires 0 <= k < |runs| && runs[k].start <= j < runs[k].start + runs[k].len
    ensures 0 <= j < |row| && row[j] == runs[k].color
  {
    EncodesInit(runs, row);
    var init := runs[..|runs| - 1];
    var last := runs[|runs| - 1];
    if k < |runs| - 1 {
      assert init[k] == runs[k];
      RunsPaintTheirPixels(init, row[..last.start], k, j);
      ExpandLength(init);
      if k < |init| - 1 {
        assert init[k + 1].start == runs[k].start + runs[k].len;
      }
    } else {
      ExpandLength(init);
      if |init| > 0 {
        assert End(init) == last.start;
      }
    }
  }

  /** The last run of an encoding starts where the row's final block of equal pixels begins. */
  lemma LastRunIsMaximal(runs: seq<Run>, row: seq<Rgb>)
    requires Encodes(runs, row) && runs != []
    ensures 0 <= runs[|runs| - 1].start < |row|
    ensures runs[|runs| - 1].color == row[|row| - 1]
    ensures runs[|runs| - 1].start == 0 || row[runs[|runs| - 1].start - 1] != row[|row| - 1]
  {
    EncodesInit(runs, row);
    var init := runs[..|runs| - 1];
    var last := runs[|runs| - 1];
    if init != [] {
      var prev := init[|init| - 1];
      EncodesInit(init, row[..last.start]);
      assert prev == runs[|runs| - 2];
      ExpandLength(init);
      assert row[last.start - 1] == row[..last.start][last.start - 1] == prev.color;
    }
  }

  /** A row has exactly one maximal run-length encoding. */
  lemma {:induction false} EncodingUnique(a: seq<Run>, b: seq<Run>, row: seq<Rgb>)
    requires Encodes(a, row) && Encodes(b, row)
    ensures a == b
    decreases |a|
  {
    if a == [] || b == [] {
      if a != [] {
        EncodesInit(a, row);
      }
      if b != [] {
        EncodesInit(b, row);
      }
    } else {
      EncodesInit(a, row);
      EncodesInit(b, row);
      LastRunIsMaximal(a, row);
      LastRunIsMaximal(b, row);
      var la, lb := a[|a| - 1], b[|b| - 1];
      EncodingUnique(a[..|a| - 1], b[..|b| - 1], row[..la.start]);
      assert a == a[..|a| - 1] + [la] && b == b[..|b| - 1] + [lb];
    }
  }

  /** Start of the block of pixels equal to row[i] that ends at i. */
  function BlockStart(row: seq<Rgb>, i: int): (s: int)
    requires 0 <= i < |row|
    ensures 0 <= s <= i
    ensures forall j | s <= j <= i :: row[j] == row[i]
    ensures s == 0 || row[s - 1] != row[i]
  {
    if i == 0 || row[i - 1] != row[i] then i else BlockStart(row, i - 1)
  }

  /** The maximal run-length encoding, built from the right. */
  function Runs(row: seq<Rgb>): (runs: seq<Run>)
    ensures Encodes(runs, row)
    decreases |row|
  {
    if row == [] then []
    else
      var s := BlockStart(row, |row| - 1);
      var init := Runs(row[..s]);
      var last := Run(s, |row| - s, row[|row| - 1]);
      RunsExtend(init, row, s);
      init + [last]
  }

  /** Appending a run that starts where the list ends and changes colour keeps the list well formed. */
  lemma AppendRun(runs: seq<Run>, run: Run)
    requires NonEmptyRuns(runs) && Contiguous(runs) && Alternating(runs)
    requires run.len >= 1 && run.start == End(runs)
    requires runs != [] ==> runs[|runs| - 1].color != run.color
    ensures var next := runs + [run];
      && NonEmptyRuns(next) && Contiguous(next) && Alternating(next)
      && End(next) == run.start + run.len
      && Expand(next) == Expand(runs) + seq(run.len, _ => run.color)
  {
    var next := runs + [run];
    assert next[..|next| - 1] == runs;
    forall k | 0 <= k < |runs|
      ensures next[k] == runs[k]
    {
    }
  }

  lemma RunsExtend(init: seq<Run>, row: seq<Rgb>, s: int)
    requires 0 <= s < |row| && Encodes(init, row[..s])
    requires forall j | s <= j < |row| :: row[j] == row[|row| - 1]
    requires s == 0 || row[s - 1] != row[|row| - 1]
    ensures Encodes(init + [Run(s, |row| - s, row[|row| - 1])], row)
  {
    var last := Run(s, |row| - s, row[|row| - 1]);
    ExpandLength(init);
    if init != [] {
      LastRunIsMaximal(init, row[..s]);
    }
    AppendRun(init, last);
    assert seq(last.len, _ => last.color) == row[s..];
    assert row[..s] + row[s..] == row;
  }

  /** Closing the current run at column q extends an encoding of row[..s] to one of row[..q]. */
  lemma PushRun(runs: seq<Run>, row: seq<Rgb>, s: int, q: int, c: Rgb)
    requires 0 <= s < q <= |row|
    requires NonEmptyRuns(runs) && Contiguous(runs) && Alternating(runs)
    requires End(runs) == s && Expand(runs) == row[..s]
    requires forall j | s <= j < q :: row[j] == c
    requires runs != [] ==> runs[|runs| - 1].color != c
    ensures var next := runs + [Run(s, q - s, c)];
      && NonEmptyRuns(next) && Contiguous(next) && Alternating(next)
      && End(next) == q && Expand(next) == row[..q]
  {
    var run := Run(s, q - s, c);
    AppendRun(runs, run);
    assert seq(run.len, _ => run.color) == row[s..q];
    assert row[..s] + row[s..q] == row[..q];
  }

  /**
   * One row of export_svg's encoder: scan q = 1..=w, comparing against the
   * run colour; past the end compare against the sentinel, which always
   * differs, so the final run is flushed.
   */
  method EncodeRow(row: seq<Rgb>) returns (runs: seq<Run>)
    requires |row| >= 1
    ensures Encodes(runs, row)
    ensures runs == Runs(row)
  {
    runs := [];
    var runStart := 0;
    var runColor := row[0];
    for q := 1 to |row| + 1
      invariant 0 <= runStart <= |row|
      invariant NonEmptyRuns(runs) && Contiguous(runs) && Alternating(runs)
      invariant End(runs) == runStart && Expand(runs) == row[..runStart]
      invariant q <= |row| ==> runStart < q && runColor == row[runStart]
      invariant q <= |row| ==> forall j | runStart <= j < q :: row[j] == runColor
      invariant q <= |row| && runs != [] ==> runs[|runs| - 1].color != runColor
      invariant q == |row| + 1 ==> runStart == |row|
    {
      var cur := if q < |row| then row[q] else Sentinel(runColor);
      if cur != runColor {
        PushRun(runs, row, runStart, q, runColor);
        runs := runs + [Run(runStart, q - runStart, runColor)];
        runStart := q;
        runColor := cur;
      }
    }
    assert row[..|row|] == row;
    EncodingUnique(runs, Runs(row), row);
  }

  // ---------------------------------------------------------------------------
  // The document
  // ---------------------------------------------------------------------------

  /** The lines export_svg writes. */
  datatype Element =
    | XmlDecl
    | SvgOpen(width: int, height: int)
    | Rect(x: int, y: int, width: int, fill: Rgb)
    | SvgClose

  /** Row r of a column-major w x h buffer: pixel (q, r) for q = 0 .. w-1. */
  function RowOf(pixels: seq<Rgb>, w: int, h: int, r: int): (row: seq<Rgb>)
    requires 0 <= w && 0 <= r < h && |pixels| == w * h
    ensures |row| == w
  {
    seq(w, q requires 0 <= q < w => pixels[CellAt(q, r, w, h)])
  }

  /** One `<rect>` of height 1 per run, on row r. */
  function RowRects(runs: seq<Run>, r: int): (rects: seq<Element>)
    ensures |rects| == |runs|
    ensures forall k | 0 <= k < |runs| :: rects[k] == Rect(runs[k].start, r, runs[k].len, runs[k].color)
  {
    if runs == [] then [] else [Rect(runs[0].start, r, runs[0].len, runs[0].color)] + RowRects(runs[1..], r)
  }

  /** The rects of rows 0 .. n-1, in row order. */
  function BodyRects(pixels: seq<Rgb>, w: int, h: int, n: int): seq<Element>
    requires 0 <= w && 0 <= n <= h && |pixels| == w * h
  {
    if n == 0 then [] else BodyRects(pixels, w, h, n - 1) + RowRects(Runs(RowOf(pixels, w, h, n - 1)), n - 1)
  }

  /** The whole document for a world. */
  function Document(world: World): seq<Element>
    requires WellPlaced(world)
  {
    [XmlDecl, SvgOpen(world.width, world.height)]
      + BodyRects(PixelGrid(world), world.width, world.height, world.height)
      + [SvgClose]
  }

  /** The row loop of export_svg: rows 0 .. h-1, each encoded into rects. */
  method EncodeRows(pixels: seq<Rgb>, w: int, h: int) returns (body: seq<Element>)
    requires 0 <= w && 0 <= h && |pixels| == w * h
    requires h > 0 ==> w > 0
    ensures body == BodyRects(pixels, w, h, h)
  {
    body := [];
    for r := 0 to h
      invariant body == BodyRects(pixels, w, h, r)
    {
      var runs := EncodeRow(RowOf(pixels, w, h, r));
      body := body + RowRects(runs, r);
    }
  }

  /**
   * export_svg without the file write: the document, row by row.
   * Indexing pixel (0, r) needs at least one column whenever there is a row.
   */
  method ExportSvg(world: World) returns (doc: seq<Element>)
    requires WellPlaced(world)
    requires world.height > 0 ==> world.width > 0
    ensures doc == Document(world)
    ensures |doc| >= 3 && doc[0] == XmlDecl && doc[1] == SvgOpen(world.width, world.height)
    ensures doc[|doc| - 1] == SvgClose
  {
    var body := EncodeRows(PixelGrid(world), world.width, world.height);
    doc := [XmlDecl, SvgOpen(world.width, world.height)] + body + [SvgClose];
  }

  /** The rects of an encoded row tile columns 0 .. w-1 exactly, in order, with alternating fills. */
  lemma RowRectsTileTheRow(runs: seq<Run>, row: seq<Rgb>, r: int)
    requires Encodes(runs, row)
    ensures |row| > 0 ==> |RowRects(runs, r)| > 0 && RowRects(runs, r)[0].x == 0
    ensures forall k | 0 <= k < |runs| :: RowRects(runs, r)[k].y == r && RowRects(runs, r)[k].width >= 1
    ensures forall k | 0 <= k < |runs| - 1 ::
      RowRects(runs, r)[k + 1].x == RowRects(runs, r)[k].x + RowRects(runs, r)[k].width
    ensures forall k | 0 <= k < |runs| - 1 :: RowRects(runs, r)[k].fill != RowRects(runs, r)[k + 1].fill
    ensures runs != [] ==> End(runs) == |row|
  {
    if runs != [] {
      EncodesInit(runs, row);
    }
  }

  /** A pixel under a rect has the rect's fill, so the rects redraw the row exactly. */
  lemma RectPixel(runs: seq<Run>, row: seq<Rgb>, r: int, k: int, j: int)
    requires Encodes(runs, row) && 0 <= k < |runs|
    requires RowRects(runs, r)[k].x <= j < RowRects(runs, r)[k].x + RowRects(runs, r)[k].width
    ensures 0 <= j < |row| && row[j] == RowRects(runs, r)[k].fill
  {
    RunsPaintTheirPixels(runs, row, k, j);
  }

  /** On a column-major world, pixel q of row r is the colour of the tile at (q, r). */
  lemma RowOfWorld(world: World, r: int, q: int)
    requires ColumnMajorTiles(world) && WellPlaced(world)
    requires 0 <= q < world.width && 0 <= r < world.height
    ensures RowOf(PixelGrid(world), world.width, world.height, r)[q]
      == PixelColor(world, ElevationGrid(world), world.tiles[CellAt(q, r, world.width, world.height)])
  {
    PixelGridColumnMajor(world, CellAt(q, r, world.width, world.height));
  }
}
