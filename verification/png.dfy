/**
 * The PNG map exporter and the raster primitives of the legend: an RGB image
 * with bounds-checked pixel writes, the tile painting with contour darkening,
 * the dashed latitude lines, clipped rectangle fills and bitmap glyphs.
 */
module Png {
  import opened Wrappers
  import opened Colors
  import opened Generation
  import opened Grids

  // ---------------------------------------------------------------------------
  // Images
  // ---------------------------------------------------------------------------

  /** An RGB image stored row-major: pixel (x, y) is data[y * width + x]. */
  datatype Image = Image(width: int, height: int, data: seq<Rgb>) {
    ghost predicate Valid() {
      0 <= width && 0 <= height && |data| == width * height
    }

    predicate InBounds(x: int, y: int) {
      0 <= x < width && 0 <= y < height
    }

    function At(x: int, y: int): Rgb
      requires Valid() && InBounds(x, y)
    {
      data[CellAt(y, x, height, width)]
    }
  }

  /** An image of the given size with every pixel set to one colour. */
  function Filled(width: int, height: int, c: Rgb): (img: Image)
    requires 0 <= width && 0 <= height
    ensures img.Valid() && img.width == width && img.height == height
    ensures forall x, y | img.InBounds(x, y) :: img.At(x, y) == c
  {
    Image(width, height, seq(width * height, _ => c))
  }

  /** A fresh image: every pixel black. */
  function Blank(width: int, height: int): (img: Image)
    requires 0 <= width && 0 <= height
    ensures img.Valid() && img.width == width && img.height == height
    ensures forall x, y | img.InBounds(x, y) :: img.At(x, y) == Black
  {
    Filled(width, height, Black)
  }

  /** put_pixel: the pixel must be inside the image; every other pixel is kept. */
  function Put(img: Image, x: int, y: int, c: Rgb): (out: Image)
    requires img.Valid() && img.InBounds(x, y)
    ensures out.Valid() && out.width == img.width && out.height == img.height
    ensures out.At(x, y) == c
    ensures forall px, py | out.InBounds(px, py) && (px != x || py != y) :: out.At(px, py) == img.At(px, py)
  {
    img.(data := img.data[CellAt(y, x, img.height, img.width) := c])
  }

  // ---------------------------------------------------------------------------
  // The map
  // ---------------------------------------------------------------------------

  /** One put_pixel per tile, at (q, r), of the tile's pixel colour. */
  function MapWrites(w: World): (ws: seq<Write<Rgb>>)
    requires WellPlaced(w)
    ensures |ws| == |w.tiles| && WritesInRange(ws, w.width * w.height)
  {
    var grid := ElevationGrid(w);
    seq(|w.tiles|, k requires 0 <= k < |w.tiles| =>
      Write(CellAt(w.tiles[k].r, w.tiles[k].q, w.height, w.width), PixelColor(w, grid, w.tiles[k])))
  }

  /** The tile loop of export_png: a w x h image, then every tile painted in order. */
  method PaintTiles(w: World) returns (img: Image)
    requires WellPlaced(w)
    ensures img.Valid() && img.width == w.width && img.height == w.height
    ensures img.data == Scatter(Blank(w.width, w.height).data, MapWrites(w))
  {
    img := Blank(w.width, w.height);
    var grid := ElevationGrid(w);
    var ws := MapWrites(w);
    for k := 0 to |w.tiles|
      invariant img.Valid() && img.width == w.width && img.height == w.height
      invariant img.data == Scatter(Blank(w.width, w.height).data, ws[..k])
    {
      var t := w.tiles[k];
      assert ws[..k + 1][..k] == ws[..k];
      img := Put(img, t.q, t.r, PixelColor(w, grid, t));
    }
    assert ws[..|w.tiles|] == ws;
  }

  /** On a column-major world, pixel (q, r) of the painted map is the colour of the tile at (q, r). */
  lemma PaintedPixel(w: World, img: Image, q: int, r: int)
    requires ColumnMajorTiles(w) && WellPlaced(w)
    requires img.Valid() && img.width == w.width && img.height == w.height
    requires img.data == Scatter(Blank(w.width, w.height).data, MapWrites(w))
    requires img.InBounds(q, r)
    ensures img.At(q, r) == PixelColor(w, ElevationGrid(w), w.tiles[CellAt(q, r, w.width, w.height)])
  {
    var ws := MapWrites(w);
    var k := CellAt(q, r, w.width, w.height);
    assert w.tiles[k].q == q && w.tiles[k].r == r;
    forall i, j | 0 <= i < j < |ws|
      ensures ws[i].at != ws[j].at
    {
      var ti, tj := w.tiles[i], w.tiles[j];
      assert ti.q == i / w.height && ti.r == i % w.height;
      assert tj.q == j / w.height && tj.r == j % w.height;
      IndexOrder(i, j, w.height);
    }
    ScatterDistinct(Blank(w.width, w.height).data, ws, k);
  }

  // ---------------------------------------------------------------------------
  // Dashed reference lines
  // ---------------------------------------------------------------------------

  /** A latitude line: its row as a fraction of the height, and its colour. */
  datatype Line = Line(fraction: real, color: Rgb)

  /** Equator (red), the two tropics (amber) and the two polar circles (cyan). */
  const ReferenceLines: seq<Line> := [
    Line(0.5, Rgb(220, 50, 50)),
    Line(0.5 + 23.5 / 180.0, Rgb(220, 150, 0)),
    Line(0.5 - 23.5 / 180.0, Rgb(220, 150, 0)),
    Line(0.5 + 66.5 / 180.0, Rgb(0, 200, 240)),
    Line(0.5 - 66.5 / 180.0, Rgb(0, 200, 240))
  ]

  const DashOn: int := 6
  const DashOff: int := 4
  const DashPeriod: int := DashOn + DashOff

  /** f64::round: to the nearest integer, halves away from zero. */
  function Round(x: real): (n: int)
    ensures x >= 0.0 ==> n >= 0
    ensures n as real - 0.5 <= x <= n as real + 0.5
    ensures x >= 0.0 ==> x < n as real + 0.5
    ensures x < 0.0 ==> n as real - 0.5 < x
  {
    if x >= 0.0 then (x + 0.5).Floor else -((-x + 0.5).Floor)
  }

  /** The row a line is drawn on in an image of height h. */
  function LineRow(h: int, l: Line): (row: int)
    requires 0 <= h && 0.0 <= l.fraction
    ensures 0 <= row
  {
    Round(h as real * l.fraction)
  }

  /** Column x lies on a dash: six pixels on, four off. */
  predicate OnDash(x: int) {
    x % DashPeriod < DashOn
  }

  /** One dashed line: row `row`, columns with x % 10 < 6; skipped when the row is outside. */
  method DrawDashedLine(img: Image, row: int, color: Rgb) returns (out: Image)
    requires img.Valid() && 0 <= row
    ensures out.Valid() && out.width == img.width && out.height == img.height
    ensures row >= img.height ==> out == img
    ensures forall x, y | out.InBounds(x, y) ::
      out.At(x, y) == if y == row && OnDash(x) then color else img.At(x, y)
  {
    out := img;
    if row >= img.height {
      return;
    }
    for x := 0 to img.width
      invariant out.Valid() && out.width == img.width && out.height == img.height
      invariant forall px, py | out.InBounds(px, py) ::
        out.At(px, py) == if py == row && px < x && OnDash(px) then color else img.At(px, py)
    {
      if x % DashPeriod < DashOn {
        out := Put(out, x, row, color);
      }
    }
  }

  /** The colour the last line drawn over (x, y) leaves there, if any does. */
  function Overlay(lines: seq<Line>, h: int, x: int, y: int): Option<Rgb>
    requires 0 <= h && forall k | 0 <= k < |lines| :: 0.0 <= lines[k].fraction
  {
    if lines == [] then None
    else
      var last := lines[|lines| - 1];
      var row := LineRow(h, last);
      if row < h && y == row && OnDash(x) then Some(last.color)
      else Overlay(lines[..|lines| - 1], h, x, y)
  }

  /** All reference lines, in order, over the painted map. */
  method DrawLines(img: Image, lines: seq<Line>) returns (out: Image)
    requires img.Valid() && forall k | 0 <= k < |lines| :: 0.0 <= lines[k].fraction
    ensures out.Valid() && out.width == img.width && out.height == img.height
    ensures forall x, y | out.InBounds(x, y) ::
      out.At(x, y) == Overlay(lines, img.height, x, y).GetOr(img.At(x, y))
  {
    out := img;
    for k := 0 to |lines|
      invariant out.Valid() && out.width == img.width && out.height == img.height
      invariant forall x, y | out.InBounds(x, y) ::
        out.At(x, y) == Overlay(lines[..k], img.height, x, y).GetOr(img.At(x, y))
    {
      assert lines[..k + 1][..k] == lines[..k];
      out := DrawDashedLine(out, LineRow(img.height, lines[k]), lines[k].color);
    }
    assert lines[..|lines|] == lines;
  }

  /** On a one-row image the equator and the northern lines round to row 1 and are skipped. */
  lemma OneRowImageLines()
    ensures LineRow(1, ReferenceLines[0]) == 1 && LineRow(1, ReferenceLines[1]) == 1
    ensures LineRow(1, ReferenceLines[3]) == 1
    ensures LineRow(1, ReferenceLines[2]) == 0 && LineRow(1, ReferenceLines[4]) == 0
    ensures Overlay(ReferenceLines, 1, 0, 0) == Some(Rgb(0, 200, 240))
  {
  }

  /** The gaps between dashes always show the map underneath. */
  lemma {:induction false} GapsShowTheMap(lines: seq<Line>, h: int, x: int, y: int)
    requires 0 <= h && forall k | 0 <= k < |lines| :: 0.0 <= lines[k].fraction
    requires !OnDash(x)
    ensures Overlay(lines, h, x, y) == None
  {
    if lines != [] {
      GapsShowTheMap(lines[..|lines| - 1], h, x, y);
    }
  }

  /** A line shows only on a row some line rounds to, inside the image. */
  lemma {:induction false} OverlayOnLineRow(lines: seq<Line>, h: int, x: int, y: int)
    requires 0 <= h && forall k | 0 <= k < |lines| :: 0.0 <= lines[k].fraction
    requires Overlay(lines, h, x, y).Some?
    ensures y < h && exists k | 0 <= k < |lines| :: LineRow(h, lines[k]) == y && lines[k].color == Overlay(lines, h, x, y).value
  {
    var last := lines[|lines| - 1];
    if LineRow(h, last) < h && y == LineRow(h, last) && OnDash(x) {
      assert LineRow(h, lines[|lines| - 1]) == y;
    } else {
      var init := lines[..|lines| - 1];
      OverlayOnLineRow(init, h, x, y);
      var k :| 0 <= k < |init| && LineRow(h, init[k]) == y && init[k].color == Overlay(init, h, x, y).value;
      assert lines[k] == init[k];
    }
  }

  /**
   * On a 180-row image, one row per degree of latitude, the equator, the
   * tropics and the Arctic Circle sit on rows 90, 114, 67 and 157. The
   * Antarctic Circle's exact product is the half row 23.5, so its row
   * depends on how the product is rounded before f64::round sees it.
   */
  lemma DegreeRows()
    ensures LineRow(180, ReferenceLines[0]) == 90
    ensures LineRow(180, ReferenceLines[1]) == 114 && LineRow(180, ReferenceLines[2]) == 67
    ensures LineRow(180, ReferenceLines[3]) == 157
    ensures 180.0 * ReferenceLines[4].fraction == 23.5
  {
  }

  /**
   * export_png without the file write: the painted map, then the dashed
   * lines. A pixel shows the last line drawn over it, else its tile colour.
   */
  method ExportPng(w: World) returns (img: Image)
    requires WellPlaced(w)
    ensures img.Valid() && img.width == w.width && img.height == w.height
    ensures ColumnMajorTiles(w) ==> forall x, y | img.InBounds(x, y) ::
      img.At(x, y) == Overlay(ReferenceLines, w.height, x, y).GetOr(
        PixelColor(w, ElevationGrid(w), w.tiles[CellAt(x, y, w.width, w.height)]))
  {
    var painted := PaintTiles(w);
    ReferenceFractions();
    img := DrawLines(painted, ReferenceLines);
    if ColumnMajorTiles(w) {
      PaintedMap(w, painted);
    }
  }

  /** The five reference lines all sit at or below the top edge. */
  lemma ReferenceFractions()
    ensures forall k | 0 <= k < |ReferenceLines| :: 0.0 <= ReferenceLines[k].fraction
  {
  }

  /** PaintedPixel at every pixel of the painted map. */
  lemma PaintedMap(w: World, img: Image)
    requires ColumnMajorTiles(w) && WellPlaced(w)
    requires img.Valid() && img.width == w.width && img.height == w.height
    requires img.data == Scatter(Blank(w.width, w.height).data, MapWrites(w))
    ensures forall x, y | img.InBounds(x, y) ::
      img.At(x, y) == PixelColor(w, ElevationGrid(w), w.tiles[CellAt(x, y, w.width, w.height)])
  {
    forall x, y | img.InBounds(x, y)
      ensures img.At(x, y) == PixelColor(w, ElevationGrid(w), w.tiles[CellAt(x, y, w.width, w.height)])
    {
      PaintedPixel(w, img, x, y);
    }
  }

  // ---------------------------------------------------------------------------
  // Rectangles and glyphs
  // ---------------------------------------------------------------------------

  /** (px, py) lies in the w x h rectangle at (x, y). */
  predicate InRect(px: int, py: int, x: int, y: int, w: int, h: int) {
    x <= px < x + w && y <= py < y + h
  }

  /** fill_rect: the rectangle's pixels inside the image take the colour; the rest is clipped. */
  method FillRect(img: Image, x: int, y: int, w: int, h: int, color: Rgb) returns (out: Image)
    requires img.Valid() && 0 <= x && 0 <= y && 0 <= w && 0 <= h
    ensures out.Valid() && out.width == img.width && out.height == img.height
    ensures forall px, py | out.InBounds(px, py) ::
      out.At(px, py) == if InRect(px, py, x, y, w, h) then color else img.At(px, py)
  {
    out := img;
    for dy := 0 to h
      invariant out.Valid() && out.width == img.width && out.height == img.height
      invariant forall px, py | out.InBounds(px, py) ::
        out.At(px, py) == if InRect(px, py, x, y, w, dy) then color else img.At(px, py)
    {
      for dx := 0 to w
        invariant out.Valid() && out.width == img.width && out.height == img.height
        invariant forall px, py | out.InBounds(px, py) ::
          out.At(px, py) == if InRect(px, py, x, y, w, dy) || InRect(px, py, x, y + dy, dx, 1) then color
                            else img.At(px, py)
      {
        var px, py := x + dx, y + dy;
        if px < out.width && py < out.height {
          out := Put(out, px, py, color);
        }
      }
    }
  }

  /** One 8 x 8 bitmap glyph: a byte per row, bit `col` set where the pixel is lit. */
  type Glyph = g: seq<bv8> | |g| == 8 witness [0, 0, 0, 0, 0, 0, 0, 0]

  /** The glyph's bit at (col, row). */
  predicate Lit(g: Glyph, col: int, row: int)
    requires 0 <= col < 8 && 0 <= row < |g|
  {
    g[row] & (1 << col) != 0
  }

  /** The glyph scaled by two covers offset (dx, dy) from its top-left corner. */
  predicate GlyphCovers(g: Glyph, dx: int, dy: int) {
    0 <= dx < 16 && 0 <= dy < 2 * |g| && Lit(g, dx / 2, dy / 2)
  }

  /** The glyph's lit blocks at offset (dx, dy) that precede bit `col` of glyph row `row`. */
  predicate Drawn(g: Glyph, dx: int, dy: int, row: int, col: int) {
    GlyphCovers(g, dx, dy) && (dy / 2 < row || (dy / 2 == row && dx / 2 < col))
  }

  /** The 2 x 2 block of bit (col, row) is exactly the offsets that halve to (col, row). */
  lemma BlockOfBit(dx: int, dy: int, row: int, col: int)
    ensures InRect(dx, dy, col * 2, row * 2, 2, 2) <==> (dx / 2 == col && dy / 2 == row)
  {
  }

  lemma DrawnStep(g: Glyph, dx: int, dy: int, row: int, col: int)
    requires 0 <= row < |g| && 0 <= col < 8
    ensures Drawn(g, dx, dy, row, col + 1) <==>
      (Drawn(g, dx, dy, row, col) || (Lit(g, col, row) && InRect(dx, dy, col * 2, row * 2, 2, 2)))
  {
    BlockOfBit(dx, dy, row, col);
  }

  /** The lit blocks of glyph row `row` among bits 0 .. col - 1 cover offset (dx, dy). */
  predicate RowDrawn(g: Glyph, dx: int, dy: int, row: int, col: int) {
    Drawn(g, dx, dy, row, col) && !Drawn(g, dx, dy, row, 0)
  }

  /** Filling bit col's block (when lit) advances the row's drawn area by one bit. */
  lemma GlyphRowStep(img: Image, before: Image, after: Image, g: Glyph, row: int, col: int,
                     x: int, y: int, color: Rgb)
    requires 0 <= row < |g| && 0 <= col < 8
    requires img.Valid() && before.Valid() && after.Valid()
    requires before.width == img.width && before.height == img.height
    requires after.width == img.width && after.height == img.height
    requires forall px, py | before.InBounds(px, py) ::
      before.At(px, py) == if RowDrawn(g, px - x, py - y, row, col) then color else img.At(px, py)
    requires forall px, py | after.InBounds(px, py) ::
      after.At(px, py) == if Lit(g, col, row) && InRect(px, py, x + col * 2, y + row * 2, 2, 2) then color
                          else before.At(px, py)
    ensures forall px, py | after.InBounds(px, py) ::
      after.At(px, py) == if RowDrawn(g, px - x, py - y, row, col + 1) then color else img.At(px, py)
  {
    forall px, py | after.InBounds(px, py)
      ensures after.At(px, py) == if RowDrawn(g, px - x, py - y, row, col + 1) then color else img.At(px, py)
    {
      DrawnStep(g, px - x, py - y, row, col);
    }
  }

  /** One glyph row: bits 0 to 7, each lit bit filling its 2 x 2 block. */
  method DrawGlyphRow(img: Image, g: Glyph, row: int, x: int, y: int, color: Rgb) returns (out: Image)
    requires img.Valid() && 0 <= x && 0 <= y && 0 <= row < |g|
    ensures out.Valid() && out.width == img.width && out.height == img.height
    ensures forall px, py | out.InBounds(px, py) ::
      out.At(px, py) == if RowDrawn(g, px - x, py - y, row, 8) then color else img.At(px, py)
  {
    out := img;
    for col := 0 to 8
      invariant out.Valid() && out.width == img.width && out.height == img.height
      invariant forall px, py | out.InBounds(px, py) ::
        out.At(px, py) == if RowDrawn(g, px - x, py - y, row, col) then color else img.At(px, py)
    {
      var before := out;
      if g[row] & (1 << col) != 0 {
        out := FillRect(out, x + col * 2, y + row * 2, 2, 2, color);
      }
      GlyphRowStep(img, before, out, g, row, col, x, y, color);
    }
  }

  /**
   * draw_char: an unknown character draws nothing; otherwise every lit bit
   * becomes a 2 x 2 block, clipped to the image.
   */
  method DrawChar(img: Image, glyph: Option<Glyph>, x: int, y: int, color: Rgb) returns (out: Image)
    requires img.Valid() && 0 <= x && 0 <= y
    ensures out.Valid() && out.width == img.width && out.height == img.height
    ensures glyph.None? ==> out == img
    ensures forall px, py | out.InBounds(px, py) ::
      out.At(px, py) == if glyph.Some? && GlyphCovers(glyph.value, px - x, py - y) then color else img.At(px, py)
  {
    out := img;
    if glyph.None? {
      return;
    }
    var g := glyph.value;
    for row := 0 to |g|
      invariant out.Valid() && out.width == img.width && out.height == img.height
      invariant forall px, py | out.InBounds(px, py) ::
        out.At(px, py) == if Drawn(g, px - x, py - y, row, 0) then color else img.At(px, py)
    {
      out := DrawGlyphRow(out, g, row, x, y, color);
      forall px, py | out.InBounds(px, py)
        ensures Drawn(g, px - x, py - y, row + 1, 0) <==>
          (Drawn(g, px - x, py - y, row, 0) || Drawn(g, px - x, py - y, row, 8))
      {
      }
    }
    forall px, py | out.InBounds(px, py)
      ensures Drawn(g, px - x, py - y, |g|, 0) == GlyphCovers(g, px - x, py - y)
    {
    }
  }

  /** draw_str: character i drawn 16 pixels further right than character i - 1. */
  method DrawStr(img: Image, font: char -> Option<Glyph>, s: string, x: int, y: int, color: Rgb)
    returns (out: Image)
    requires img.Valid() && 0 <= x && 0 <= y
    ensures out.Valid() && out.width == img.width && out.height == img.height
    ensures forall px, py | out.InBounds(px, py) ::
      out.At(px, py) == if StrCovers(font, s, px - x, py - y) then color else img.At(px, py)
  {
    out := img;
    for i := 0 to |s|
      invariant out.Valid() && out.width == img.width && out.height == img.height
      invariant forall px, py | out.InBounds(px, py) ::
        out.At(px, py) == if StrCovers(font, s[..i], px - x, py - y) then color else img.At(px, py)
    {
      var before := out;
      out := DrawChar(out, font(s[i]), x + i * 16, y, color);
      StrStep(img, before, out, font, s, i, x, y, color);
    }
    assert s[..|s|] == s;
  }

  /** Offset (dx, dy) from the string's corner is lit by the character whose 16-pixel cell holds dx. */
  predicate StrCovers(font: char -> Option<Glyph>, s: string, dx: int, dy: int) {
    && 0 <= dx < 16 * |s|
    && var g := font(s[dx / 16]);
    && g.Some? && GlyphCovers(g.value, dx % 16, dy)
  }

  /** Drawing character i extends the drawn prefix from s[..i] to s[..i + 1]. */
  lemma StrStep(img: Image, before: Image, after: Image, font: char -> Option<Glyph>, s: string, i: int,
                x: int, y: int, color: Rgb)
    requires 0 <= i < |s| && img.Valid() && before.Valid() && after.Valid()
    requires before.width == img.width && before.height == img.height
    requires after.width == img.width && after.height == img.height
    requires forall px, py | before.InBounds(px, py) ::
      before.At(px, py) == if StrCovers(font, s[..i], px - x, py - y) then color else img.At(px, py)
    requires forall px, py | after.InBounds(px, py) ::
      after.At(px, py) ==
        if font(s[i]).Some? && GlyphCovers(font(s[i]).value, px - (x + i * 16), py - y) then color
        else before.At(px, py)
    ensures forall px, py | after.InBounds(px, py) ::
      after.At(px, py) == if StrCovers(font, s[..i + 1], px - x, py - y) then color else img.At(px, py)
  {
    forall px, py | after.InBounds(px, py)
      ensures after.At(px, py) == if StrCovers(font, s[..i + 1], px - x, py - y) then color else img.At(px, py)
    {
      StrCoversStep(font, s, i, px - x, py - y);
    }
  }

  lemma StrCoversStep(font: char -> Option<Glyph>, s: string, i: int, dx: int, dy: int)
    requires 0 <= i < |s|
    ensures StrCovers(font, s[..i + 1], dx, dy) <==>
      (StrCovers(font, s[..i], dx, dy) || (font(s[i]).Some? && GlyphCovers(font(s[i]).value, dx - i * 16, dy)))
  {
    if 0 <= dx < 16 * (i + 1) {
      assert s[..i + 1][dx / 16] == s[dx / 16];
      if dx < 16 * i {
        assert s[..i][dx / 16] == s[dx / 16];
      }
    }
  }
}
