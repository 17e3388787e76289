/**
 * The exporters' shared view of a world: the column-major elevation and
 * colour buffers filled tile by tile, the bounds-checked neighbour lookup,
 * the contour-crossing test and the per-pixel colour.
 */
module Grids {
  import opened Wrappers
  import opened Colors
  import opened Biomes
  import opened Generation

  // ---------------------------------------------------------------------------
  // Buffers filled by indexed writes
  // ---------------------------------------------------------------------------

  /** `buffer[at] = value`. */
  datatype Write<T> = Write(at: int, value: T)

  predicate WritesInRange<T>(ws: seq<Write<T>>, n: int) {
    forall k | 0 <= k < |ws| :: 0 <= ws[k].at < n
  }

  predicate DistinctTargets<T>(ws: seq<Write<T>>) {
    forall j, k | 0 <= j < k < |ws| :: ws[j].at != ws[k].at
  }

  /** The writes applied in order; a slot no write targets keeps its initial value. */
  function Scatter<T>(buf: seq<T>, ws: seq<Write<T>>): (out: seq<T>)
    requires WritesInRange(ws, |buf|)
    ensures |out| == |buf|
    ensures forall i | 0 <= i < |buf| && (forall k | 0 <= k < |ws| :: ws[k].at != i) :: out[i] == buf[i]
  {
    if ws == [] then buf
    else
      var last := ws[|ws| - 1];
      Scatter(buf, ws[..|ws| - 1])[last.at := last.value]
  }

  /** With distinct targets every write survives: the slot it targets holds its value. */
  lemma {:induction false} ScatterDistinct<T>(buf: seq<T>, ws: seq<Write<T>>, k: int)
    requires WritesInRange(ws, |buf|) && DistinctTargets(ws)
    requires 0 <= k < |ws|
    ensures Scatter(buf, ws)[ws[k].at] == ws[k].value
  {
    if k < |ws| - 1 {
      var init := ws[..|ws| - 1];
      assert WritesInRange(init, |buf|) && DistinctTargets(init);
      assert init[k] == ws[k];
      ScatterDistinct(buf, init, k);
    }
  }

  // ---------------------------------------------------------------------------
  // Column-major grids over a world
  // ---------------------------------------------------------------------------

  /** Every tile's cell lies inside the world's width x height grid. */
  predicate WellPlaced(w: World) {
    && 0 <= w.width && 0 <= w.height
    && forall k | 0 <= k < |w.tiles| :: 0 <= w.tiles[k].q < w.width && 0 <= w.tiles[k].r < w.height
  }

  /** Tile i holds cell (i / height, i % height) and the grid is exactly covered. */
  predicate ColumnMajorTiles(w: World) {
    && 0 < w.width && 0 < w.height
    && |w.tiles| == w.width * w.height
    && forall i | 0 <= i < |w.tiles| :: w.tiles[i].q == i / w.height && w.tiles[i].r == i % w.height
  }

  /** The worlds generate_world builds are laid out column-major. */
  lemma GeneratedIsColumnMajor(p: Params, n: NoiseSet, m: Math, w: World)
    requires PositiveRoots(m) && p.width > 0 && p.height > 0 && LaidOut(p, n, m, w.tiles)
    requires w.width == p.width && w.height == p.height
    ensures ColumnMajorTiles(w)
  {
  }

  lemma ColumnMajorIsWellPlaced(w: World)
    requires ColumnMajorTiles(w)
    ensures WellPlaced(w)
  {
    forall k | 0 <= k < |w.tiles|
      ensures 0 <= w.tiles[k].q < w.width && 0 <= w.tiles[k].r < w.height
    {
      IndexInGrid(k, w.width, w.height);
    }
  }

  /** One write per tile, at its cell, of `f(tile)`. */
  function TileWrites<T>(w: World, f: Tile -> T): (ws: seq<Write<T>>)
    requires WellPlaced(w)
    ensures |ws| == |w.tiles| && WritesInRange(ws, w.width * w.height)
  {
    seq(|w.tiles|, k requires 0 <= k < |w.tiles| =>
      Write(CellAt(w.tiles[k].q, w.tiles[k].r, w.width, w.height), f(w.tiles[k])))
  }

  /** A w x h buffer of `init`, then one write per tile. */
  function TileGrid<T>(w: World, init: T, f: Tile -> T): (g: seq<T>)
    requires WellPlaced(w)
    ensures |g| == w.width * w.height
  {
    Scatter(seq(w.width * w.height, _ => init), TileWrites(w, f))
  }

  /** On a column-major world slot i of the grid holds tile i's value. */
  lemma TileGridColumnMajor<T>(w: World, init: T, f: Tile -> T, i: int)
    requires ColumnMajorTiles(w) && WellPlaced(w)
    requires 0 <= i < |w.tiles|
    ensures TileGrid(w, init, f)[i] == f(w.tiles[i])
  {
    var ws := TileWrites(w, f);
    forall k | 0 <= k < |ws|
      ensures ws[k].at == k
    {
      assert k == (k / w.height) * w.height + k % w.height;
    }
    ScatterDistinct(seq(w.width * w.height, _ => init), ws, i);
  }

  function Elevation(t: Tile): real {
    t.elevation
  }

  /** The elevation buffer: 0.0, then each tile's elevation at its cell. */
  function ElevationGrid(w: World): (g: seq<real>)
    requires WellPlaced(w)
    ensures |g| == w.width * w.height
  {
    TileGrid(w, 0.0, Elevation)
  }

  /** elev_at: None outside the grid, otherwise the buffered elevation. */
  function ElevAt(w: World, grid: seq<real>, q: int, r: int): (e: Option<real>)
    requires 0 <= w.width && 0 <= w.height && |grid| == w.width * w.height
    ensures e.None? <==> q < 0 || r < 0 || q >= w.width || r >= w.height
  {
    if q < 0 || r < 0 || q >= w.width || r >= w.height then None
    else Some(grid[CellAt(q, r, w.width, w.height)])
  }

  /** On a column-major world the lookup inside the grid returns the stored tile's elevation. */
  lemma ElevAtTile(w: World, q: int, r: int)
    requires ColumnMajorTiles(w) && WellPlaced(w)
    requires 0 <= q < w.width && 0 <= r < w.height
    ensures ElevAt(w, ElevationGrid(w), q, r) == Some(w.tiles[CellAt(q, r, w.width, w.height)].elevation)
  {
    var i := CellAt(q, r, w.width, w.height);
    TileGridColumnMajor(w, 0.0, Elevation, i);
    assert ElevationGrid(w)[i] == w.tiles[i].elevation;

  }

  // ---------------------------------------------------------------------------
  // Contours
  // ---------------------------------------------------------------------------

  const ContourLevels: seq<real> := [-0.45, -0.15, 0.0, 0.15, 0.30, 0.45, 0.60, 0.75, 0.90]

  function Min(a: real, b: real): real {
    if a < b then a else b
  }

  function Max(a: real, b: real): real {
    if a < b then b else a
  }

  /**
   * crosses_contour: a and b lie on different sides of some level, that is
   * some level lies in (min(a, b), max(a, b)].
   */
  function CrossesContour(a: real, b: real): (c: bool)
    ensures c <==> exists k | 0 <= k < |ContourLevels| :: Min(a, b) < ContourLevels[k] <= Max(a, b)
  {
    SidesDifferByIndex(ContourLevels, a, b);
    SidesDiffer(ContourLevels, a, b)
  }

  /** Some level has a on one side and b on the other. */
  predicate SidesDiffer(levels: seq<real>, a: real, b: real) {
    exists lvl | lvl in levels :: (a < lvl) != (b < lvl)
  }

  lemma SidesDifferByIndex(levels: seq<real>, a: real, b: real)
    ensures SidesDiffer(levels, a, b) <==> exists k | 0 <= k < |levels| :: Min(a, b) < levels[k] <= Max(a, b)
  {
    if SidesDiffer(levels, a, b) {
      var lvl :| lvl in levels && (a < lvl) != (b < lvl);
      var k :| 0 <= k < |levels| && levels[k] == lvl;
      assert Min(a, b) < levels[k] <= Max(a, b);
    }
    if exists k | 0 <= k < |levels| :: Min(a, b) < levels[k] <= Max(a, b) {
      var k :| 0 <= k < |levels| && Min(a, b) < levels[k] <= Max(a, b);
      assert levels[k] in levels;
    }
  }

  lemma CrossesContourSymmetric(a: real, b: real)
    ensures CrossesContour(a, b) == CrossesContour(b, a)
    ensures a == b ==> !CrossesContour(a, b)
  {
  }

  /** Two elevations in the same band between consecutive levels never cross. */
  lemma SameBandNoContour(a: real, b: real, k: int)
    requires 0 <= k < |ContourLevels| - 1
    requires ContourLevels[k] <= a < ContourLevels[k + 1] && ContourLevels[k] <= b < ContourLevels[k + 1]
    ensures !CrossesContour(a, b)
  {
  }

  /** The four orthogonal neighbours of (q, r): left, right, below, above. */
  function Neighbours(q: int, r: int): seq<(int, int)> {
    [(q - 1, r), (q + 1, r), (q, r - 1), (q, r + 1)]
  }

  /**
   * A tile is on a contour when the edge to some in-grid 4-neighbour crosses
   * a level; neighbours outside the grid are ignored.
   */
  function IsContour(w: World, grid: seq<real>, t: Tile): (c: bool)
    requires 0 <= w.width && 0 <= w.height && |grid| == w.width * w.height
    ensures c <==> exists k | 0 <= k < 4 :: EdgeCrosses(w, grid, t.elevation, Neighbours(t.q, t.r)[k])
  {
    var around := NeighbourElevations(w, grid, t.q, t.r);
    NeighbourLookup(w, grid, t);
    exists o | o in around :: o.Some? && CrossesContour(t.elevation, o.value)
  }

  /** The neighbour n is inside the grid and the edge from elevation e to it crosses a level. */
  predicate EdgeCrosses(w: World, grid: seq<real>, e: real, n: (int, int))
    requires 0 <= w.width && 0 <= w.height && |grid| == w.width * w.height
  {
    && 0 <= n.0 < w.width && 0 <= n.1 < w.height
    && CrossesContour(e, grid[CellAt(n.0, n.1, w.width, w.height)])
  }

  /** elev_at of the four neighbours, in the order left, right, below, above. */
  function NeighbourElevations(w: World, grid: seq<real>, q: int, r: int): seq<Option<real>>
    requires 0 <= w.width && 0 <= w.height && |grid| == w.width * w.height
  {
    [ElevAt(w, grid, q - 1, r), ElevAt(w, grid, q + 1, r), ElevAt(w, grid, q, r - 1), ElevAt(w, grid, q, r + 1)]
  }

  lemma NeighbourLookup(w: World, grid: seq<real>, t: Tile)
    requires 0 <= w.width && 0 <= w.height && |grid| == w.width * w.height
    ensures (exists o | o in NeighbourElevations(w, grid, t.q, t.r) :: o.Some? && CrossesContour(t.elevation, o.value))
      <==> exists k | 0 <= k < 4 :: EdgeCrosses(w, grid, t.elevation, Neighbours(t.q, t.r)[k])
  {
    var around := NeighbourElevations(w, grid, t.q, t.r);
    var ns := Neighbours(t.q, t.r);
    forall k | 0 <= k < 4
      ensures around[k] == ElevAt(w, grid, ns[k].0, ns[k].1)
    {
    }
    if exists o | o in around :: o.Some? && CrossesContour(t.elevation, o.value) {
      var o :| o in around && o.Some? && CrossesContour(t.elevation, o.value);
      var k :| 0 <= k < 4 && around[k] == o;
      assert EdgeCrosses(w, grid, t.elevation, ns[k]);
    }
    if exists k | 0 <= k < 4 :: EdgeCrosses(w, grid, t.elevation, ns[k]) {
      var k :| 0 <= k < 4 && EdgeCrosses(w, grid, t.elevation, ns[k]);
      assert around[k] in around;
    }
  }

  /** A tile's pixel: its biome colour, darkened on a contour. */
  function PixelColor(w: World, grid: seq<real>, t: Tile): (c: Rgb)
    requires 0 <= w.width && 0 <= w.height && |grid| == w.width * w.height
    ensures c.r <= BiomeColor(t.biome).r && c.g <= BiomeColor(t.biome).g && c.b <= BiomeColor(t.biome).b
    ensures c == BiomeColor(t.biome) <==> !IsContour(w, grid, t)
  {
    NoBlackBiome(t.biome);
    var base := BiomeColor(t.biome);
    if IsContour(w, grid, t) then Darken(base) else base
  }

  /** No biome is drawn black, so darkening always changes a biome colour. */
  lemma NoBlackBiome(b: Biome)
    ensures BiomeColor(b) != Black
  {
  }

  /** The colour buffer: black, then each tile's pixel colour at its cell. */
  function PixelGrid(w: World): (g: seq<Rgb>)
    requires WellPlaced(w)
    ensures |g| == w.width * w.height
  {
    var elevation := ElevationGrid(w);
    TileGrid(w, Black, (t: Tile) => PixelColor(w, elevation, t))
  }

  /** On a column-major world slot i of the colour buffer is tile i's pixel. */
  lemma PixelGridColumnMajor(w: World, i: int)
    requires ColumnMajorTiles(w) && WellPlaced(w)
    requires 0 <= i < |w.tiles|
    ensures PixelGrid(w)[i] == PixelColor(w, ElevationGrid(w), w.tiles[i])
  {
    var elevation := ElevationGrid(w);
    TileGridColumnMajor(w, Black, (t: Tile) => PixelColor(w, elevation, t), i);
  }
}
