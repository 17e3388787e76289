/**
 * World assembly: derived planet parameters, the per-cell signal chain
 * (projection, warp, noise, clamps, archetype offsets) and the column-major
 * tile sequence. Noise generators and transcendental functions are parameters.
 */
module Generation {
  import opened Biomes
  import opened Noise

  /** The seed is an unsigned 32-bit integer. */
  newtype u32 = x: int | 0 <= x < 0x1_0000_0000

  /** generate_world's arguments. */
  datatype Params = Params(
    width: int,
    height: int,
    seed: u32,
    seaLevel: real,
    volcanicIntensity: real,
    planetType: PlanetType,
    circumferenceKm: real)

  /**
   * The six Perlin generators, seeded from `seed`, `seed + 1`, `seed + 100`,
   * `seed + 200`, `seed + 201` and `seed + 300`.
   */
  datatype NoiseSet = NoiseSet(
    elevation: Sampler,
    moisture: Sampler,
    continent: Sampler,
    warpA: Sampler,
    warpB: Sampler,
    volcano: Sampler)

  /** The f64 transcendental functions the projection and the blend use. */
  datatype Math = Math(pi: real, cos: real -> real, sin: real -> real, sqrt: real -> real)

  /** A square root is positive on positive arguments, and the root of 1 is 1. */
  ghost predicate PositiveRoots(m: Math) {
    && (forall x: real :: x > 0.0 ==> m.sqrt(x) > 0.0)
    && m.sqrt(1.0) == 1.0
  }

  datatype Tile = Tile(q: int, r: int, elevation: real, moisture: real, temperature: real, biome: Biome)

  datatype World = World(
    width: int,
    height: int,
    seed: u32,
    planetType: PlanetType,
    seaLevel: real,
    volcanicIntensity: real,
    circumferenceKm: real,
    gravityModifier: real,
    tiles: seq<Tile>)

  // ---------------------------------------------------------------------------
  // Clamping and derived parameters
  // ---------------------------------------------------------------------------

  /** f32::clamp on a finite value. */
  function Clamp(v: real, lo: real, hi: real): (c: real)
    requires lo <= hi
    ensures lo <= c <= hi
    ensures lo <= v <= hi ==> c == v
    ensures v < lo ==> c == lo
    ensures v > hi ==> c == hi
  {
    if v < lo then lo else if v > hi then hi else v
  }

  /** Frequency multiplier: Earth's circumference over the planet's, at least 1 km. */
  function NoiseScale(circumferenceKm: real): (s: real)
    ensures 0.0 < s <= EarthCircumferenceKm
    ensures circumferenceKm >= 1.0 ==> s * circumferenceKm == EarthCircumferenceKm
    ensures circumferenceKm <= 1.0 ==> s == EarthCircumferenceKm
  {
    var c := if circumferenceKm < 1.0 then 1.0 else circumferenceKm;
    EarthCircumferenceKm / c
  }

  /** Surface gravity relative to Earth's, proportional to size within [0.1, 5]. */
  function GravityModifier(circumferenceKm: real): (g: real)
    ensures 0.1 <= g <= 5.0
    ensures 0.1 * EarthCircumferenceKm <= circumferenceKm <= 5.0 * EarthCircumferenceKm
      ==> g * EarthCircumferenceKm == circumferenceKm
    ensures circumferenceKm <= 0.1 * EarthCircumferenceKm ==> g == 0.1
    ensures circumferenceKm >= 5.0 * EarthCircumferenceKm ==> g == 5.0
  {
    Clamp(circumferenceKm / EarthCircumferenceKm, 0.1, 5.0)
  }

  /** Inside the unclamped range the noise scale is the reciprocal of the gravity modifier. */
  lemma ScaleIsInverseGravity(circumferenceKm: real)
    requires 0.1 * EarthCircumferenceKm <= circumferenceKm <= 5.0 * EarthCircumferenceKm
    ensures NoiseScale(circumferenceKm) * GravityModifier(circumferenceKm) == 1.0
  {
    assert NoiseScale(circumferenceKm) == EarthCircumferenceKm / circumferenceKm;
    assert GravityModifier(circumferenceKm) == circumferenceKm / EarthCircumferenceKm;
  }

  /** An Earth-sized planet keeps the original noise frequencies and unit gravity. */
  lemma EarthBaseline()
    ensures NoiseScale(EarthCircumferenceKm) == 1.0
    ensures GravityModifier(EarthCircumferenceKm) == 1.0
  {
  }

  /** Mountain relief shrinks with the square root of gravity, 0.35 at Earth gravity. */
  function MountainBlend(m: Math, gravity: real): (b: real)
    requires PositiveRoots(m) && gravity > 0.0
    ensures b > 0.0
    ensures m.sqrt(gravity) == 1.0 ==> b == 0.35
    ensures gravity == 1.0 ==> b == 0.35
  {
    0.35 / m.sqrt(gravity)
  }

  // ---------------------------------------------------------------------------
  // The per-cell signal chain
  // ---------------------------------------------------------------------------

  /** The raw noise readings at one cell. */
  datatype Samples = Samples(continent: real, mountain: real, moisture: real, volcanicRaw: real)

  /** A point in noise space. */
  datatype Point = Point(x: real, y: real, z: real) {
    /** The point with every coordinate multiplied by f. */
    function Scaled(f: real): Point {
      Point(x * f, y * f, z * f)
    }

    function Shifted(dx: real, dy: real, dz: real): Point {
      Point(x + dx, y + dy, z + dz)
    }
  }

  /** cos² + sin² = 1 at every angle. */
  ghost predicate Pythagorean(m: Math) {
    forall t: real :: m.cos(t) * m.cos(t) + m.sin(t) * m.sin(t) == 1.0
  }

  /**
   * The cell's longitude (0..2π) and latitude (-π/2..π/2) projected onto the
   * unit sphere.
   */
  function Project(m: Math, q: int, r: int, width: int, height: int): (pt: Point)
    requires width > 0 && height > 0
    ensures Pythagorean(m) ==> pt.x * pt.x + pt.y * pt.y + pt.z * pt.z == 1.0
  {
    var lon := (q as real / width as real) * 2.0 * m.pi;
    var lat := (r as real / height as real) * m.pi - m.pi / 2.0;
    OnUnitSphere(m.cos(lat), m.sin(lat), m.cos(lon), m.sin(lon));
    Point(m.cos(lat) * m.cos(lon), m.cos(lat) * m.sin(lon), m.sin(lat))
  }

  /** (c·C, c·S, s) is a unit vector when (c, s) and (C, S) are. */
  lemma OnUnitSphere(c: real, s: real, bigC: real, bigS: real)
    ensures c * c + s * s == 1.0 && bigC * bigC + bigS * bigS == 1.0 ==>
      (c * bigC) * (c * bigC) + (c * bigS) * (c * bigS) + s * s == 1.0
  {
    assert (c * bigC) * (c * bigC) + (c * bigS) * (c * bigS) == (c * c) * (bigC * bigC + bigS * bigS);
  }

  /**
   * Domain warp: x and y pushed by a quarter of two further noise readings,
   * so each moves by at most 0.25 over bounded noise; z is not warped.
   */
  function Warp(n: NoiseSet, p: Point, scale: real): (w: Point)
    ensures w.z == p.z
    ensures Bounded(n.warpA) ==> p.x - 0.25 <= w.x <= p.x + 0.25
    ensures Bounded(n.warpB) ==> p.y - 0.25 <= w.y <= p.y + 0.25
  {
    var a := p.Scaled(2.0 * scale);
    var b := a.Shifted(5.2, 1.3, 3.7);
    Point(p.x + n.warpA(a.x, a.y, a.z) * 0.25, p.y + n.warpB(b.x, b.y, b.z) * 0.25, p.z)
  }

  /**
   * The four noise readings: continent fbm (5 octaves), ridged mountains on
   * the warped point, moisture fbm (4) and volcano fbm (3). With bounded
   * generators every reading lies in its documented range.
   */
  function Sample(n: NoiseSet, p: Point, scale: real): (s: Samples)
    ensures Bounded(n.continent) ==> -1.0 <= s.continent <= 1.0
    ensures Bounded(n.elevation) ==> 0.0 <= s.mountain <= 1.0
    ensures Bounded(n.moisture) ==> -1.0 <= s.moisture <= 1.0
    ensures Bounded(n.volcano) ==> -1.0 <= s.volcanicRaw <= 1.0
  {
    var c := p.Scaled(0.8 * scale);
    var w := Warp(n, p, scale).Scaled(5.0 * scale);
    var m := p.Scaled(1.5 * scale);
    var v := p.Scaled(1.0 * scale);
    FbmBounded(n.continent, c.x, c.y, c.z, 5);
    RidgedBounded(n.elevation, w.x, w.y, w.z);
    FbmBounded(n.moisture, m.x, m.y, m.z, 4);
    FbmBounded(n.volcano, v.x, v.y, v.z, 3);
    Samples(
      Fbm(n.continent, c.x, c.y, c.z, 5).value,
      Ridged(n.elevation, w.x, w.y, w.z),
      Fbm(n.moisture, m.x, m.y, m.z, 4).value,
      Fbm(n.volcano, v.x, v.y, v.z, 3).value)
  }

  /** Every intermediate signal of one cell. */
  datatype Signals = Signals(
    mountainWeight: real,
    elevation: real,
    biomeElevation: real,
    volcanicZone: real,
    temperature: real,
    effTemperature: real,
    effMoisture: real,
    effVolcanicZone: real,
    biome: Biome)

  /** Mountain ridges are blended in only on raised continent, fully from 0.6 up. */
  function MountainWeight(continent: real): (w: real)
    ensures 0.0 <= w <= 1.0
    ensures continent <= 0.2 ==> w == 0.0
    ensures continent >= 0.6 ==> w == 1.0
    ensures 0.2 <= continent <= 0.6 ==> w * 0.4 == continent - 0.2
  {
    Clamp((continent - 0.2) * 2.5, 0.0, 1.0)
  }

  /** The volcanic threshold slides down from 1 as the intensity rises. */
  function VolcanicZone(raw: real, intensity: real): (z: real)
    ensures 0.0 <= z <= 1.0
    ensures intensity <= 0.0 && raw <= 1.0 ==> z == 0.0
    ensures z > 0.0 <==> raw > 1.0 - Clamp(intensity, 0.0, 1.0)
  {
    var threshold := 1.0 - Clamp(intensity, 0.0, 1.0);
    Clamp((raw - threshold) * 4.0, 0.0, 1.0)
  }

  /** Equator warm, poles cold: 1 at mid-latitude, 0 at both poles. */
  function TemperatureGradient(latitudeNorm: real): (g: real)
    ensures 0.0 <= latitudeNorm <= 1.0 ==> 0.0 <= g <= 1.0
    ensures latitudeNorm == 0.5 <==> g == 1.0
  {
    1.0 - (if latitudeNorm - 0.5 < 0.0 then 0.5 - latitudeNorm else latitudeNorm - 0.5) * 2.0
  }

  /** The two hemispheres mirror each other. */
  lemma TemperatureSymmetric(latitudeNorm: real)
    ensures TemperatureGradient(latitudeNorm) == TemperatureGradient(1.0 - latitudeNorm)
  {
  }

  /**
   * The clamp chain from the raw readings to the biome. The tile keeps the
   * pre-offset temperature, which lies in [-0.3, 1.3] rather than [0, 1].
   */
  function Derive(s: Samples, latitudeNorm: real, p: Params, blend: real): (c: Signals)
    ensures 0.0 <= c.mountainWeight <= 1.0
    ensures s.continent <= 0.2 ==> c.mountainWeight == 0.0
    ensures -1.0 <= c.elevation <= 1.0 && -1.0 <= c.biomeElevation <= 1.0
    ensures s.continent <= 0.2 && -1.0 <= s.continent ==> c.elevation == s.continent
    ensures 0.0 <= c.volcanicZone <= 1.0
    ensures p.volcanicIntensity <= 0.0 && s.volcanicRaw <= 1.0 ==> c.volcanicZone == 0.0
    ensures 0.0 <= latitudeNorm <= 1.0 ==> -0.3 <= c.temperature <= 1.3
    ensures 0.0 <= c.effTemperature <= 1.0
    ensures -1.0 <= c.effMoisture <= 1.0
    ensures 0.0 <= c.effVolcanicZone <= 1.0
    ensures c.biome == ChooseBiome(c.biomeElevation, c.effMoisture, c.effTemperature, c.effVolcanicZone, p.planetType)
    ensures c.biome in Outcomes(p.planetType)
  {
    var weight := MountainWeight(s.continent);
    var elevation := Clamp(s.continent + Lift(s.mountain, weight, blend), -1.0, 1.0);
    var biomeElevation := Clamp(elevation - p.seaLevel, -1.0, 1.0);
    var zone := VolcanicZone(s.volcanicRaw, p.volcanicIntensity);
    var temperature := TemperatureGradient(latitudeNorm) - biomeElevation * 0.3;
    var o := PlanetOffsets(p.planetType);
    var effT := Clamp(temperature + o.dt, 0.0, 1.0);
    var effM := Clamp(s.moisture + o.dm, -1.0, 1.0);
    var effVz := Clamp(zone + o.dvz, 0.0, 1.0);
    Signals(weight, elevation, biomeElevation, zone, temperature, effT, effM, effVz,
            ChooseBiome(biomeElevation, effM, effT, effVz, p.planetType))
  }

  /** The mountain term added to the continent height; a zero weight adds nothing. */
  function Lift(mountain: real, weight: real, blend: real): (l: real)
    ensures weight == 0.0 ==> l == 0.0
  {
    mountain * weight * blend
  }

  /** The stored temperature does leave [0, 1]: a low equatorial cell reaches 1.3. */
  lemma TemperatureExceedsUnit(p: Params, blend: real)
    requires p.seaLevel == 0.0
    ensures Derive(Samples(-1.0, 0.0, 0.0, 0.0), 0.5, p, blend).temperature == 1.3
  {
    assert MountainWeight(-1.0) == 0.0;
  }

  /** One cell of generate_world, packed as a tile. */
  function CellTile(p: Params, n: NoiseSet, m: Math, q: int, r: int): (t: Tile)
    requires PositiveRoots(m) && p.width > 0 && p.height > 0
    ensures t.q == q && t.r == r
    ensures -1.0 <= t.elevation <= 1.0
    ensures 0 <= r <= p.height ==> -0.3 <= t.temperature <= 1.3
    ensures Bounded(n.moisture) ==> -1.0 <= t.moisture <= 1.0
    ensures t.biome in Outcomes(p.planetType)
  {
    var c := CellSignals(p, n, m, q, r);
    var s := CellSamples(p, n, m, q, r);
    Tile(q, r, c.elevation, s.moisture, c.temperature, c.biome)
  }

  /** The noise readings at cell (q, r). */
  function CellSamples(p: Params, n: NoiseSet, m: Math, q: int, r: int): Samples
    requires p.width > 0 && p.height > 0
  {
    Sample(n, Project(m, q, r, p.width, p.height), NoiseScale(p.circumferenceKm))
  }

  /** Row r's position between the south pole (0) and the north pole (1). */
  function LatitudeNorm(r: int, height: int): (l: real)
    requires height > 0
    ensures 0 <= r <= height ==> 0.0 <= l <= 1.0
    ensures l * height as real == r as real
  {
    r as real / height as real
  }

  /** The derived signals at cell (q, r). */
  function CellSignals(p: Params, n: NoiseSet, m: Math, q: int, r: int): (c: Signals)
    requires PositiveRoots(m) && p.width > 0 && p.height > 0
    ensures 0 <= r <= p.height ==> -0.3 <= c.temperature <= 1.3
  {
    var latitudeNorm := LatitudeNorm(r, p.height);
    var blend := MountainBlend(m, GravityModifier(p.circumferenceKm));
    Derive(CellSamples(p, n, m, q, r), latitudeNorm, p, blend)
  }

  // ---------------------------------------------------------------------------
  // The tile sequence
  // ---------------------------------------------------------------------------

  /** Tile i is cell (i / height, i % height): columns one after another. */
  ghost predicate LaidOut(p: Params, n: NoiseSet, m: Math, tiles: seq<Tile>)
    requires PositiveRoots(m) && p.width > 0 && p.height > 0
  {
    |tiles| == p.width * p.height && Placed(p, n, m, tiles)
  }

  /** Every tile so far is the cell its index names. */
  ghost predicate Placed(p: Params, n: NoiseSet, m: Math, tiles: seq<Tile>)
    requires PositiveRoots(m) && p.width > 0 && p.height > 0
  {
    forall i | 0 <= i < |tiles| :: tiles[i] == CellTile(p, n, m, i / p.height, i % p.height)
  }

  /** Appending cell (q, r) at index q * height + r keeps every tile in place. */
  lemma PlacedAppend(p: Params, n: NoiseSet, m: Math, tiles: seq<Tile>, q: int, r: int)
    requires PositiveRoots(m) && p.width > 0 && p.height > 0 && Placed(p, n, m, tiles)
    requires 0 <= r < p.height && |tiles| == q * p.height + r
    ensures Placed(p, n, m, tiles + [CellTile(p, n, m, q, r)])
  {
    var next := tiles + [CellTile(p, n, m, q, r)];
    CellIndex(q, r, p.height);
    forall i | 0 <= i < |next|
      ensures next[i] == CellTile(p, n, m, i / p.height, i % p.height)
    {
      if i < |tiles| {
        assert next[i] == tiles[i];
      }
    }
  }

  /** Multiplying by a non-negative factor keeps order. */
  lemma MulMonotone(a: int, b: int, h: int)
    requires a <= b && 0 <= h
    ensures a * h <= b * h
  {
    assert b * h - a * h == (b - a) * h;
  }

  /** Column-major index of an in-grid cell. */
  function CellAt(q: int, r: int, w: int, h: int): (i: int)
    requires 0 <= q < w && 0 <= r < h
    ensures 0 <= i < w * h
    ensures i / h == q && i % h == r
  {
    MulMonotone(q + 1, w, h);
    CellIndex(q, r, h);
    q * h + r
  }

  /** Index q * h + r splits back into column q and row r. */
  lemma CellIndex(q: int, r: int, h: int)
    requires 0 <= r < h
    ensures (q * h + r) / h == q && (q * h + r) % h == r
  {
    var i := q * h + r;
    var q', r' := i / h, i % h;
    assert q' * h + r' == q * h + r;
    if q' < q {
      MulMonotone(q' + 1, q, h);
    } else if q' > q {
      MulMonotone(q + 1, q', h);
    }
  }

  /** Of two indices, the earlier one splits into an earlier column, or the same column and an earlier row. */
  lemma IndexOrder(i: int, j: int, h: int)
    requires 0 <= i < j && 0 < h
    ensures i / h < j / h || (i / h == j / h && i % h < j % h)
  {
    if i / h > j / h {
      MulMonotone(j / h + 1, i / h, h);
    }
  }

  /** An index below width * height splits into a column below width. */
  lemma IndexInGrid(i: int, width: int, height: int)
    requires 0 <= i < width * height && 0 < height
    ensures 0 <= i / height < width && 0 <= i % height < height
  {
    if i / height >= width {
      MulMonotone(width, i / height, height);
    }
  }

  /**
   * generate_world: outer loop over columns q, inner over rows r, one tile per
   * cell, then the World echoing the arguments and the gravity modifier.
   */
  method GenerateWorld(p: Params, n: NoiseSet, m: Math) returns (w: World)
    requires PositiveRoots(m)
    ensures w.width == p.width && w.height == p.height && w.seed == p.seed
    ensures w.planetType == p.planetType && w.seaLevel == p.seaLevel
    ensures w.volcanicIntensity == p.volcanicIntensity && w.circumferenceKm == p.circumferenceKm
    ensures w.gravityModifier == GravityModifier(p.circumferenceKm)
    ensures p.width <= 0 || p.height <= 0 ==> w.tiles == []
    ensures p.width > 0 && p.height > 0 ==> LaidOut(p, n, m, w.tiles)
  {
    var tiles: seq<Tile> := [];
    var q := 0;
    while q < p.width
      invariant 0 <= q <= (if p.width > 0 then p.width else 0)
      invariant p.height <= 0 ==> tiles == []
      invariant p.height > 0 ==> |tiles| == q * p.height
      invariant p.width > 0 && p.height > 0 ==> Placed(p, n, m, tiles)
    {
      var r := 0;
      while r < p.height
        invariant 0 <= r && (p.height > 0 ==> r <= p.height)
        invariant p.height <= 0 ==> tiles == []
        invariant p.height > 0 ==> |tiles| == q * p.height + r
        invariant q < p.width
        invariant p.height > 0 ==> Placed(p, n, m, tiles)
      {
        PlacedAppend(p, n, m, tiles, q, r);
        tiles := tiles + [CellTile(p, n, m, q, r)];
        r := r + 1;
      }
      assert (q + 1) * p.height == q * p.height + p.height;
      q := q + 1;
    }
    w := World(p.width, p.height, p.seed, p.planetType, p.seaLevel, p.volcanicIntensity,
               p.circumferenceKm, GravityModifier(p.circumferenceKm), tiles);
  }

  /** Cell (q, r) sits at index q * height + r and carries those coordinates. */
  lemma TileAtCoordinates(p: Params, n: NoiseSet, m: Math, tiles: seq<Tile>, q: int, r: int)
    requires PositiveRoots(m) && p.width > 0 && p.height > 0 && LaidOut(p, n, m, tiles)
    requires 0 <= q < p.width && 0 <= r < p.height
    ensures CellAt(q, r, p.width, p.height) < |tiles|
    ensures tiles[CellAt(q, r, p.width, p.height)] == CellTile(p, n, m, q, r)
  {
  }

  /** Tiles run column-major: an earlier index has a smaller column, or the same column and a smaller row. */
  lemma ColumnMajor(p: Params, n: NoiseSet, m: Math, tiles: seq<Tile>, i: int, j: int)
    requires PositiveRoots(m) && p.width > 0 && p.height > 0 && LaidOut(p, n, m, tiles)
    requires 0 <= i < j < |tiles|
    ensures tiles[i].q < tiles[j].q || (tiles[i].q == tiles[j].q && tiles[i].r < tiles[j].r)
  {
    IndexOrder(i, j, p.height);
  }

  /** Every tile lies in the grid and the archetype's outcome set. */
  lemma TilesInGrid(p: Params, n: NoiseSet, m: Math, tiles: seq<Tile>, i: int)
    requires PositiveRoots(m) && p.width > 0 && p.height > 0 && LaidOut(p, n, m, tiles)
    requires 0 <= i < |tiles|
    ensures 0 <= tiles[i].q < p.width && 0 <= tiles[i].r < p.height
    ensures -1.0 <= tiles[i].elevation <= 1.0 && -0.3 <= tiles[i].temperature <= 1.3
    ensures Bounded(n.moisture) ==> -1.0 <= tiles[i].moisture <= 1.0
    ensures tiles[i].biome in Outcomes(p.planetType)
  {
    IndexInGrid(i, p.width, p.height);
  }

  /**
   * A Terran world with no volcanic intensity and bounded volcano noise shows
   * no volcanic biome at all.
   */
  lemma QuietTerranWorld(p: Params, n: NoiseSet, m: Math, tiles: seq<Tile>, i: int)
    requires PositiveRoots(m) && p.width > 0 && p.height > 0 && LaidOut(p, n, m, tiles)
    requires p.planetType == Terran && p.volcanicIntensity <= 0.0 && Bounded(n.volcano)
    requires 0 <= i < |tiles|
    ensures tiles[i].biome !in {Volcano, LavaField, AshLand}
  {
    QuietCell(p, n, m, i / p.height, i % p.height);
  }

  /** The cell-level fact behind QuietTerranWorld. */
  lemma QuietCell(p: Params, n: NoiseSet, m: Math, q: int, r: int)
    requires PositiveRoots(m) && p.width > 0 && p.height > 0
    requires p.planetType == Terran && p.volcanicIntensity <= 0.0 && Bounded(n.volcano)
    ensures CellTile(p, n, m, q, r).biome !in {Volcano, LavaField, AshLand}
  {
    var c := CellSignals(p, n, m, q, r);
    var s := CellSamples(p, n, m, q, r);
    assert s.volcanicRaw <= 1.0;
    assert c.effVolcanicZone == 0.0;
    QuietBiome(c.biomeElevation, c.effMoisture, c.effTemperature);
  }

  /** With no volcanic signal on a Terran world the biome is the stage-1 one, never volcanic. */
  lemma QuietBiome(e: real, mo: real, t: real)
    ensures ChooseBiome(e, mo, t, 0.0, Terran) !in {Volcano, LavaField, AshLand}
  {
    var base := BaseBiome(e, mo, t);
    assert ApplyVolcanic(base, e, 0.0) == base;
  }
}
