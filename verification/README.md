# map-generator, modelled in Dafny

A Dafny model of the core of `map-generator`, a procedural planet-map generator. The model covers five parts:

- **Biome classifier** (`biome.dfy`, module `Biomes`). The 27 biomes with their colour, name and legend order, and the per-archetype climate offsets. Also the three-stage cascade: altitude band, then volcanic override, then planet-archetype remap.
- **Noise composition** (`noise.dfy`, module `Noise`). Fractal Brownian motion (fbm) and ridged noise over an abstract Perlin sampler.
- **World generation** (`generation.dfy`, module `Generation`). The noise scale and gravity derived from the planet's circumference, the per-cell signal pipeline, and the column-major tile layout.
- **Map rendering** (`colors.dfy`, `grids.dfy`, `svg.dfy`, `png.dfy`; modules `Colors`, `Grids`, `Svg`, `Png`). Contour detection and darkening, the run-length-encoded SVG rows, and the PNG map with its dashed latitude lines.
- **Legend** (`legend.dfy`, module `Legend`). The biome list, the planet label, the integer layout, and the clipped rectangle and glyph painting.

Everything is pure. A number (`f32`/`f64`) is a `real`. The Perlin samplers and `cos`, `sin`, `pi`, `sqrt` are function-valued parameters. Images are immutable row-major pixel sequences.

Where the behaviour is not obvious, the model follows the code:

- **Temperature is stored unclamped.** A tile's stored temperature is the temperature before the archetype offset and before clamping (generation.rs:118, 140). It can leave [0, 1]: `TemperatureExceedsUnit` shows 1.3. Only the effective temperature handed to the classifier is clamped.
- **The remap alone is not closed.** `apply_planet_type` passes through exclusives that belong to another archetype; for example, `MagmaSea` stays `MagmaSea` on a Barren world. Closure holds only for the standard biomes that stages one and two can produce. This is what `ChooseBiome` and `RemapClosedOnStandard` prove.
- **fbm with zero octaves is NaN** (0/0). `Fbm` therefore returns a `Float` that can be `NaN`.
- **Contour darkening is exact.** It is `(6c)/10` with truncation. This equals `(c as f32 * 0.6f32) as u8` for every byte, because 0.6 as an `f32` lies just above 0.6.
- **SVG export needs width > 0 when the height is positive.** With width 0 and a positive height, the SVG row loop reads index 0 of an empty colour buffer and panics. `ExportSvg` requires exactly this.

## Model

| member | source | states |
|---|---|---|
| Colors.DarkenChannel | src/export/png.rs:8 | the darkened channel never exceeds the original, is strictly darker unless 0, and is 60% truncated: `10d <= 6c < 10d + 10` |
| Colors.Darken | src/export_svg.rs:43-45 | every channel goes down or stays, and any non-black colour really changes |
| Colors.XorFlipsEveryBit | src/export_svg.rs:72-76 | for every 8-bit value, XOR with 0xFF is 255 minus the value, which is what FlipChannel computes |
| Colors.FlipChannel | src/export_svg.rs:72-76 | the flipped channel always differs from the original, and flipping back recovers it |
| Colors.Sentinel | src/export_svg.rs:67-77 | the sentinel colour differs from the run colour in every channel, so the last run is always flushed |
| Biomes.BiomeColor | src/biome.rs:68-110 | each biome has its own colour: the biome can be read back from the red and green channels |
| Biomes.BiomeName | src/biome.rs:112-143 | each biome has its own name: the biome can be read back from the name's first three letters |
| Biomes.BiomeOrder | src/biome.rs:146-176 | the sort key of a biome indexes that biome in declaration order |
| Biomes.BiomeOrderBijective | src/biome.rs:145-176 | the sort key is a bijection from the 27 biomes onto 0..26, inverse to the declaration list |
| Biomes.MetadataInjective | src/biome.rs:69-143 | distinct biomes have distinct colours and distinct names |
| Biomes.NameLengths | src/biome.rs:113-143 | every legend name has 4 to 14 characters; "Scorched Waste" is the longest |
| Biomes.PlanetOffsets | src/biome.rs:182-194 | only Terran has zero offsets; each offset stays in its range |
| Biomes.OceanBiome | src/biome.rs:222-228 | water biome, and Deep Ocean exactly below -0.45 |
| Biomes.ShoreBiome | src/biome.rs:230-238 | shore biome: Ice Cap exactly when t < 0.15, Wetland exactly when warm and m > 0.3 |
| Biomes.HighlandBiome | src/biome.rs:240-246 | Snow exactly when t < 0.35 or e > 0.88, otherwise Mountain |
| Biomes.BorealBiome | src/biome.rs:263-265 | Taiga exactly when m > 0.2, else Tundra |
| Biomes.TemperateBiome | src/biome.rs:267-275 | Shrubland exactly when m < -0.1, Forest exactly when m > 0.35, else Plain |
| Biomes.TropicalBiome | src/biome.rs:277-285 | Desert exactly when m < -0.05, Jungle exactly when m >= 0.30, else Savanna |
| Biomes.LandBiome | src/biome.rs:250-261 | a land biome, Ice Cap exactly when t < 0.15 |
| Biomes.BaseBiome | src/biome.rs:207-215 | the altitude band: water exactly when e < -0.15, highland exactly when e > 0.7 |
| Biomes.Stage1MatchesTable | src/biome.rs:206-285 | stage one yields b exactly when the row of the biome table for b holds, for every biome |
| Biomes.AltitudeBands | src/biome.rs:207-215 | each elevation band selects its own sub-classifier |
| Biomes.Stage1TieBreaks | src/biome.rs:230-261 | overlapping conditions resolve as the if-chains order them (Ice Cap before Wetland, Snow above 0.88) |
| Biomes.ApplyVolcanic | src/biome.rs:298-315 | no change when vz <= 0 or on non-slope biomes; Volcano, Lava Field and Ash Land exactly under their rules, in priority order |
| Biomes.VolcanoBeatsWeakerRules | src/biome.rs:294-312 | at a caldera all three rules fire and the strongest, Volcano, wins |
| Biomes.ApplyPlanetType | src/biome.rs:323-390 | Terran is the identity, Mountain and Volcano are never remapped, and every change lands on one of the archetype's targets |
| Biomes.TableDeterministic | src/biome.rs:323-390 | each remap table sends a biome to at most one target |
| Biomes.RemapFollowsTable | src/biome.rs:323-390 | the remap sends b to r exactly when the archetype's source-to-target table does |
| Biomes.RemapSatisfiesTable | src/biome.rs:323-390 | the remap's result is always the one its table prescribes |
| Biomes.RuleApplies | src/biome.rs:323-390 | a biome listed as a source of a rule goes to that rule's target |
| Biomes.NoRuleKeeps | src/biome.rs:339 | a biome that no rule lists is passed through unchanged |
| Biomes.RemapPassesForeignExclusives | src/biome.rs:370-388 | the remap by itself is not closed: Magma Sea survives a Barren remap |
| Biomes.RemapClosedOnStandard | src/biome.rs:323-390 | a standard biome is never remapped into another archetype's exclusives |
| Biomes.OutcomesAvoidForeignExclusives | src/biome.rs:323-390 | the biomes one archetype can show never include a biome exclusive to a different archetype |
| Biomes.StandardAvoidsExclusives | src/biome.rs:323-390 | none of the 18 standard biomes is exclusive to any archetype |
| Biomes.StandardBiome | src/biome.rs:206-216 | stages one and two only produce standard (non-exclusive) biomes |
| Biomes.ChooseBiome | src/biome.rs:206-218 | the result is a possible outcome for the archetype; Terran never shows exclusives, and no world shows another archetype's |
| Biomes.OutcomesAreRemapImage | src/biome.rs:206-218 | the archetype's outcome set is exactly the remap image of the standard biomes |
| Biomes.StandardRemapsIntoOutcomes | src/biome.rs:323-390 | remapping any standard biome lands in the outcome set |
| Biomes.PreimageOf | src/biome.rs:323-390 | every outcome has a standard biome that remaps to it |
| Biomes.WitnessInputs | src/biome.rs:206-216 | every standard biome is produced by some climate inputs |
| Biomes.EveryOutcomeReachable | src/biome.rs:206-218 | every outcome of an archetype is chosen for some elevation, moisture, temperature and volcanic zone |
| Biomes.SummitExample | src/biome.rs:304 | a 0.85 summit with vz 0.60 on a Terran world becomes a Volcano |
| Biomes.DeepOceanBoundary | src/biome.rs:223 | -0.46 is Deep Ocean and -0.44 is Ocean |
| Noise.AmplitudeSumClosedForm | src/noise.rs:18-27 | after n octaves the normaliser `max_value` is 2 - 2^(1-n), so in [1, 2) once n >= 1 |
| Noise.OctaveSumBounded | src/noise.rs:22-27 | over a sampler bounded by 1, the weighted sum is bounded by the normaliser |
| Noise.FirstOctave | src/noise.rs:22-27 | one octave samples at unit frequency and amplitude |
| Noise.Fbm | src/noise.rs:16-29 | NaN exactly when there are no octaves; one octave returns the raw sample; the value times the normaliser is the octave sum |
| Noise.FbmBounded | src/noise.rs:15-29 | for at least one octave of bounded noise, fbm lies in [-1, 1] |
| Noise.FbmLoop | src/noise.rs:16-29 | the loop with halving amplitude and doubling frequency computes the closed-form fbm |
| Noise.Ridged | src/noise.rs:33-36 | at most 1, equal to 1 exactly when the sample is 0, and non-negative for samples in [-1, 1] |
| Noise.RidgedBounded | src/noise.rs:31-36 | over bounded noise, ridged noise lies in [0, 1] |
| Generation.Clamp | src/generation.rs:82 | the result lies in [lo, hi], is v when v is inside, and the nearer bound otherwise |
| Generation.NoiseScale | src/generation.rs:26 | positive and at most the Earth value; scale times circumference is 40075 once the circumference is at least 1 km |
| Generation.GravityModifier | src/generation.rs:32 | in [0.1, 5]; proportional to the circumference inside that range, saturating outside |
| Generation.ScaleIsInverseGravity | src/generation.rs:26-32 | inside the clamp range, noise scale and gravity are reciprocals |
| Generation.EarthBaseline | src/generation.rs:23-32 | an Earth-sized planet has noise scale 1 and gravity 1 |
| Generation.MountainBlend | src/generation.rs:33-35 | the blend is positive, and exactly 0.35 at Earth gravity (gravity modifier 1) |
| Generation.Project | src/generation.rs:43-50 | the map cell is projected onto the unit sphere: x² + y² + z² = 1 whenever cos² + sin² = 1 |
| Generation.Warp | src/generation.rs:52-64 | the warp leaves z alone and moves x and y by at most 0.25 each over bounded warp noise |
| Generation.Sample | src/generation.rs:66-109 | with bounded samplers, continent, moisture and volcanic fbm lie in [-1, 1] and ridged mountain noise in [0, 1] |
| Generation.MountainWeight | src/generation.rs:82 | in [0, 1]: 0 up to continent 0.2, 1 from 0.6, linear between |
| Generation.VolcanicZone | src/generation.rs:110-112 | in [0, 1]; positive exactly when raw exceeds 1 minus the clamped intensity; zero intensity gives zero for bounded raw |
| Generation.TemperatureGradient | src/generation.rs:115-116 | in [0, 1] on the map, and 1 exactly at the equator |
| Generation.TemperatureSymmetric | src/generation.rs:115-116 | the gradient is mirror-symmetric about the equator |
| Generation.Derive | src/generation.rs:82-133 | every derived signal is in range; the biome is the classifier's choice and a possible outcome for the archetype |
| Generation.TemperatureExceedsUnit | src/generation.rs:118 | the stored temperature can reach 1.3 (it is not clamped) |
| Generation.LatitudeNorm | src/generation.rs:115 | in [0, 1] for rows 0..height; times the height gives the row back |
| Generation.CellSignals | src/generation.rs:115-133 | the unclamped temperature of any row lies in [-0.3, 1.3] |
| Generation.CellTile | src/generation.rs:41-142 | the tile at (q, r) has those coordinates, elevation in [-1, 1], moisture in [-1, 1] over bounded moisture noise, and a biome that is possible for the archetype |
| Generation.GenerateWorld | src/generation.rs:6-157 | the world echoes its parameters and the clamped gravity; there are no tiles for an empty grid, otherwise w*h tiles with tile i the cell (i / h, i % h) |
| Generation.TileAtCoordinates | src/generation.rs:39-40 | the tile for (q, r) sits at index q*h + r |
| Generation.ColumnMajor | src/generation.rs:39-40 | earlier tiles have a smaller column, or the same column and a smaller row |
| Generation.TilesInGrid | src/generation.rs:39-142 | every tile lies inside the grid, keeps elevation in [-1, 1], temperature in [-0.3, 1.3] and, over bounded moisture noise, moisture in [-1, 1], and has a possible biome |
| Generation.QuietTerranWorld | src/generation.rs:100-112 | a Terran world with zero volcanic intensity has no Volcano, Lava Field or Ash Land |
| Grids.Scatter | src/export_svg.rs:13-16 | buffer slots that no write targets keep their initial value |
| Grids.ScatterDistinct | src/export_svg.rs:14-16 | with distinct targets, each write's value is what its slot ends up holding |
| Grids.GeneratedIsColumnMajor | src/generation.rs:135-143 | a generated world's tiles are in column-major order |
| Grids.ColumnMajorIsWellPlaced | src/generation.rs:39-40 | column-major tiles all lie inside the grid |
| Grids.TileGridColumnMajor | src/export_svg.rs:29-47 | on a column-major world, slot i of a per-tile grid holds the value for tile i |
| Grids.ElevAt | src/export_svg.rs:18-23 | the lookup is None exactly when (q, r) is off the grid |
| Grids.ElevAtTile | src/export_svg.rs:18-23 | on the grid, the lookup returns the elevation of the tile at (q, r) |
| Grids.CrossesContour | src/export_svg.rs:25-26 | an edge crosses a contour exactly when some level lies in (min, max] of its two elevations |
| Grids.CrossesContourSymmetric | src/export_svg.rs:25-26 | crossing is symmetric, and no edge between equal elevations crosses |
| Grids.SameBandNoContour | src/export_svg.rs:5 | two elevations between the same pair of adjacent levels never cross |
| Grids.IsContour | src/export_svg.rs:33-41 | a tile is on a contour exactly when one of its four in-grid neighbours crosses a level with it |
| Grids.NeighbourLookup | src/export_svg.rs:33-41 | dropping the off-grid neighbours and testing the rest is the same as testing each of the four directions |
| Grids.PixelColor | src/export_svg.rs:30-45 | the pixel is at most the biome colour, and equals it exactly when the tile is not on a contour |
| Grids.NoBlackBiome | src/biome.rs:69-110 | no biome colour is black, so darkening always shows |
| Grids.PixelGridColumnMajor | src/export_svg.rs:29-47 | on a column-major world, the colour buffer at index i is tile i's pixel colour |
| Svg.RunsPaintTheirPixels | src/export_svg.rs:62-91 | every pixel covered by a run has that run's colour |
| Svg.LastRunIsMaximal | src/export_svg.rs:79-89 | the last run ends the row, and the pixel before it has another colour |
| Svg.EncodingUnique | src/export_svg.rs:62-91 | a row has only one maximal run encoding |
| Svg.BlockStart | src/export_svg.rs:79-89 | the start of the same-colour block that ends at pixel i |
| Svg.Runs | src/export_svg.rs:62-91 | the reference encoding: contiguous, non-empty, alternating runs that expand to the row |
| Svg.EncodeRow | src/export_svg.rs:62-91 | the sentinel loop emits exactly the reference encoding of the row |
| Svg.RowOf | src/export_svg.rs:64-70 | row r of the colour buffer, read at q*h + r |
| Svg.RowRects | src/export_svg.rs:82-86 | one rectangle per run, at the run's start and width, on row r |
| Svg.EncodeRows | src/export_svg.rs:62-91 | the row loop emits the rectangles of every row in order |
| Svg.ExportSvg | src/export_svg.rs:8-93 | the document is the XML declaration, the svg element, every row's rectangles, and the closing tag |
| Svg.RowRectsTileTheRow | src/export_svg.rs:79-89 | the rectangles start at x = 0, have width at least 1, abut, alternate in colour, and end at the row's width |
| Svg.RectPixel | src/export_svg.rs:79-89 | each pixel under a rectangle has that rectangle's fill |
| Svg.RowOfWorld | src/export_svg.rs:29-47 | pixel q of row r is the colour of the tile at (q, r) |
| Png.Filled | src/export/png.rs:224 | an image of the given size with every pixel the given colour |
| Png.Blank | src/export/png.rs:13 | a fresh map image is all black |
| Png.Put | src/export/png.rs:52 | the written pixel takes the colour and every other pixel keeps its own |
| Png.PaintTiles | src/export/png.rs:32-53 | the map image is the black canvas with one write per tile at (q, r) |
| Png.PaintedPixel | src/export/png.rs:32-53 | on a column-major world, map pixel (q, r) is the colour of the tile at (q, r) |
| Png.Round | src/export/png.rs:70 | the nearest integer, halves away from zero: within 0.5, and non-negative for non-negative input |
| Png.LineRow | src/export/png.rs:56-70 | a line's row is non-negative |
| Png.DrawDashedLine | src/export/png.rs:64-79 | paints column x of the row exactly when x % 10 < 6; a row at or below the height changes nothing |
| Png.DrawLines | src/export/png.rs:69-79 | each pixel shows the last line drawn over it, or the map |
| Png.GapsShowTheMap | src/export/png.rs:64-77 | columns in a dash gap are never painted by any line |
| Png.OverlayOnLineRow | src/export/png.rs:69-77 | a painted pixel lies inside the image, on the row of a line of the same colour |
| Png.OneRowImageLines | src/export/png.rs:57-73 | on a one-row image the equator, Tropic of Cancer and Arctic Circle round to row 1 and are skipped; the Antarctic Circle wins pixel (0, 0) |
| Png.DegreeRows | src/export/png.rs:57-70 | on a 180-row image the equator, the tropics and the Arctic Circle sit on rows 90, 114, 67 and 157; the Antarctic Circle's exact row is the half 23.5 |
| Png.ExportPng | src/export/png.rs:10-79 | on a column-major world, every pixel is the last dashed line over it, else the tile's pixel colour |
| Png.FillRect | src/export/png.rs:123-133 | exactly the rectangle's in-image pixels take the colour; everything else is unchanged |
| Png.BlockOfBit | src/export/png.rs:101-104 | bit (col, row) scales to the 2 x 2 block of offsets that halve to (col, row) |
| Png.DrawGlyphRow | src/export/png.rs:99-111 | one glyph row lights the blocks of its set bits and nothing else |
| Png.DrawChar | src/export/png.rs:94-113 | an unknown character draws nothing; otherwise exactly the in-image pixels of lit 2 x 2 blocks change |
| Png.DrawStr | src/export/png.rs:116-120 | a pixel changes exactly when the glyph of the character whose 16-pixel cell holds it is lit there |
| Legend.FirstSeen | src/export/png.rs:150-156 | the reference list: no duplicates, and exactly the biomes of the input |
| Legend.CollectBiomes | src/export/png.rs:150-156 | the seen-set loop builds the first-seen list of the tile biomes |
| Legend.Insert | src/export/png.rs:157 | insertion adds exactly the one biome (as a multiset) |
| Legend.InsertOrdered | src/export/png.rs:157 | inserting a new biome into a strictly ordered list keeps it strictly ordered |
| Legend.InsertSorted | src/export/png.rs:157 | inserting any biome into a list sorted by key keeps it sorted |
| Legend.SortByOrder | src/export/png.rs:157 | the sort permutes its input, orders it by sort key, and strictly so when there are no duplicates |
| Legend.Canonical | src/biome.rs:145-176 | the reference order: strictly ordered by sort key, with exactly the given members |
| Legend.OrderedUnique | src/export/png.rs:157 | two strictly ordered lists with the same members are equal |
| Legend.LegendBiomes | src/export/png.rs:150-157 | the legend lists each biome on the map exactly once and no other, in sort-key order |
| Legend.ToUpper | src/export/png.rs:166 | lower-case ASCII letters become capitals; other characters are unchanged |
| Legend.Capitalize | src/export/png.rs:161-168 | same length; empty stays empty; only the first character is upper-cased |
| Legend.CapitalizeIdempotent | src/export/png.rs:161-168 | capitalising twice is the same as once |
| Legend.CapitalizeVolcanic | src/export/png.rs:161-168 | "volcanic" displays as "Volcanic" |
| Legend.MaxLen | src/export/png.rs:190-194 | an upper bound on every length that one of the strings attains, or the default for none |
| Legend.MetaKeyWidth | src/export/png.rs:169-198 | the longest metadata key is 13 characters ("Circumference") |
| Legend.LegendWidth | src/export/png.rs:189-204 | the title, every biome row and every metadata value fit inside the padding, and the width is set by one of the three columns |
| Legend.LegendHeight | src/export/png.rs:206-214 | 204 + 22n for n biomes, ending one padding below the last row |
| Legend.RowsFit | src/export/png.rs:179-186 | biome rows do not overlap each other or the metadata, and end inside the bottom padding |
| Legend.DrawHeading | src/export/png.rs:226-253 | title, divider, metadata rows and divider are drawn without changing the canvas size (see Legend.ExportLegend under Left out) |
| Legend.DrawMetaRows | src/export/png.rs:242-248 | one key and value row per metadata entry, keeping the canvas size (see Legend.ExportLegend under Left out) |
| Legend.DrawMetaRow | src/export/png.rs:243-246 | the key with its colon at the padding, the value at the value column, keeping the canvas size (see Legend.ExportLegend under Left out) |
| Legend.DrawDivider | src/export/png.rs:232-236 | exactly row y between the paddings takes the divider colour |
| Legend.OutlineRect | src/export/png.rs:135-145 | exactly the one-pixel border of the rectangle takes the colour |
| Legend.PaintRow | src/export/png.rs:256-267 | only the row's band changes, and the swatch inside its border shows the biome colour |
| Legend.PaintRows | src/export/png.rs:255-268 | every listed biome's swatch shows its colour after all rows are drawn |
| Legend.ExportLegend | src/export/png.rs:148-268 | the legend lists the map's biomes canonically, has the computed width and height, and every swatch shows its biome's colour |

## Left out

- Perlin noise, `cos`, `sin`, `pi` and `sqrt` are parameters. `sqrt` is only assumed positive on positive input and to give 1 at 1. `cos² + sin² = 1` and the bound of 1 on the samplers are assumed only where a contract says so.
- Seeding the six noise sources (`seed`, `seed + 1`, … `seed + 300`) is not modelled. The `u32` addition that can overflow for large seeds is not modelled either.
- Png.LineRow: the row is computed in exact arithmetic. Where the exact product is a half row, the program's f64 product can be a little lower and round one row down. For example, the Antarctic Circle at height 180 is exactly 23.5 here and lands on row 24, but the f64 product is 23.499999999999996 and the program draws row 23.
- Floating point: `f32`/`f64` are real numbers. Rounding, infinities and NaN propagation are not modelled, except for the 0/0 of an fbm with no octaves.
- Integer widths: the `u32`/`usize` arithmetic of the exporters is unbounded here. Overflow of `x + i * 16`, `q * h + r` or `w * h` is not modelled.
- Generation.CellTile: the latitude-dependent temperature range is stated for rows 0..height only. The angles of the sphere projection are not bounded, because trigonometry is a parameter.
- Png.DrawChar: the `font8x8` glyph table is a parameter (`char -> Option<Glyph>`). Glyphs are the table's 8 bytes of 8 bits. The per-pixel 2 x 2 loop is modelled as a clipped `FillRect`, which writes the same pixels.
- Legend.ExportLegend: the title, metadata rows and dividers are drawn, but only the image size and the swatch colours are stated about the result. The text pixels follow from `DrawStr` and `DrawDivider`.
- Legend.DrawHeading: states only that the canvas keeps its size. The drawn text is covered by `DrawStr`'s contract, as for Legend.ExportLegend.
- Legend.DrawMetaRows: states only that the canvas keeps its size, for the same reason.
- Legend.DrawMetaRow: states only that the canvas keeps its size, for the same reason.
- Legend.Capitalize: only ASCII letters are upper-cased. Unicode case mapping that changes a character's length is not modelled.
- The `Display` text of a planet type and the number formatting of the metadata values (`{:+.2}`, `{:.0} km`, the seed in decimal) are inputs to `ExportLegend`.
- File output (`img.save`, `std::fs::write`), the SVG attribute text and hex colour formatting are not modelled. The SVG is a sequence of elements.
- The PNG map pass builds its own elevation buffer and colour logic, the same as the SVG exporter's. Both are modelled once, in `Grids`.
- src/export/noise_maps.rs, src/export/json.rs, src/export/mod.rs, src/main.rs, src/world.rs and the older src/export_png.rs are not part of this model.
