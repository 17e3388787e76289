/**
 * The biome classifier: the closed set of 27 biomes with their display
 * metadata, the per-archetype climate offsets, and the three-stage cascade
 * (altitude band, volcanic override, archetype remap) that turns the four
 * climate signals of a cell into one biome.
 */
module Biomes {
  import opened Colors

  datatype Biome =
    // standard water
    | DeepOcean | Ocean
    // shore
    | Beach | Wetland
    // cold
    | IceCap | Tundra | Taiga
    // temperate
    | Shrubland | Plain | Forest
    // tropical
    | Savanna | Desert | Jungle
    // high elevation
    | Mountain | Snow
    // volcanic overlay (any archetype)
    | Volcano | LavaField | AshLand
    // volcanic-world exclusives
    | MagmaSea | ScorchedWaste
    // frozen-world exclusives
    | FrozenOcean | GlacialPlain
    // caustic-world exclusives
    | CausticLake | ToxicSwamp | AcidFlatland
    // barren-world exclusives
    | RockyWaste | DustPlain

  datatype PlanetType = Terran | Volcanic | Frozen | Caustic | Barren

  /** Every biome, in declaration order. */
  const AllBiomes: seq<Biome> := [
    DeepOcean, Ocean, Beach, Wetland, IceCap, Tundra, Taiga, Shrubland, Plain,
    Forest, Savanna, Desert, Jungle, Mountain, Snow, Volcano, LavaField, AshLand,
    MagmaSea, ScorchedWaste, FrozenOcean, GlacialPlain, CausticLake, ToxicSwamp,
    AcidFlatland, RockyWaste, DustPlain]

  // ---------------------------------------------------------------------------
  // Side tables
  // ---------------------------------------------------------------------------

  /** Canonical colour of a biome, shared by every exporter. */
  function BiomeColor(b: Biome): (c: Rgb)
    ensures ColorOwner(c) == b
  {
    match b
    case DeepOcean => Rgb(10, 20, 140)
    case Ocean => Rgb(30, 70, 200)
    case Beach => Rgb(220, 210, 120)
    case Wetland => Rgb(90, 140, 80)
    case IceCap => Rgb(210, 235, 255)
    case Tundra => Rgb(160, 185, 155)
    case Taiga => Rgb(30, 90, 60)
    case Shrubland => Rgb(170, 180, 80)
    case Plain => Rgb(100, 200, 80)
    case Forest => Rgb(20, 110, 20)
    case Savanna => Rgb(210, 190, 60)
    case Desert => Rgb(240, 200, 100)
    case Jungle => Rgb(0, 90, 20)
    case Mountain => Rgb(130, 120, 110)
    case Snow => Rgb(245, 245, 250)
    case Volcano => Rgb(255, 50, 0)
    case LavaField => Rgb(200, 80, 10)
    case AshLand => Rgb(95, 80, 70)
    case MagmaSea => Rgb(180, 20, 0)
    case ScorchedWaste => Rgb(70, 35, 15)
    case FrozenOcean => Rgb(140, 195, 235)
    case GlacialPlain => Rgb(200, 220, 240)
    case CausticLake => Rgb(60, 170, 40)
    case ToxicSwamp => Rgb(45, 100, 20)
    case AcidFlatland => Rgb(165, 185, 60)
    case RockyWaste => Rgb(110, 103, 90)
    case DustPlain => Rgb(195, 168, 110)
  }

  /** Human-readable legend name of a biome. */
  function BiomeName(b: Biome): (name: string)
    ensures 3 <= |name| && NameOwner(name) == b
  {
    match b
    case DeepOcean => "Deep Ocean"
    case Ocean => "Ocean"
    case Beach => "Beach"
    case Wetland => "Wetland"
    case IceCap => "Ice Cap"
    case Tundra => "Tundra"
    case Taiga => "Taiga"
    case Shrubland => "Shrubland"
    case Plain => "Plain"
    case Forest => "Forest"
    case Savanna => "Savanna"
    case Desert => "Desert"
    case Jungle => "Jungle"
    case Mountain => "Mountain"
    case Snow => "Snow"
    case Volcano => "Volcano"
    case LavaField => "Lava Field"
    case AshLand => "Ash Land"
    case MagmaSea => "Magma Sea"
    case ScorchedWaste => "Scorched Waste"
    case FrozenOcean => "Frozen Ocean"
    case GlacialPlain => "Glacial Plain"
    case CausticLake => "Caustic Lake"
    case ToxicSwamp => "Toxic Swamp"
    case AcidFlatland => "Acid Flatland"
    case RockyWaste => "Rocky Waste"
    case DustPlain => "Dust Plain"
  }

  /** Legend sort key: the biome's position in declaration order. */
  function BiomeOrder(b: Biome): (n: nat)
    ensures n < |AllBiomes| && AllBiomes[n] == b
  {
    match b
    case DeepOcean => 0
    case Ocean => 1
    case Beach => 2
    case Wetland => 3
    case IceCap => 4
    case Tundra => 5
    case Taiga => 6
    case Shrubland => 7
    case Plain => 8
    case Forest => 9
    case Savanna => 10
    case Desert => 11
    case Jungle => 12
    case Mountain => 13
    case Snow => 14
    case Volcano => 15
    case LavaField => 16
    case AshLand => 17
    case MagmaSea => 18
    case ScorchedWaste => 19
    case FrozenOcean => 20
    case GlacialPlain => 21
    case CausticLake => 22
    case ToxicSwamp => 23
    case AcidFlatland => 24
    case RockyWaste => 25
    case DustPlain => 26
  }

  /** The sort key is a bijection between the 27 biomes and 0..26. */
  lemma BiomeOrderBijective()
    ensures |AllBiomes| == 27
    ensures forall i | 0 <= i < |AllBiomes| :: BiomeOrder(AllBiomes[i]) == i
    ensures forall a: Biome, b: Biome :: BiomeOrder(a) == BiomeOrder(b) ==> a == b
    ensures forall b: Biome :: b in AllBiomes
  {
    forall b: Biome
      ensures b in AllBiomes
    {
      var n := BiomeOrder(b);
    }
  }

  /** No two biomes share a colour or a name, so legend swatches are unambiguous. */
  lemma MetadataInjective(a: Biome, b: Biome)
    requires a != b
    ensures BiomeColor(a) != BiomeColor(b)
    ensures BiomeName(a) != BiomeName(b)
  {
  }

  /** The biome a colour belongs to, told apart by its red and green channels. */
  function ColorOwner(c: Rgb): Biome {
    if c.r == 10 then DeepOcean
    else if c.r == 30 then (if c.g == 70 then Ocean else Taiga)
    else if c.r == 220 then Beach
    else if c.r == 90 then Wetland
    else if c.r == 210 then (if c.g == 235 then IceCap else Savanna)
    else if c.r == 160 then Tundra
    else if c.r == 170 then Shrubland
    else if c.r == 100 then Plain
    else if c.r == 20 then Forest
    else if c.r == 240 then Desert
    else if c.r == 0 then Jungle
    else if c.r == 130 then Mountain
    else if c.r == 245 then Snow
    else if c.r == 255 then Volcano
    else if c.r == 200 then (if c.g == 80 then LavaField else GlacialPlain)
    else if c.r == 95 then AshLand
    else if c.r == 180 then MagmaSea
    else if c.r == 70 then ScorchedWaste
    else if c.r == 140 then FrozenOcean
    else if c.r == 60 then CausticLake
    else if c.r == 45 then ToxicSwamp
    else if c.r == 165 then AcidFlatland
    else if c.r == 110 then RockyWaste
    else DustPlain
  }

  /** The biome a name belongs to, told apart by its first three characters. */
  function NameOwner(s: string): Biome
    requires 3 <= |s|
  {
    if s[0] == 'D' then (
      if s[1] == 'e' && s[2] == 'e' then DeepOcean
      else if s[1] == 'e' && s[2] == 's' then Desert
      else DustPlain)
    else if s[0] == 'O' then Ocean
    else if s[0] == 'B' then Beach
    else if s[0] == 'W' then Wetland
    else if s[0] == 'I' then IceCap
    else if s[0] == 'T' then (
      if s[1] == 'u' && s[2] == 'n' then Tundra
      else if s[1] == 'a' && s[2] == 'i' then Taiga
      else ToxicSwamp)
    else if s[0] == 'S' then (
      if s[1] == 'h' && s[2] == 'r' then Shrubland
      else if s[1] == 'a' && s[2] == 'v' then Savanna
      else if s[1] == 'n' && s[2] == 'o' then Snow
      else ScorchedWaste)
    else if s[0] == 'P' then Plain
    else if s[0] == 'F' then (
      if s[1] == 'o' && s[2] == 'r' then Forest
      else FrozenOcean)
    else if s[0] == 'J' then Jungle
    else if s[0] == 'M' then (
      if s[1] == 'o' && s[2] == 'u' then Mountain
      else MagmaSea)
    else if s[0] == 'V' then Volcano
    else if s[0] == 'L' then LavaField
    else if s[0] == 'A' then (
      if s[1] == 's' && s[2] == 'h' then AshLand
      else AcidFlatland)
    else if s[0] == 'G' then GlacialPlain
    else if s[0] == 'C' then CausticLake
    else RockyWaste
  }

  /** Every name is non-empty and at most 14 characters ("Scorched Waste"). */
  lemma NameLengths(b: Biome)
    ensures 4 <= |BiomeName(b)| <= 14
    ensures |BiomeName(ScorchedWaste)| == 14
  {
  }

  // ---------------------------------------------------------------------------
  // Planet climate offsets
  // ---------------------------------------------------------------------------

  /** (Δtemperature, Δmoisture, Δvolcanic_zone) of an archetype. */
  datatype Offsets = Offsets(dt: real, dm: real, dvz: real)

  function PlanetOffsets(pt: PlanetType): (o: Offsets)
    ensures pt == Terran <==> o == Offsets(0.0, 0.0, 0.0)
    ensures -0.55 <= o.dt <= 0.45 && -0.65 <= o.dm <= 0.55 && -0.40 <= o.dvz <= 0.50
  {
    match pt
    case Terran => Offsets(0.00, 0.00, 0.00)
    case Volcanic => Offsets(0.45, -0.55, 0.50)
    case Frozen => Offsets(-0.55, 0.15, -0.30)
    case Caustic => Offsets(0.10, 0.55, 0.00)
    case Barren => Offsets(0.00, -0.65, -0.40)
  }

  // ---------------------------------------------------------------------------
  // Stage 1: altitude band, then temperature and moisture
  // ---------------------------------------------------------------------------

  const WaterBiomes: set<Biome> := {DeepOcean, Ocean}
  const ShoreBiomes: set<Biome> := {IceCap, Wetland, Beach}
  const HighlandBiomes: set<Biome> := {Snow, Mountain}
  const LandBiomes: set<Biome> :=
    {IceCap, Taiga, Tundra, Shrubland, Forest, Plain, Desert, Savanna, Jungle}

  /** The 15 biomes stage 1 can produce. */
  const BaseBiomes: set<Biome> := WaterBiomes + ShoreBiomes + HighlandBiomes + LandBiomes

  function OceanBiome(e: real): (b: Biome)
    ensures b in WaterBiomes
    ensures b == DeepOcean <==> e < -0.45
  {
    if e < -0.45 then DeepOcean else Ocean
  }

  function ShoreBiome(t: real, m: real): (b: Biome)
    ensures b in ShoreBiomes
    ensures b == IceCap <==> t < 0.15
    ensures b == Wetland <==> t >= 0.15 && m > 0.3
  {
    if t < 0.15 then IceCap
    else if m > 0.3 then Wetland
    else Beach
  }

  function HighlandBiome(e: real, t: real): (b: Biome)
    ensures b in HighlandBiomes
    ensures b == Snow <==> t < 0.35 || e > 0.88
  {
    if t < 0.35 || e > 0.88 then Snow else Mountain
  }

  function BorealBiome(m: real): (b: Biome)
    ensures b in {Taiga, Tundra}
    ensures b == Taiga <==> m > 0.2
  {
    if m > 0.2 then Taiga else Tundra
  }

  function TemperateBiome(m: real): (b: Biome)
    ensures b in {Shrubland, Forest, Plain}
    ensures b == Shrubland <==> m < -0.1
    ensures b == Forest <==> m > 0.35
  {
    if m < -0.1 then Shrubland
    else if m > 0.35 then Forest
    else Plain
  }

  function TropicalBiome(m: real): (b: Biome)
    ensures b in {Desert, Savanna, Jungle}
    ensures b == Desert <==> m < -0.05
    ensures b == Jungle <==> m >= 0.30
  {
    if m < -0.05 then Desert
    else if m < 0.30 then Savanna
    else Jungle
  }

  function LandBiome(t: real, m: real): (b: Biome)
    ensures b in LandBiomes
    ensures b == IceCap <==> t < 0.15
  {
    if t < 0.15 then IceCap
    else if t < 0.30 then BorealBiome(m)
    else if t < 0.55 then TemperateBiome(m)
    else TropicalBiome(m)
  }

  /** Stage 1 of choose_biome: the altitude band picks one of the helpers above. */
  function BaseBiome(e: real, m: real, t: real): (b: Biome)
    ensures b in BaseBiomes
    ensures e < -0.15 <==> b in WaterBiomes
    ensures e > 0.7 <==> b in HighlandBiomes
  {
    if e < -0.15 then OceanBiome(e)
    else if e < 0.0 then ShoreBiome(t, m)
    else if e > 0.7 then HighlandBiome(e, t)
    else LandBiome(t, m)
  }

  /**
   * The stage-1 decision table written out row by row, every row with both
   * bounds of each interval, so that rows are pairwise exclusive without
   * relying on evaluation order.
   */
  predicate Stage1Row(e: real, m: real, t: real, b: Biome) {
    var shore := -0.15 <= e < 0.0;
    var land := 0.0 <= e <= 0.7;
    match b
    case DeepOcean => e < -0.45
    case Ocean => -0.45 <= e < -0.15
    case IceCap => (shore || land) && t < 0.15
    case Wetland => shore && t >= 0.15 && m > 0.3
    case Beach => shore && t >= 0.15 && m <= 0.3
    case Snow => e > 0.7 && (t < 0.35 || e > 0.88)
    case Mountain => 0.7 < e <= 0.88 && t >= 0.35
    case Taiga => land && 0.15 <= t < 0.30 && m > 0.2
    case Tundra => land && 0.15 <= t < 0.30 && m <= 0.2
    case Shrubland => land && 0.30 <= t < 0.55 && m < -0.1
    case Forest => land && 0.30 <= t < 0.55 && m > 0.35
    case Plain => land && 0.30 <= t < 0.55 && -0.1 <= m <= 0.35
    case Desert => land && t >= 0.55 && m < -0.05
    case Savanna => land && t >= 0.55 && -0.05 <= m < 0.30
    case Jungle => land && t >= 0.55 && m >= 0.30
    case _ => false
  }

  /** Stage 1 picks exactly the biome of the one table row that holds. */
  lemma Stage1MatchesTable(e: real, m: real, t: real, b: Biome)
    ensures BaseBiome(e, m, t) == b <==> Stage1Row(e, m, t, b)
  {
  }

  /**
   * The altitude bands partition the real line: below -0.15 water (split at
   * -0.45), [-0.15, 0) shore, (0.7, ∞) highland, [0, 0.7] land.
   */
  lemma AltitudeBands(e: real, m: real, t: real)
    ensures e < -0.45 ==> BaseBiome(e, m, t) == DeepOcean
    ensures -0.45 <= e < -0.15 ==> BaseBiome(e, m, t) == Ocean
    ensures -0.15 <= e < 0.0 ==> BaseBiome(e, m, t) == ShoreBiome(t, m)
    ensures e > 0.7 ==> BaseBiome(e, m, t) == HighlandBiome(e, t)
    ensures 0.0 <= e <= 0.7 ==> BaseBiome(e, m, t) == LandBiome(t, m)
  {
  }

  /** The tie-breaks of stage 1: which rule wins when two conditions hold at once. */
  lemma Stage1TieBreaks(e: real, m: real, t: real)
    ensures -0.15 <= e < 0.0 && t < 0.15 && m > 0.3 ==> BaseBiome(e, m, t) == IceCap
    ensures 0.0 <= e <= 0.7 && t < 0.15 ==> BaseBiome(e, m, t) == IceCap
    ensures e > 0.88 && t >= 0.35 ==> BaseBiome(e, m, t) == Snow
    ensures 0.0 <= e <= 0.7 && 0.30 <= t < 0.55 && m < -0.1 ==> BaseBiome(e, m, t) == Shrubland
  {
  }

  // ---------------------------------------------------------------------------
  // Stage 2: volcanic override ladder
  // ---------------------------------------------------------------------------

  /** Biomes the summit and flank rules may replace. */
  const PeakBiomes: set<Biome> := {Mountain, Snow}
  /** Biomes the lower-slope rule may replace. */
  const SlopeBiomes: set<Biome> := {Mountain, Snow, Shrubland, Plain, Tundra}

  /** The three volcanic rules, strongest first. */
  predicate VolcanoRule(b: Biome, e: real, vz: real) {
    b in PeakBiomes && e > 0.80 && vz > 0.55
  }
  predicate LavaRule(b: Biome, vz: real) {
    b in PeakBiomes && vz > 0.30
  }
  predicate AshRule(b: Biome, e: real, vz: real) {
    b in SlopeBiomes && e > 0.30 && vz > 0.15
  }

  /** Stage 2: the first matching rule wins; an inert zone (vz <= 0) changes nothing. */
  function ApplyVolcanic(b: Biome, e: real, vz: real): (r: Biome)
    ensures vz <= 0.0 ==> r == b
    ensures b !in SlopeBiomes ==> r == b
    ensures r in {b, Volcano, LavaField, AshLand}
    ensures r == Volcano <==> b == Volcano || VolcanoRule(b, e, vz)
    ensures r == LavaField <==> b == LavaField || (!VolcanoRule(b, e, vz) && LavaRule(b, vz))
    ensures r == AshLand <==>
      b == AshLand || (!VolcanoRule(b, e, vz) && !LavaRule(b, vz) && AshRule(b, e, vz))
  {
    if vz <= 0.0 then b
    else if b in PeakBiomes && e > 0.80 && vz > 0.55 then Volcano
    else if b in PeakBiomes && vz > 0.30 then LavaField
    else if b in SlopeBiomes && e > 0.30 && vz > 0.15 then AshLand
    else b
  }

  /**
   * The summit rule beats the weaker ones: on a peak with e > 0.80 and
   * vz > 0.55 the flank and slope conditions hold too, yet the result is Volcano.
   */
  lemma VolcanoBeatsWeakerRules(b: Biome, e: real, vz: real)
    requires b in PeakBiomes && e > 0.80 && vz > 0.55
    ensures LavaRule(b, vz) && AshRule(b, e, vz)
    ensures ApplyVolcanic(b, e, vz) == Volcano
  {
  }

  // ---------------------------------------------------------------------------
  // Stage 3: archetype remap
  // ---------------------------------------------------------------------------

  /** Stage 3: Terran keeps every biome; the other archetypes replace most of them. */
  function ApplyPlanetType(b: Biome, pt: PlanetType): (r: Biome)
    ensures pt == Terran ==> r == b
    ensures b in {Mountain, Volcano} ==> r == b
    ensures r == b || r in RemapTargets(pt)
  {
    match pt
    case Terran => b
    case Volcanic => (
      match b
      case DeepOcean | Ocean => MagmaSea
      case Beach | Wetland => AshLand
      case Plain | Shrubland | Savanna | Desert => ScorchedWaste
      case Forest | Jungle | Taiga => AshLand
      case IceCap | Tundra | Snow | GlacialPlain => ScorchedWaste
      case _ => b)
    case Frozen => (
      match b
      case DeepOcean | Ocean | MagmaSea => FrozenOcean
      case Beach | Wetland => IceCap
      case Plain | Shrubland => GlacialPlain
      case Forest | Jungle => Taiga
      case Savanna | Desert => GlacialPlain
      case LavaField | AshLand | ScorchedWaste => GlacialPlain
      case _ => b)
    case Caustic => (
      match b
      case DeepOcean | Ocean => CausticLake
      case Beach | Wetland | Forest | Jungle | Taiga => ToxicSwamp
      case Plain | Shrubland | Savanna | Tundra | Desert => AcidFlatland
      case IceCap | Snow | GlacialPlain => AcidFlatland
      case _ => b)
    case Barren => (
      match b
      case DeepOcean | Ocean | CausticLake | FrozenOcean => RockyWaste
      case Beach | Wetland | ToxicSwamp => RockyWaste
      case Plain | Shrubland | Savanna | Desert | Tundra | IceCap | GlacialPlain | AcidFlatland =>
        DustPlain
      case Forest | Jungle | Taiga => DustPlain
      case LavaField | AshLand | ScorchedWaste | Snow => RockyWaste
      case _ => b)
  }

  /** The biomes an archetype's remap table can produce. */
  function RemapTargets(pt: PlanetType): set<Biome> {
    match pt
    case Terran => {}
    case Volcanic => {MagmaSea, AshLand, ScorchedWaste}
    case Frozen => {FrozenOcean, IceCap, GlacialPlain, Taiga}
    case Caustic => {CausticLake, ToxicSwamp, AcidFlatland}
    case Barren => {RockyWaste, DustPlain}
  }

  /** One line of a remap table: every biome of `sources` becomes `target`. */
  datatype Rule = Rule(sources: set<Biome>, target: Biome)

  /**
   * The remap tables as data: each archetype lists which biomes go to which
   * replacement; a biome no rule mentions passes through.
   */
  function RemapRules(pt: PlanetType): seq<Rule> {
    match pt
    case Terran => []
    case Volcanic => [
      Rule({DeepOcean, Ocean}, MagmaSea),
      Rule({Beach, Wetland, Forest, Jungle, Taiga}, AshLand),
      Rule({Plain, Shrubland, Savanna, Desert, IceCap, Tundra, Snow, GlacialPlain}, ScorchedWaste)]
    case Frozen => [
      Rule({DeepOcean, Ocean, MagmaSea}, FrozenOcean),
      Rule({Beach, Wetland}, IceCap),
      Rule({Plain, Shrubland, Savanna, Desert, LavaField, AshLand, ScorchedWaste}, GlacialPlain),
      Rule({Forest, Jungle}, Taiga)]
    case Caustic => [
      Rule({DeepOcean, Ocean}, CausticLake),
      Rule({Beach, Wetland, Forest, Jungle, Taiga}, ToxicSwamp),
      Rule({Plain, Shrubland, Savanna, Tundra, Desert, IceCap, Snow, GlacialPlain}, AcidFlatland)]
    case Barren => [
      Rule({DeepOcean, Ocean, CausticLake, FrozenOcean, Beach, Wetland, ToxicSwamp,
            LavaField, AshLand, ScorchedWaste, Snow}, RockyWaste),
      Rule({Plain, Shrubland, Savanna, Desert, Tundra, IceCap, GlacialPlain, AcidFlatland,
            Forest, Jungle, Taiga}, DustPlain)]
  }

  /**
   * What a rule list says about `b`: every rule mentioning `b` sends it to
   * `r`, and a biome no rule mentions is kept.
   */
  predicate TableSends(rules: seq<Rule>, b: Biome, r: Biome) {
    && (forall i | 0 <= i < |rules| :: b in rules[i].sources ==> r == rules[i].target)
    && ((forall i | 0 <= i < |rules| :: b !in rules[i].sources) ==> r == b)
  }

  /** A rule list determines at most one result for each biome. */
  lemma TableDeterministic(rules: seq<Rule>, b: Biome, r1: Biome, r2: Biome)
    requires TableSends(rules, b, r1) && TableSends(rules, b, r2)
    ensures r1 == r2
  {
    if exists i | 0 <= i < |rules| :: b in rules[i].sources {
      var i :| 0 <= i < |rules| && b in rules[i].sources;
      assert r1 == rules[i].target == r2;
    }
  }

  /**
   * The match-based remap agrees with the data tables for every biome and
   * archetype: the table determines the result.
   */
  lemma RemapFollowsTable(b: Biome, pt: PlanetType, r: Biome)
    ensures ApplyPlanetType(b, pt) == r <==> TableSends(RemapRules(pt), b, r)
  {
    RemapSatisfiesTable(b, pt);
    if TableSends(RemapRules(pt), b, r) {
      TableDeterministic(RemapRules(pt), b, r, ApplyPlanetType(b, pt));
    }
  }

  lemma RemapSatisfiesTable(b: Biome, pt: PlanetType)
    ensures TableSends(RemapRules(pt), b, ApplyPlanetType(b, pt))
  {
    var rs := RemapRules(pt);
    var out := ApplyPlanetType(b, pt);
    forall i | 0 <= i < |rs| && b in rs[i].sources
      ensures out == rs[i].target
    {
      RuleApplies(b, pt, i);
    }
    if forall i | 0 <= i < |rs| :: b !in rs[i].sources {
      NoRuleKeeps(b, pt);
    }
  }

  lemma RuleApplies(b: Biome, pt: PlanetType, i: nat)
    requires i < |RemapRules(pt)| && b in RemapRules(pt)[i].sources
    ensures ApplyPlanetType(b, pt) == RemapRules(pt)[i].target
  {
    match pt
    case Volcanic => VolcanicRuleApplies(b, i);
    case Frozen => FrozenRuleApplies(b, i);
    case Caustic => CausticRuleApplies(b, i);
    case Barren => BarrenRuleApplies(b, i);
  }

  // RuleApplies for one archetype at a time, which keeps each proof small.

  lemma VolcanicRuleApplies(b: Biome, i: nat)
    requires i < |RemapRules(Volcanic)| && b in RemapRules(Volcanic)[i].sources
    ensures ApplyPlanetType(b, Volcanic) == RemapRules(Volcanic)[i].target
  {
    if i == 0 {
    }
  }

  lemma FrozenRuleApplies(b: Biome, i: nat)
    requires i < |RemapRules(Frozen)| && b in RemapRules(Frozen)[i].sources
    ensures ApplyPlanetType(b, Frozen) == RemapRules(Frozen)[i].target
  {
    if i == 0 {
    }
  }

  lemma CausticRuleApplies(b: Biome, i: nat)
    requires i < |RemapRules(Caustic)| && b in RemapRules(Caustic)[i].sources
    ensures ApplyPlanetType(b, Caustic) == RemapRules(Caustic)[i].target
  {
    if i == 0 {
    }
  }

  lemma BarrenRuleApplies(b: Biome, i: nat)
    requires i < |RemapRules(Barren)| && b in RemapRules(Barren)[i].sources
    ensures ApplyPlanetType(b, Barren) == RemapRules(Barren)[i].target
  {
    if i == 0 {
      BarrenToRocky(b);
    } else {
      BarrenToDust(b);
    }
  }

  lemma BarrenToRocky(b: Biome)
    requires b in {DeepOcean, Ocean, CausticLake, FrozenOcean, Beach, Wetland, ToxicSwamp,
                   LavaField, AshLand, ScorchedWaste, Snow}
    ensures ApplyPlanetType(b, Barren) == RockyWaste
  {
  }

  lemma BarrenToDust(b: Biome)
    requires b in {Plain, Shrubland, Savanna, Desert, Tundra, IceCap, GlacialPlain, AcidFlatland,
                   Forest, Jungle, Taiga}
    ensures ApplyPlanetType(b, Barren) == DustPlain
  {
  }

  lemma NoRuleKeeps(b: Biome, pt: PlanetType)
    requires forall i | 0 <= i < |RemapRules(pt)| :: b !in RemapRules(pt)[i].sources
    ensures ApplyPlanetType(b, pt) == b
  {
    var rs := RemapRules(pt);
    match pt
    case Terran =>
    case Volcanic =>
      assert b !in rs[0].sources && b !in rs[1].sources && b !in rs[2].sources;
      VolcanicKeeps(b);
    case Frozen =>
      assert b !in rs[0].sources && b !in rs[1].sources && b !in rs[2].sources && b !in rs[3].sources;
      FrozenKeeps(b);
    case Caustic =>
      assert b !in rs[0].sources && b !in rs[1].sources && b !in rs[2].sources;
      CausticKeeps(b);
    case Barren =>
      assert b !in rs[0].sources && b !in rs[1].sources;
      BarrenKeeps(b);
  }

  // NoRuleKeeps for one archetype at a time, with the rule sources unions spelled out.

  lemma VolcanicKeeps(b: Biome)
    requires b !in {DeepOcean, Ocean} + {Beach, Wetland, Forest, Jungle, Taiga}
      + {Plain, Shrubland, Savanna, Desert, IceCap, Tundra, Snow, GlacialPlain}
    ensures ApplyPlanetType(b, Volcanic) == b
  {
  }

  lemma FrozenKeeps(b: Biome)
    requires b !in {DeepOcean, Ocean, MagmaSea} + {Beach, Wetland}
      + {Plain, Shrubland, Savanna, Desert, LavaField, AshLand, ScorchedWaste} + {Forest, Jungle}
    ensures ApplyPlanetType(b, Frozen) == b
  {
  }

  lemma CausticKeeps(b: Biome)
    requires b !in {DeepOcean, Ocean} + {Beach, Wetland, Forest, Jungle, Taiga}
      + {Plain, Shrubland, Savanna, Tundra, Desert, IceCap, Snow, GlacialPlain}
    ensures ApplyPlanetType(b, Caustic) == b
  {
  }

  lemma BarrenKeeps(b: Biome)
    requires b !in {DeepOcean, Ocean, CausticLake, FrozenOcean, Beach, Wetland, ToxicSwamp,
                    LavaField, AshLand, ScorchedWaste, Snow}
      + {Plain, Shrubland, Savanna, Desert, Tundra, IceCap, GlacialPlain, AcidFlatland,
         Forest, Jungle, Taiga}
    ensures ApplyPlanetType(b, Barren) == b
  {
  }

  /** Biomes only one archetype's remap introduces. */
  function Exclusives(pt: PlanetType): set<Biome> {
    match pt
    case Terran => {}
    case Volcanic => {MagmaSea, ScorchedWaste}
    case Frozen => {FrozenOcean, GlacialPlain}
    case Caustic => {CausticLake, ToxicSwamp, AcidFlatland}
    case Barren => {RockyWaste, DustPlain}
  }

  const AllExclusives: set<Biome> :=
    {MagmaSea, ScorchedWaste, FrozenOcean, GlacialPlain, CausticLake, ToxicSwamp,
     AcidFlatland, RockyWaste, DustPlain}

  /** The 18 biomes stages 1 and 2 can produce: every biome but the nine exclusives. */
  const StandardBiomes: set<Biome> := BaseBiomes + {Volcano, LavaField, AshLand}

  /**
   * The remap alone is not closed: a biome exclusive to another archetype can
   * pass through unchanged, for instance MagmaSea on a Barren world.
   */
  lemma RemapPassesForeignExclusives()
    ensures ApplyPlanetType(MagmaSea, Barren) == MagmaSea
    ensures MagmaSea in Exclusives(Volcanic)
  {
  }

  /** On the 18 standard biomes the remap never yields another archetype's exclusive. */
  lemma RemapClosedOnStandard(b: Biome, pt: PlanetType, other: PlanetType)
    requires b in StandardBiomes
    requires other != pt
    ensures ApplyPlanetType(b, pt) !in Exclusives(other)
  {
    StandardRemapsIntoOutcomes(b, pt);
    OutcomesAvoidForeignExclusives(pt, other);
  }

  /** No archetype's outcomes include a biome exclusive to a different archetype. */
  lemma OutcomesAvoidForeignExclusives(pt: PlanetType, other: PlanetType)
    requires other != pt
    ensures Outcomes(pt) !! Exclusives(other)
  {
    match pt
    case Terran => StandardAvoidsExclusives();
    case Volcanic =>
    case Frozen =>
    case Caustic =>
    case Barren =>
  }

  /** None of the standard biomes is exclusive to any archetype. */
  lemma StandardAvoidsExclusives()
    ensures StandardBiomes !! AllExclusives
  {
  }

  // ---------------------------------------------------------------------------
  // The whole cascade
  // ---------------------------------------------------------------------------

  /** Exactly the biomes each archetype's world can show. */
  function Outcomes(pt: PlanetType): set<Biome> {
    match pt
    case Terran => StandardBiomes
    case Volcanic => {MagmaSea, AshLand, ScorchedWaste, Mountain, LavaField, Volcano}
    case Frozen => {FrozenOcean, IceCap, GlacialPlain, Taiga, Tundra, Snow, Mountain, Volcano}
    case Caustic => {CausticLake, ToxicSwamp, AcidFlatland, Mountain, LavaField, AshLand, Volcano}
    case Barren => {Mountain, Volcano, RockyWaste, DustPlain}
  }

  /** Stages 1 and 2 together. */
  function StandardBiome(e: real, m: real, t: real, vz: real): (b: Biome)
    ensures b in StandardBiomes
  {
    ApplyVolcanic(BaseBiome(e, m, t), e, vz)
  }

  /**
   * choose_biome: altitude band, then volcanic override, then archetype remap.
   * Its result always lies in the archetype's outcome set, so a Terran world
   * never shows an exclusive biome and no world shows another archetype's.
   */
  function ChooseBiome(e: real, m: real, t: real, vz: real, pt: PlanetType): (b: Biome)
    ensures b in Outcomes(pt)
    ensures pt == Terran ==> b !in AllExclusives
    ensures forall other: PlanetType | other != pt :: b !in Exclusives(other)
  {
    var standard := StandardBiome(e, m, t, vz);
    RemapOfStandard(standard, pt);
    ApplyPlanetType(standard, pt)
  }

  /** What the remap does to a biome stages 1 and 2 can produce. */
  lemma RemapOfStandard(b: Biome, pt: PlanetType)
    requires b in StandardBiomes
    ensures ApplyPlanetType(b, pt) in Outcomes(pt)
    ensures pt == Terran ==> ApplyPlanetType(b, pt) !in AllExclusives
    ensures forall other: PlanetType | other != pt :: ApplyPlanetType(b, pt) !in Exclusives(other)
  {
    StandardRemapsIntoOutcomes(b, pt);
    StandardAvoidsExclusives();
    forall other: PlanetType | other != pt
      ensures ApplyPlanetType(b, pt) !in Exclusives(other)
    {
      RemapClosedOnStandard(b, pt, other);
    }
  }

  /** Each outcome set is exactly the image of the standard biomes under the remap. */
  lemma OutcomesAreRemapImage(pt: PlanetType)
    ensures Outcomes(pt) == set b | b in StandardBiomes :: ApplyPlanetType(b, pt)
  {
    var image := set b | b in StandardBiomes :: ApplyPlanetType(b, pt);
    forall c | c in Outcomes(pt)
      ensures c in image
    {
      var w := PreimageOf(c, pt);
      assert ApplyPlanetType(w, pt) == c;
    }
    forall b | b in StandardBiomes
      ensures ApplyPlanetType(b, pt) in Outcomes(pt)
    {
      StandardRemapsIntoOutcomes(b, pt);
    }
  }

  lemma StandardRemapsIntoOutcomes(b: Biome, pt: PlanetType)
    requires b in StandardBiomes
    ensures ApplyPlanetType(b, pt) in Outcomes(pt)
  {
  }

  /** A standard biome the remap sends to `c` (c must be a possible outcome). */
  function PreimageOf(c: Biome, pt: PlanetType): (w: Biome)
    requires c in Outcomes(pt)
    ensures w in StandardBiomes && ApplyPlanetType(w, pt) == c
  {
    match pt
    case Terran => c
    case Volcanic => VolcanicPreimage(c)
    case Frozen => FrozenPreimage(c)
    case Caustic => CausticPreimage(c)
    case Barren => BarrenPreimage(c)
  }

  function VolcanicPreimage(c: Biome): (w: Biome)
    requires c in Outcomes(Volcanic)
    ensures w in StandardBiomes && ApplyPlanetType(w, Volcanic) == c
  {
    if c == MagmaSea then Ocean else if c == ScorchedWaste then Plain else c
  }

  function FrozenPreimage(c: Biome): (w: Biome)
    requires c in Outcomes(Frozen)
    ensures w in StandardBiomes && ApplyPlanetType(w, Frozen) == c
  {
    if c == FrozenOcean then Ocean else if c == GlacialPlain then Plain else c
  }

  function CausticPreimage(c: Biome): (w: Biome)
    requires c in Outcomes(Caustic)
    ensures w in StandardBiomes && ApplyPlanetType(w, Caustic) == c
  {
    if c == CausticLake then Ocean
    else if c == ToxicSwamp then Beach
    else if c == AcidFlatland then Plain
    else c
  }

  function BarrenPreimage(c: Biome): (w: Biome)
    requires c in Outcomes(Barren)
    ensures w in StandardBiomes && ApplyPlanetType(w, Barren) == c
  {
    if c == RockyWaste then Ocean else if c == DustPlain then Plain else c
  }

  /** The four signals, as a tuple of classifier inputs. */
  datatype Inputs = Inputs(e: real, m: real, t: real, vz: real)

  /** Inputs on which stages 1 and 2 produce a given standard biome. */
  function WitnessInputs(b: Biome): (w: Inputs)
    requires b in StandardBiomes
    ensures StandardBiome(w.e, w.m, w.t, w.vz) == b
  {
    match b
    case DeepOcean => Inputs(-0.5, 0.0, 0.5, 0.0)
    case Ocean => Inputs(-0.3, 0.0, 0.5, 0.0)
    case IceCap => Inputs(-0.1, 0.0, 0.0, 0.0)
    case Wetland => Inputs(-0.1, 0.5, 0.5, 0.0)
    case Beach => Inputs(-0.1, 0.0, 0.5, 0.0)
    case Snow => Inputs(0.9, 0.0, 0.5, 0.0)
    case Mountain => Inputs(0.8, 0.0, 0.5, 0.0)
    case Taiga => Inputs(0.5, 0.5, 0.2, 0.0)
    case Tundra => Inputs(0.5, 0.0, 0.2, 0.0)
    case Shrubland => Inputs(0.5, -0.5, 0.4, 0.0)
    case Forest => Inputs(0.5, 0.5, 0.4, 0.0)
    case Plain => Inputs(0.5, 0.0, 0.4, 0.0)
    case Desert => Inputs(0.5, -0.5, 0.6, 0.0)
    case Savanna => Inputs(0.5, 0.0, 0.6, 0.0)
    case Jungle => Inputs(0.5, 0.5, 0.6, 0.0)
    case Volcano => Inputs(0.85, 0.0, 0.5, 0.6)
    case LavaField => Inputs(0.75, 0.0, 0.5, 0.4)
    case AshLand => Inputs(0.5, 0.0, 0.4, 0.2)
  }

  /** Conversely, every biome of an archetype's outcome set is produced by some inputs. */
  lemma EveryOutcomeReachable(pt: PlanetType, c: Biome)
    requires c in Outcomes(pt)
    ensures exists e: real, m: real, t: real, vz: real :: ChooseBiome(e, m, t, vz, pt) == c
  {
    var w := WitnessInputs(PreimageOf(c, pt));
    assert ChooseBiome(w.e, w.m, w.t, w.vz, pt) == c;
  }

  /** The worked tie-break: a Mountain cell at e = 0.85, vz = 0.60 becomes a Volcano. */
  lemma SummitExample(m: real, t: real)
    requires t >= 0.35
    ensures BaseBiome(0.85, m, t) == Mountain
    ensures ChooseBiome(0.85, m, t, 0.60, Terran) == Volcano
  {
  }

  /** The deep-ocean threshold: -0.46 is deep, -0.44 is not. */
  lemma DeepOceanBoundary(m: real, t: real, vz: real)
    ensures ChooseBiome(-0.46, m, t, vz, Terran) == DeepOcean
    ensures ChooseBiome(-0.44, m, t, vz, Terran) == Ocean
  {
  }
}
