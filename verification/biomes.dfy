/**
 * The biome tables and lookups of src/sim/terrain/biomes.ts: the five biome
 * types and their numeric codes, the per-biome data (colour, fertility,
 * water, movement speed, resources), the species suitability table, the
 * description text and the mapping from world coordinates to a biome cell.
 */
module Biomes {
  import opened Wrappers
  import Js

  datatype BiomeType = Water | Grass | Forest | Mountain | Desert

  /** The enum value of a biome type. */
  function Code(b: BiomeType): (n: int)
    ensures 0 <= n <= 4
  {
    match b
    case Water => 0
    case Grass => 1
    case Forest => 2
    case Mountain => 3
    case Desert => 4
  }

  /** The biome type with enum value `n`, if any. */
  function FromCode(n: int): (b: Option<BiomeType>)
    ensures b.Some? <==> 0 <= n <= 4
    ensures b.Some? ==> Code(b.value) == n
  {
    if n == 0 then Some(Water)
    else if n == 1 then Some(Grass)
    else if n == 2 then Some(Forest)
    else if n == 3 then Some(Mountain)
    else if n == 4 then Some(Desert)
    else None
  }

  lemma CodeRoundTrip(b: BiomeType)
    ensures FromCode(Code(b)) == Some(b)
  {
  }

  /** An RGB colour with components in [0, 1]. */
  datatype Rgb = Rgb(r: real, g: real, b: real)

  predicate UnitColor(c: Rgb) {
    0.0 <= c.r <= 1.0 && 0.0 <= c.g <= 1.0 && 0.0 <= c.b <= 1.0
  }

  datatype BiomeData = BiomeData(
    id: BiomeType,
    name: string,
    color: Rgb,
    fertility: real,
    waterAvailable: real,
    movementSpeed: real,
    resources: seq<string>)

  /** `BIOME_DATA`: the table entry of each biome type. */
  function Entry(b: BiomeType): (d: BiomeData)
    ensures d.id == b && UnitColor(d.color) && |d.resources| >= 2
    ensures 0.0 < d.fertility <= 1.0 && 0.0 <= d.waterAvailable <= 1.0 && 0.0 <= d.movementSpeed <= 2.0
  {
    match b
    case Water => BiomeData(Water, "Water", Rgb(0.2, 0.4, 0.8), 0.3, 1.0, 0.3, ["fish", "water"])
    case Grass => BiomeData(Grass, "Grassland", Rgb(0.3, 0.7, 0.2), 0.8, 0.6, 1.2, ["grass", "herbs", "small_game"])
    case Forest => BiomeData(Forest, "Forest", Rgb(0.1, 0.5, 0.1), 0.9, 0.8, 0.8, ["wood", "berries", "game", "herbs"])
    case Mountain => BiomeData(Mountain, "Mountain", Rgb(0.5, 0.4, 0.3), 0.2, 0.4, 0.6, ["stone", "minerals", "mountain_herbs"])
    case Desert => BiomeData(Desert, "Desert", Rgb(0.8, 0.7, 0.3), 0.1, 0.1, 0.9, ["cacti", "rare_minerals"])
  }

  /** `BIOME_COLORS`: the 0-255 channel values of each biome type. */
  function ByteColor(b: BiomeType): (c: (int, int, int))
    ensures 0 <= c.0 <= 255 && 0 <= c.1 <= 255 && 0 <= c.2 <= 255
  {
    match b
    case Water => (51, 102, 204)
    case Grass => (76, 178, 51)
    case Forest => (25, 127, 25)
    case Mountain => (127, 102, 76)
    case Desert => (204, 178, 76)
  }

  /** `getBiomeColor`: the byte colour scaled into [0, 1]. */
  function GetBiomeColor(b: BiomeType): (c: Rgb)
    ensures UnitColor(c)
    ensures c.r * 255.0 == ByteColor(b).0 as real && c.g * 255.0 == ByteColor(b).1 as real
    ensures c.b * 255.0 == ByteColor(b).2 as real
  {
    var (r, g, bl) := ByteColor(b);
    Rgb(r as real / 255.0, g as real / 255.0, bl as real / 255.0)
  }

  /** `getBiomeData`: the entry for a known code, the grassland entry for any other. */
  function GetBiomeData(code: int): (d: BiomeData)
    ensures 0 <= code <= 4 ==> Code(d.id) == code
    ensures !(0 <= code <= 4) ==> d.id == Grass
    ensures d == Entry(d.id)
  {
    Entry(FromCode(code).GetOr(Grass))
  }

  /** `getBiomeName`. */
  function GetBiomeName(code: int): (name: string)
    ensures name == Entry(GetBiomeData(code).id).name
  {
    GetBiomeData(code).name
  }

  datatype Modifiers = Modifiers(hungerRate: real, energyConsumption: real, reproductionRate: real, movementSpeed: real)

  /**
   * `calculateBiomeModifiers`: less fertile land makes entities hungrier
   * (the rate is 1 / fertility, at least 1), slower land costs more energy
   * (2 - speed), and reproduction scales with fertility and water, in [0, 1].
   */
  function CalculateBiomeModifiers(code: int): (r: Modifiers)
    ensures var d := GetBiomeData(code);
      && r.hungerRate * d.fertility == 1.0 && r.hungerRate >= 1.0
      && r.energyConsumption + d.movementSpeed == 2.0 && 0.0 <= r.energyConsumption <= 2.0
      && 0.0 <= r.reproductionRate <= d.fertility && r.reproductionRate <= d.waterAvailable
      && r.movementSpeed == d.movementSpeed
  {
    var d := GetBiomeData(code);
    Modifiers(1.0 / d.fertility, 2.0 - d.movementSpeed, d.fertility * d.waterAvailable, d.movementSpeed)
  }

  /** `isSuitableBiome`: the preference table of each species, 0.5 for anything else. */
  function IsSuitableBiome(code: int, speciesKind: string): (r: real)
    ensures 0.1 <= r <= 1.0
    ensures speciesKind !in {"HERBIVORE", "PREDATOR", "TRIBAL"} ==> r == 0.5
    ensures !(0 <= code <= 4) ==> r == 0.5
  {
    match speciesKind
    case "HERBIVORE" =>
      if code == Code(Grass) then 1.0
      else if code == Code(Forest) then 0.8
      else if code == Code(Water) then 0.3
      else if code == Code(Desert) then 0.2
      else if code == Code(Mountain) then 0.1
      else 0.5
    case "PREDATOR" =>
      if code == Code(Forest) then 1.0
      else if code == Code(Grass) then 0.9
      else if code == Code(Mountain) then 0.6
      else if code == Code(Desert) then 0.4
      else if code == Code(Water) then 0.2
      else 0.5
    case "TRIBAL" =>
      if code == Code(Forest) then 1.0
      else if code == Code(Grass) then 0.8
      else if code == Code(Water) then 0.7
      else if code == Code(Mountain) then 0.5
      else if code == Code(Desert) then 0.3
      else 0.5
    case _ => 0.5
  }

  /** Grassland suits herbivores best, forest suits predators and tribes best, each strictly. */
  lemma PreferredBiomes(code: int)
    ensures IsSuitableBiome(code, "HERBIVORE") <= IsSuitableBiome(Code(Grass), "HERBIVORE") == 1.0
    ensures code != Code(Grass) ==> IsSuitableBiome(code, "HERBIVORE") < 1.0
    ensures IsSuitableBiome(code, "PREDATOR") <= IsSuitableBiome(Code(Forest), "PREDATOR") == 1.0
    ensures code != Code(Forest) ==> IsSuitableBiome(code, "PREDATOR") < 1.0
    ensures IsSuitableBiome(code, "TRIBAL") <= IsSuitableBiome(Code(Forest), "TRIBAL") == 1.0
    ensures code != Code(Forest) ==> IsSuitableBiome(code, "TRIBAL") < 1.0
  {
  }

  /** `array.join(sep)`. */
  function Join(parts: seq<string>, sep: string): (s: string)
    ensures parts == [] ==> s == ""
    ensures |parts| == 1 ==> s == parts[0]
    ensures |parts| >= 2 ==> s == Join(parts[..|parts| - 1], sep) + sep + parts[|parts| - 1]
  {
    if parts == [] then ""
    else if |parts| == 1 then parts[0]
    else Join(parts[..|parts| - 1], sep) + sep + parts[|parts| - 1]
  }

  /** The fertility phrase: above 0.7, above 0.4, or neither. */
  function FertilityPhrase(f: real): (s: string)
    ensures s == "very fertile" <==> f > 0.7
    ensures s == "moderately fertile" <==> 0.4 < f <= 0.7
    ensures s == "sparse" <==> f <= 0.4
  {
    if f > 0.7 then "very fertile" else if f > 0.4 then "moderately fertile" else "sparse"
  }

  /** The water phrase, at the same thresholds. */
  function WaterPhrase(w: real): (s: string)
    ensures s == "abundant water" <==> w > 0.7
    ensures s == "some water" <==> 0.4 < w <= 0.7
    ensures s == "little water" <==> w <= 0.4
  {
    if w > 0.7 then "abundant water" else if w > 0.4 then "some water" else "little water"
  }

  /** `getBiomeDescription`. */
  function GetBiomeDescription(code: int): (s: string)
    ensures var d := GetBiomeData(code); |s| > |d.name| + 2 && s[..|d.name| + 2] == d.name + ": "
  {
    var d := GetBiomeData(code);
    d.name + ": A " + FertilityPhrase(d.fertility) + " region with " + WaterPhrase(d.waterAvailable)
      + ". Resources: " + Join(d.resources, ", ") + "."
  }

  /**
   * The phrases each biome's description uses: only grassland and forest
   * read as fertile, no biome reads as moderately fertile, and water and
   * forest have abundant water.
   */
  lemma DescriptionPhrases(b: BiomeType)
    ensures FertilityPhrase(Entry(b).fertility) == (if b == Grass || b == Forest then "very fertile" else "sparse")
    ensures WaterPhrase(Entry(b).waterAvailable)
         == (if b == Water || b == Forest then "abundant water" else if b == Grass then "some water" else "little water")
  {
  }

  /** An unknown code is described as grassland. */
  lemma UnknownDescribedAsGrass(code: int)
    requires !(0 <= code <= 4)
    ensures GetBiomeDescription(code) == GetBiomeDescription(Code(Grass))
  {
  }

  /**
   * One axis of `worldToBiomeCoordinates`: the cell of world coordinate `w`
   * on a grid of `size` cells spanning [-worldSize/2, worldSize/2], clamped
   * into [0, size - 1]. `None` stands for NaN, which a world size of 0 can
   * produce; an infinite quotient clamps to an edge.
   */
  function Axis(w: real, worldSize: real, size: int): (c: Option<int>)
    ensures worldSize != 0.0 ==> c.Some?
    ensures c.Some? && size >= 1 ==> 0 <= c.value <= size - 1
    ensures c.Some? && size <= 1 ==> c.value == 0
  {
    match Js.Divide(w + worldSize / 2.0, worldSize)
    case Finite(v) => Some(Js.MaxInt(0, Js.MinInt(size - 1, (v * size as real).Floor)))
    case PosInfinity => if size == 0 then None else Some(Js.MaxInt(0, size - 1))
    case NegInfinity => if size == 0 then None else Some(0)
    case NaN => None
  }

  /** Biome grid coordinates; `None` stands for NaN. */
  datatype BiomeCoords = BiomeCoords(x: Option<int>, y: Option<int>)

  /** `worldToBiomeCoordinates`. */
  function WorldToBiomeCoordinates(worldX: real, worldY: real, worldSize: real, biomeSize: int): (c: BiomeCoords)
    ensures worldSize != 0.0 ==> c.x.Some? && c.y.Some?
    ensures biomeSize >= 1 && c.x.Some? ==> 0 <= c.x.value < biomeSize
    ensures biomeSize >= 1 && c.y.Some? ==> 0 <= c.y.value < biomeSize
  {
    BiomeCoords(Axis(worldX, worldSize, biomeSize), Axis(worldY, worldSize, biomeSize))
  }

  /** The row-major index of the cell, when both coordinates are numbers. */
  function CellIndex(c: BiomeCoords, biomeSize: int): (i: Option<int>)
    ensures i.Some? <==> c.x.Some? && c.y.Some?
  {
    if c.x.Some? && c.y.Some? then Some(c.y.value * biomeSize + c.x.value) else None
  }

  /** A cell of a `w` by `h` grid has a row-major index in [0, w * h). */
  lemma CellIndexInGrid(x: int, y: int, w: int, h: int)
    requires 0 <= x < w && 0 <= y < h
    ensures 0 <= y * w + x < w * h
  {
    Js.MultiplyMonotone(y, h - 1, w);
    assert (h - 1) * w == w * h - w;
  }

  /**
   * `sampleBiomeAtPosition` as written: the stored code at the cell, with
   * `|| GRASS` standing in for a missing cell, which also replaces the code 0
   * (water) by grassland.
   */
  function SampleBiomeAtPosition(worldX: real, worldY: real, biomeData: seq<int>, worldSize: real, biomeSize: int)
    : (b: int)
    ensures b != Code(Water)
  {
    var index := CellIndex(WorldToBiomeCoordinates(worldX, worldY, worldSize, biomeSize), biomeSize);
    if index.Some? && 0 <= index.value < |biomeData| && biomeData[index.value] != 0
    then biomeData[index.value]
    else Code(Grass)
  }

  /** The water cell of a one-cell grid is reported as grassland. */
  lemma WaterSampledAsGrass()
    ensures [Code(Water)][0] == Code(Water)
    ensures SampleBiomeAtPosition(0.0, 0.0, [Code(Water)], 1000.0, 1) == Code(Grass)
  {
    assert Js.Divide(500.0, 1000.0) == Js.Finite(0.5);
  }

  /** The sampler with grassland only for a cell outside the grid (or a NaN index). */
  function SampleBiome(worldX: real, worldY: real, biomeData: seq<int>, worldSize: real, biomeSize: int): (b: int)
    ensures var index := CellIndex(WorldToBiomeCoordinates(worldX, worldY, worldSize, biomeSize), biomeSize);
      index.Some? && 0 <= index.value < |biomeData| ==> b == biomeData[index.value]
  {
    var index := CellIndex(WorldToBiomeCoordinates(worldX, worldY, worldSize, biomeSize), biomeSize);
    if index.Some? && 0 <= index.value < |biomeData| then biomeData[index.value] else Code(Grass)
  }

  /** On a full grid and a non-zero world size, the sampler reads the cell under the position, water included. */
  lemma SampleBiomeReadsCell(worldX: real, worldY: real, biomeData: seq<int>, worldSize: real, biomeSize: int)
    requires worldSize != 0.0 && biomeSize >= 1 && |biomeData| == biomeSize * biomeSize
    ensures var c := WorldToBiomeCoordinates(worldX, worldY, worldSize, biomeSize);
      && 0 <= c.y.value * biomeSize + c.x.value < |biomeData|
      && SampleBiome(worldX, worldY, biomeData, worldSize, biomeSize) == biomeData[c.y.value * biomeSize + c.x.value]
  {
    var c := WorldToBiomeCoordinates(worldX, worldY, worldSize, biomeSize);
    CellIndexInGrid(c.x.value, c.y.value, biomeSize, biomeSize);
  }
}
