/**
 * The procedural terrain of src/sim/terrain/generateHeightmap.ts: hash
 * noise, smoothed lattice noise, fractal (multi-octave) noise, the terrain
 * features laid over it, the generated and normalised heightmap, the biome
 * map derived from it, and height sampling.
 *
 * `Math.sin`, `Math.sqrt` and `Math.pow` are the uninterpreted oracles of
 * `Js.MathLib`; nothing here depends on their values beyond being reals.
 */
module Terrain {
  import opened Wrappers
  import Js
  import Biomes

  datatype TerrainConfig = TerrainConfig(
    width: nat,
    height: nat,
    scale: real,
    octaves: nat,
    persistence: real,
    lacunarity: real,
    seed: real)

  /** A `Partial<TerrainConfig>`: `None` is a key the overrides leave out. */
  datatype ConfigOverrides = ConfigOverrides(
    width: Option<nat>,
    height: Option<nat>,
    scale: Option<real>,
    octaves: Option<nat>,
    persistence: Option<real>,
    lacunarity: Option<real>,
    seed: Option<real>)

  const NoOverrides := ConfigOverrides(None, None, None, None, None, None, None)

  const DefaultConfig := TerrainConfig(256, 256, 100.0, 6, 0.5, 2.0, 12345.0)

  /** `createTerrainConfig`: the defaults with every given key replaced. */
  function CreateTerrainConfig(o: ConfigOverrides): (c: TerrainConfig)
    ensures o == NoOverrides ==> c == DefaultConfig
    ensures o.width.Some? ==> c.width == o.width.value
    ensures o.width.None? ==> c.width == DefaultConfig.width
    ensures o.scale.Some? ==> c.scale == o.scale.value
    ensures o.scale.None? ==> c.scale == DefaultConfig.scale
    ensures o.octaves.Some? ==> c.octaves == o.octaves.value
    ensures o.octaves.None? ==> c.octaves == DefaultConfig.octaves
    ensures o.height.Some? ==> c.height == o.height.value
    ensures o.height.None? ==> c.height == DefaultConfig.height
    ensures o.persistence.Some? ==> c.persistence == o.persistence.value
    ensures o.persistence.None? ==> c.persistence == DefaultConfig.persistence
    ensures o.lacunarity.Some? ==> c.lacunarity == o.lacunarity.value
    ensures o.lacunarity.None? ==> c.lacunarity == DefaultConfig.lacunarity
    ensures o.seed.Some? ==> c.seed == o.seed.value
    ensures o.seed.None? ==> c.seed == DefaultConfig.seed
  {
    TerrainConfig(
      o.width.GetOr(DefaultConfig.width),
      o.height.GetOr(DefaultConfig.height),
      o.scale.GetOr(DefaultConfig.scale),
      o.octaves.GetOr(DefaultConfig.octaves),
      o.persistence.GetOr(DefaultConfig.persistence),
      o.lacunarity.GetOr(DefaultConfig.lacunarity),
      o.seed.GetOr(DefaultConfig.seed))
  }

  /** Overriding every key yields exactly the overrides. */
  lemma FullOverride(c: TerrainConfig)
    ensures CreateTerrainConfig(ConfigOverrides(Some(c.width), Some(c.height), Some(c.scale), Some(c.octaves),
                                                Some(c.persistence), Some(c.lacunarity), Some(c.seed))) == c
  {
  }

  /**
   * A configuration whose noise is a number everywhere: a non-zero scale
   * (coordinates are divided by it), at least one octave and a positive
   * persistence (the amplitudes sum to a positive divisor).
   */
  predicate Generable(c: TerrainConfig) {
    c.scale != 0.0 && c.octaves >= 1 && c.persistence > 0.0
  }

  lemma DefaultGenerable()
    ensures Generable(CreateTerrainConfig(NoOverrides))
  {
  }

  // ---------------------------------------------------------------- noise

  /** `noise2D`: the fractional part of a scaled sine hash, mapped to [-1, 1). */
  function Noise2D(m: Js.MathLib, x: real, y: real, seed: real): (r: real)
    ensures -1.0 <= r < 1.0
  {
    Js.Frac(m.Sin(x * 12.9898 + y * 78.233 + seed) * 43758.5453) * 2.0 - 1.0
  }

  /** `lerp`. */
  function Lerp(a: real, b: real, t: real): (r: real)
    ensures t == 0.0 ==> r == a
    ensures t == 1.0 ==> r == b
  {
    a + (b - a) * t
  }

  /** With a weight in [0, 1] the interpolation lies between its end points. */
  lemma LerpBetween(a: real, b: real, t: real)
    requires 0.0 <= t <= 1.0
    ensures Js.Min(a, b) <= Lerp(a, b, t) <= Js.Max(a, b)
  {
    if a <= b {
      Js.ProductNonNegative(b - a, t);
      Js.ProductNonNegative(b - a, 1.0 - t);
      assert (b - a) * (1.0 - t) == (b - a) - (b - a) * t;
    } else {
      Js.ProductNonNegative(a - b, t);
      Js.ProductNonNegative(a - b, 1.0 - t);
      assert (a - b) * t == -((b - a) * t);
      assert (a - b) * (1.0 - t) == (a - b) + (b - a) * t;
    }
  }

  /** `smoothstep`: the cubic 3t^2 - 2t^3. */
  function Smoothstep(t: real): (r: real)
    ensures t == 0.0 ==> r == 0.0
    ensures t == 1.0 ==> r == 1.0
  {
    t * t * (3.0 - 2.0 * t)
  }

  /** On [0, 1] smoothstep stays in [0, 1]. */
  lemma SmoothstepRange(t: real)
    requires 0.0 <= t <= 1.0
    ensures 0.0 <= Smoothstep(t) <= 1.0
  {
    Js.SquareNonNegative(t);
    Js.ProductNonNegative(t * t, 3.0 - 2.0 * t);
    Js.SquareNonNegative(1.0 - t);
    Js.ProductNonNegative((1.0 - t) * (1.0 - t), 1.0 + 2.0 * t);
    assert 1.0 - t * t * (3.0 - 2.0 * t) == (1.0 - t) * (1.0 - t) * (1.0 + 2.0 * t);
  }

  /**
   * `smoothNoise2D`: the hash noise at the four lattice corners around
   * (x, y), blended with smoothstep weights; it stays in the hash's range.
   */
  function SmoothNoise2D(m: Js.MathLib, x: real, y: real, seed: real): (r: real)
    ensures -1.0 <= r < 1.0
  {
    var ix := Js.Floor(x) as real;
    var iy := Js.Floor(y) as real;
    var a := Noise2D(m, ix, iy, seed);
    var b := Noise2D(m, ix + 1.0, iy, seed);
    var c := Noise2D(m, ix, iy + 1.0, seed);
    var d := Noise2D(m, ix + 1.0, iy + 1.0, seed);
    var sx := Smoothstep(Js.Frac(x));
    var sy := Smoothstep(Js.Frac(y));
    SmoothstepRange(Js.Frac(x));
    SmoothstepRange(Js.Frac(y));
    LerpBetween(a, b, sx);
    LerpBetween(c, d, sx);
    LerpBetween(Lerp(a, b, sx), Lerp(c, d, sx), sy);
    Lerp(Lerp(a, b, sx), Lerp(c, d, sx), sy)
  }

  // -------------------------------------------------------- fractal noise

  /** The variables of the octave loop of `fractalNoise`. */
  datatype Octaves = Octaves(value: real, amplitude: real, frequency: real, maxValue: real)

  /** The loop variables before the first octave. */
  const NoOctaves := Octaves(0.0, 1.0, 1.0, 0.0)

  /**
   * One octave: the smoothed noise at the current frequency, weighted by the
   * current amplitude, is added to the value and the amplitude to the total;
   * the amplitude shrinks by the persistence and the frequency grows by the
   * lacunarity.
   */
  function AddOctave(m: Js.MathLib, x: real, y: real, c: TerrainConfig,
                     value: real, amplitude: real, frequency: real, maxValue: real): (r: Octaves)
    requires c.scale != 0.0
    ensures r.maxValue == maxValue + amplitude
    ensures amplitude >= 0.0 ==> value - amplitude <= r.value <= value + amplitude
    ensures amplitude > 0.0 && c.persistence > 0.0 ==> r.amplitude > 0.0
  {
    var noise := SmoothNoise2D(m, x * frequency / c.scale, y * frequency / c.scale, c.seed);
    OctaveBounds(noise, amplitude, c.persistence);
    Octaves(value + noise * amplitude, amplitude * c.persistence, frequency * c.lacunarity, maxValue + amplitude)
  }

  /** A noise in [-1, 1] weighted by a non-negative amplitude stays within the amplitude. */
  lemma OctaveBounds(noise: real, amplitude: real, persistence: real)
    requires -1.0 <= noise <= 1.0
    ensures amplitude >= 0.0 ==> -amplitude <= noise * amplitude <= amplitude
    ensures amplitude > 0.0 && persistence > 0.0 ==> amplitude * persistence > 0.0
  {
    if amplitude >= 0.0 {
      Js.ScaledWithin(noise, amplitude);
    }
    if amplitude > 0.0 && persistence > 0.0 {
      Js.ScaleSign(amplitude, persistence);
    }
  }

  /** The loop variables after the first `n` octaves. */
  function Accumulate(m: Js.MathLib, x: real, y: real, c: TerrainConfig, n: nat): Octaves
    requires c.scale != 0.0
  {
    if n == 0 then NoOctaves
    else
      var o := Accumulate(m, x, y, c, n - 1);
      AddOctave(m, x, y, c, o.value, o.amplitude, o.frequency, o.maxValue)
  }

  /**
   * With a positive persistence every amplitude is positive, the total is at
   * least 1 after the first octave, and the value never exceeds the total in
   * magnitude, as each octave's noise lies in [-1, 1).
   */
  lemma {:induction false} AccumulateWithin(m: Js.MathLib, x: real, y: real, c: TerrainConfig, n: nat)
    requires c.scale != 0.0 && c.persistence > 0.0
    ensures var o := Accumulate(m, x, y, c, n);
      && o.amplitude > 0.0
      && -o.maxValue <= o.value <= o.maxValue
      && (n >= 1 ==> o.maxValue >= 1.0)
  {
    if n > 0 {
      AccumulateWithin(m, x, y, c, n - 1);
    }
  }

  /**
   * `fractalNoise` as a value: the accumulated value divided by the total
   * amplitude. With no octaves it is 0 / 0, NaN; for a generable
   * configuration it is an average of values in [-1, 1), so it lies in [-1, 1].
   */
  function FractalValue(m: Js.MathLib, x: real, y: real, c: TerrainConfig): (q: Js.Quotient)
    requires c.scale != 0.0
    ensures c.octaves == 0 ==> q.NaN?
    ensures Generable(c) ==> q.Finite? && -1.0 <= q.value <= 1.0
  {
    var o := Accumulate(m, x, y, c, c.octaves);
    if Generable(c) then
      AccumulateWithin(m, x, y, c, c.octaves);
      Js.RatioWithin(o.value, o.maxValue);
      Js.Divide(o.value, o.maxValue)
    else Js.Divide(o.value, o.maxValue)
  }

  /** `fractalNoise`: the octave loop over value, amplitude, frequency and their total. */
  method FractalNoise(m: Js.MathLib, x: real, y: real, c: TerrainConfig) returns (q: Js.Quotient)
    requires c.scale != 0.0
    ensures q == FractalValue(m, x, y, c)
  {
    var value := 0.0;
    var amplitude := 1.0;
    var frequency := 1.0;
    var maxValue := 0.0;
    var i := 0;
    while i < c.octaves
      invariant 0 <= i <= c.octaves
      invariant Octaves(value, amplitude, frequency, maxValue) == Accumulate(m, x, y, c, i)
    {
      value, amplitude, frequency, maxValue := OctaveStep(m, x, y, c, value, amplitude, frequency, maxValue);
      i := i + 1;
    }
    q := Js.Divide(value, maxValue);
  }

  /** The body of the octave loop of `fractalNoise`. */
  method OctaveStep(m: Js.MathLib, x: real, y: real, c: TerrainConfig,
                    value: real, amplitude: real, frequency: real, maxValue: real)
    returns (value': real, amplitude': real, frequency': real, maxValue': real)
    requires c.scale != 0.0
    ensures Octaves(value', amplitude', frequency', maxValue') == AddOctave(m, x, y, c, value, amplitude, frequency, maxValue)
  {
    value' := value + SmoothNoise2D(m, x * frequency / c.scale, y * frequency / c.scale, c.seed) * amplitude;
    maxValue' := maxValue + amplitude;
    amplitude' := amplitude * c.persistence;
    frequency' := frequency * c.lacunarity;
  }

  // ------------------------------------------------------ terrain features

  /** The ridge term: the magnitude of a coarse noise, scaled to [0, 0.3]. */
  function Ridges(m: Js.MathLib, x: real, y: real, c: TerrainConfig): (r: real)
    requires c.scale != 0.0
    ensures 0.0 <= r <= 0.3
  {
    var noise := SmoothNoise2D(m, x / (c.scale * 0.3), y / (c.scale * 0.3), c.seed + 1000.0);
    Js.Max(noise, -noise) * 0.3
  }

  /** The river term: the magnitude of a broad noise, negated and scaled to [-0.2, 0]. */
  function Rivers(m: Js.MathLib, x: real, y: real, c: TerrainConfig): (r: real)
    requires c.scale != 0.0
    ensures -0.2 <= r <= 0.0
  {
    var noise := SmoothNoise2D(m, x / (c.scale * 2.0), y / (c.scale * 2.0), c.seed + 2000.0);
    -Js.Max(noise, -noise) * 0.2
  }

  /**
   * The radial factor `1 - d^1.5`, with `d` the distance from the map centre
   * over the half-diagonal. A half-diagonal of 0 is read as distance 0.
   */
  function ValleyFactor(m: Js.MathLib, x: real, y: real, width: nat, height: nat): real {
    var centerX := width as real / 2.0;
    var centerY := height as real / 2.0;
    var maxDistance := m.Sqrt(centerX * centerX + centerY * centerY);
    var distance := m.Sqrt(m.Pow(x - centerX, 2.0) + m.Pow(y - centerY, 2.0));
    var normalized := if maxDistance != 0.0 then distance / maxDistance else 0.0;
    1.0 - m.Pow(normalized, 1.5)
  }

  /**
   * `applyTerrainFeatures`: the base height shaped by the valley factor, plus
   * ridges and rivers, clamped into [-1, 1]; inside the bounds the clamp
   * leaves the sum alone.
   */
  function ApplyTerrainFeatures(m: Js.MathLib, x: real, y: real, width: nat, height: nat, base: real, c: TerrainConfig)
    : (r: real)
    requires c.scale != 0.0
    ensures -1.0 <= r <= 1.0
    ensures var sum := base * ValleyFactor(m, x, y, width, height) + Ridges(m, x, y, c) + Rivers(m, x, y, c);
      (-1.0 <= sum <= 1.0 ==> r == sum) && (sum > 1.0 ==> r == 1.0) && (sum < -1.0 ==> r == -1.0)
  {
    var finalHeight := base * ValleyFactor(m, x, y, width, height) + Ridges(m, x, y, c) + Rivers(m, x, y, c);
    Js.Max(-1.0, Js.Min(1.0, finalHeight))
  }

  // ------------------------------------------------------------ heightmap

  /** The generated map. `data` holds `width * height` heights in row-major order. */
  datatype HeightmapData = HeightmapData(width: nat, height: nat, data: seq<real>, minHeight: real, maxHeight: real)

  /** Row-major addressing: cell (x, y) of a row of `w` sits at `y * w + x`. */
  lemma RowMajor(x: nat, y: nat, w: nat)
    requires x < w
    ensures (y * w + x) / w == y && (y * w + x) % w == x
  {
    var i := y * w + x;
    var q, r := i / w, i % w;
    assert i == q * w + r;
    if q > y {
      Js.MultiplyMonotone(1, q - y, w);
      assert false;
    } else if q < y {
      Js.MultiplyMonotone(1, y - q, w);
      assert false;
    }
  }

  /** Where row `y` of a grid with rows of `w` cells starts: `y` rows of `w`. */
  function RowStart(y: nat, w: nat): nat {
    if y == 0 then 0 else RowStart(y - 1, w) + w
  }

  /** Row `y` starts at `y * w`; the rows before the last of `h` end within the grid. */
  lemma {:induction false} RowStartIsProduct(y: nat, w: nat)
    ensures RowStart(y, w) == y * w
  {
    if y > 0 {
      RowStartIsProduct(y - 1, w);
      assert (y - 1) * w + w == y * w;
    }
  }

  /** Rows start in order. */
  lemma {:induction false} RowStartMonotone(y: nat, z: nat, w: nat)
    requires y <= z
    ensures RowStart(y, w) <= RowStart(z, w)
  {
    if y < z {
      RowStartMonotone(y, z - 1, w);
    }
  }

  /** The raw (unnormalised) height of cell (x, y): the featured fractal noise there. */
  function Cell(m: Js.MathLib, c: TerrainConfig, x: nat, y: nat): (r: real)
    requires Generable(c)
    ensures -1.0 <= r <= 1.0
  {
    ApplyTerrainFeatures(m, x as real, y as real, c.width, c.height, FractalValue(m, x as real, y as real, c).value, c)
  }

  /** Marks the cells at which a proof consults `Generates`. */
  ghost predicate Visited(x: nat, y: nat) { true }

  /**
   * `cell` gives the raw height of every cell; the fact is only unfolded at
   * cells a proof has visited, which keeps the noise arithmetic out of the
   * proofs about the buffer.
   */
  ghost predicate Generates(m: Js.MathLib, c: TerrainConfig, cell: (nat, nat) --> real)
    requires Generable(c)
  {
    forall x: nat, y: nat {:trigger Visited(x, y)} :: Visited(x, y) ==> cell.requires(x, y) && cell(x, y) == Cell(m, c, x, y)
  }

  /** The raw height of every cell, as a function of its column and row. */
  ghost function CellOf(m: Js.MathLib, c: TerrainConfig): (cell: (nat, nat) --> real)
    requires Generable(c)
    ensures Total(cell) && Generates(m, c, cell)
  {
    var lifted := (x: nat, y: nat) requires Generable(c) => Cell(m, c, x, y);
    assert Total(lifted) && Generates(m, c, lifted);
    var cell :| Total(cell) && Generates(m, c, cell);
    cell
  }

  /** A grid function every cell of which is defined. */
  ghost predicate Total(cell: (nat, nat) --> real) {
    forall x: nat, y: nat :: cell.requires(x, y)
  }

  /** The values of the first `x` cells of row `y`. */
  ghost function Row(cell: (nat, nat) --> real, y: nat, x: nat): (s: seq<real>)
    requires Total(cell)
    ensures |s| == x
  {
    if x == 0 then [] else Row(cell, y, x - 1) + [cell(x - 1, y)]
  }

  /** The values of the first `y` rows of `w` cells, row after row. */
  ghost function Rows(cell: (nat, nat) --> real, w: nat, y: nat): (s: seq<real>)
    requires Total(cell)
    ensures |s| == RowStart(y, w)
  {
    if y == 0 then [] else Rows(cell, w, y - 1) + Row(cell, y - 1, w)
  }

  /** One more cell of a row, and one more row of the grid. */
  lemma GridStep(cell: (nat, nat) --> real, w: nat, y: nat, x: nat)
    requires Total(cell)
    ensures Row(cell, y, x + 1) == Row(cell, y, x) + [cell(x, y)]
    ensures Rows(cell, w, y + 1) == Rows(cell, w, y) + Row(cell, y, w)
    ensures RowStart(y + 1, w) == RowStart(y, w) + w
  {
  }

  /** Cell `x` of a row prefix holds the value of column `x`. */
  lemma {:induction false} RowCell(cell: (nat, nat) --> real, y: nat, n: nat, x: nat)
    requires Total(cell) && x < n
    ensures Row(cell, y, n)[x] == cell(x, y)
  {
    if x < n - 1 {
      RowCell(cell, y, n - 1, x);
    }
  }

  /** Cell `x` of row `y` sits at `RowStart(y) + x` of the first `n` rows. */
  lemma {:induction false} RowsCell(cell: (nat, nat) --> real, w: nat, n: nat, x: nat, y: nat)
    requires Total(cell) && x < w && y < n
    ensures RowStart(y, w) + x < |Rows(cell, w, n)|
    ensures Rows(cell, w, n)[RowStart(y, w) + x] == cell(x, y)
  {
    if y < n - 1 {
      RowsCell(cell, w, n - 1, x, y);
      RowStartMonotone(y + 1, n - 1, w);
    } else {
      RowCell(cell, y, w, x);
    }
  }

  /** The raw heights of every cell, in row-major order. */
  ghost function RawHeights(m: Js.MathLib, c: TerrainConfig): (s: seq<real>)
    requires Generable(c)
    ensures |s| == c.width * c.height
  {
    RowStartIsProduct(c.height, c.width);
    Rows(CellOf(m, c), c.width, c.height)
  }

  /** Grid point (x, y) of the raw heights, at `y * width + x`, holds the raw height of that cell. */
  lemma RawHeightsCells(m: Js.MathLib, c: TerrainConfig, x: nat, y: nat)
    requires Generable(c) && x < c.width && y < c.height
    ensures 0 <= y * c.width + x < |RawHeights(m, c)|
    ensures RawHeights(m, c)[y * c.width + x] == Cell(m, c, x, y)
  {
    RowsCell(CellOf(m, c), c.width, c.height, x, y);
    RowStartIsProduct(y, c.width);
    assert Visited(x, y);
  }

  /** The running minimum of the heights seen, `None` before the first (the loop's `Infinity`). */
  function MinOf(s: seq<real>): (r: Option<real>)
    ensures r.Some? <==> s != []
  {
    if s == [] then None
    else
      var last := s[|s| - 1];
      var rest := MinOf(s[..|s| - 1]);
      Some(if rest.None? then last else Js.Min(rest.value, last))
  }

  /** The running maximum of the heights seen, `None` before the first (the loop's `-Infinity`). */
  function MaxOf(s: seq<real>): (r: Option<real>)
    ensures r.Some? <==> s != []
  {
    if s == [] then None
    else
      var last := s[|s| - 1];
      var rest := MaxOf(s[..|s| - 1]);
      Some(if rest.None? then last else Js.Max(rest.value, last))
  }

  /** The running minimum and maximum are heights of the sequence and bound all of them. */
  lemma {:induction false} BoundsOf(s: seq<real>)
    requires s != []
    ensures MinOf(s).value in s && forall i :: 0 <= i < |s| ==> MinOf(s).value <= s[i]
    ensures MaxOf(s).value in s && forall i :: 0 <= i < |s| ==> s[i] <= MaxOf(s).value
  {
    var init := s[..|s| - 1];
    assert s == init + [s[|s| - 1]];
    if init != [] {
      BoundsOf(init);
    }
  }

  /** There is a spread of heights to normalise. */
  predicate Spread(s: seq<real>) {
    s != [] && MaxOf(s).value - MinOf(s).value > 0.0
  }

  /** Each height rescaled by `(v - min) / (max - min)`; a map without spread is left as it is. */
  function Normalized(s: seq<real>): (n: seq<real>)
    ensures |n| == |s|
    ensures !Spread(s) ==> n == s
  {
    if Spread(s) then Rescaled(s, MinOf(s).value, MaxOf(s).value - MinOf(s).value) else s
  }

  /** Every height `v` replaced by `(v - lo) / range`. */
  function Rescaled(s: seq<real>, lo: real, range: real): (n: seq<real>)
    requires range > 0.0
    ensures |n| == |s| && forall i :: 0 <= i < |s| ==> n[i] == (s[i] - lo) / range
  {
    seq(|s|, i requires 0 <= i < |s| => (s[i] - lo) / range)
  }

  /** `(a - lo) / r` is monotone in `a` for a positive `r`, and in [0, 1] for `a` in [lo, lo + r]. */
  lemma RescaleFacts(a: real, b: real, lo: real, r: real)
    requires r > 0.0
    ensures a <= b <==> (a - lo) / r <= (b - lo) / r
    ensures lo <= a <= lo + r ==> 0.0 <= (a - lo) / r <= 1.0
  {
    var qa, qb := (a - lo) / r, (b - lo) / r;
    assert qa * r == a - lo && qb * r == b - lo;
    Js.ScaleSign(qb - qa, r);
    assert (qb - qa) * r == b - a;
    if lo <= a <= lo + r {
      Js.ScaleSign(qa, r);
      Js.ScaleSign(1.0 - qa, r);
      assert (1.0 - qa) * r == lo + r - a;
    }
  }

  /**
   * Normalisation of a map with spread puts every height in [0, 1], sends the
   * lowest cell to 0 and the highest to 1, and keeps the order of heights.
   */
  lemma NormalizedRange(s: seq<real>)
    requires Spread(s)
    ensures var n := Normalized(s);
      && (forall i :: 0 <= i < |n| ==> 0.0 <= n[i] <= 1.0)
      && (exists i :: 0 <= i < |n| && n[i] == 0.0)
      && (exists i :: 0 <= i < |n| && n[i] == 1.0)
      && (forall i, j :: 0 <= i < |n| && 0 <= j < |n| ==> (s[i] <= s[j] <==> n[i] <= n[j]))
  {
    var n := Normalized(s);
    BoundsOf(s);
    var lo, hi := MinOf(s).value, MaxOf(s).value;
    forall i | 0 <= i < |n|
      ensures 0.0 <= n[i] <= 1.0
    {
      RescaleFacts(s[i], s[i], lo, hi - lo);
    }
    Js.DivideSelf(hi - lo);
    var a :| 0 <= a < |s| && s[a] == lo;
    assert n[a] == 0.0;
    var b :| 0 <= b < |s| && s[b] == hi;
    assert n[b] == 1.0;
    forall i, j | 0 <= i < |n| && 0 <= j < |n|
      ensures s[i] <= s[j] <==> n[i] <= n[j]
    {
      RescaleFacts(s[i], s[j], lo, hi - lo);
    }
  }

  /** The running bounds after one more height. */
  lemma BoundsStep(s: seq<real>, v: real)
    ensures MinOf(s + [v]) == Some(if MinOf(s).None? then v else Js.Min(MinOf(s).value, v))
    ensures MaxOf(s + [v]) == Some(if MaxOf(s).None? then v else Js.Max(MaxOf(s).value, v))
  {
    assert (s + [v])[..|s|] == s;
  }

  /**
   * `generateHeightmap`: fills the buffer row by row with the featured
   * fractal noise of each cell while tracking the lowest and highest value,
   * then rescales the buffer to [0, 1] when the heights spread. The result
   * always reports 0 and 1 as its bounds.
   */
  method GenerateHeightmap(m: Js.MathLib, c: TerrainConfig) returns (hm: HeightmapData)
    requires Generable(c)
    ensures hm.width == c.width && hm.height == c.height
    ensures hm.minHeight == 0.0 && hm.maxHeight == 1.0
    ensures hm.data == Normalized(RawHeights(m, c))
  {
    var data := new real[c.width * c.height];
    RowStartIsProduct(c.height, c.width);
    var lo, hi := FillRows(m, c, data, CellOf(m, c));
    Normalize(data, lo, hi, data[..]);
    hm := HeightmapData(c.width, c.height, data[..], 0.0, 1.0);
  }

  /**
   * The first `y` rows of the grid are in the buffer, and `lo` and `hi` are
   * the running minimum and maximum of their heights.
   */
  ghost predicate Filled(d: seq<real>, cell: (nat, nat) --> real, w: nat, y: nat, lo: Option<real>, hi: Option<real>)
    requires Total(cell)
  {
    && RowStart(y, w) <= |d|
    && d[..RowStart(y, w)] == Rows(cell, w, y)
    && lo == MinOf(Rows(cell, w, y)) && hi == MaxOf(Rows(cell, w, y))
  }

  /** A buffer filled to its end holds exactly the grid. */
  lemma FilledAll(d: seq<real>, cell: (nat, nat) --> real, w: nat, h: nat, lo: Option<real>, hi: Option<real>)
    requires Total(cell) && |d| == RowStart(h, w) && Filled(d, cell, w, h, lo, hi)
    ensures d == Rows(cell, w, h)
    ensures lo == MinOf(Rows(cell, w, h)) && hi == MaxOf(Rows(cell, w, h))
  {
    assert d == d[..RowStart(h, w)];
  }

  /** The two loops of `generateHeightmap` that fill the buffer and track its bounds. */
  method FillRows(m: Js.MathLib, c: TerrainConfig, data: array<real>, ghost cell: (nat, nat) --> real)
    returns (lo: Option<real>, hi: Option<real>)
    requires Generable(c) && Total(cell) && Generates(m, c, cell)
    requires data.Length == RowStart(c.height, c.width)
    modifies data
    ensures data[..] == Rows(cell, c.width, c.height)
    ensures lo == MinOf(Rows(cell, c.width, c.height)) && hi == MaxOf(Rows(cell, c.width, c.height))
  {
    lo, hi := None, None;
    var y := 0;
    while y < c.height
      invariant y <= c.height
      invariant Filled(data[..], cell, c.width, y, lo, hi)
    {
      RowStartMonotone(y + 1, c.height, c.width);
      lo, hi := NextRow(m, c, data, y, lo, hi, cell);
      y := y + 1;
    }
    FilledAll(data[..], cell, c.width, c.height, lo, hi);
  }

  /** One pass of the outer loop of `generateHeightmap`: the buffer holds one more row. */
  method NextRow(m: Js.MathLib, c: TerrainConfig, data: array<real>, y: nat,
                 lo: Option<real>, hi: Option<real>, ghost cell: (nat, nat) --> real)
    returns (lo': Option<real>, hi': Option<real>)
    requires Generable(c) && Total(cell) && Generates(m, c, cell)
    requires RowStart(y + 1, c.width) <= data.Length && Filled(data[..], cell, c.width, y, lo, hi)
    modifies data
    ensures Filled(data[..], cell, c.width, y + 1, lo', hi')
  {
    ghost var written := Rows(cell, c.width, y);
    FilledPrefix(data[..], cell, c.width, y, lo, hi);
    lo', hi' := FillRow(m, c, data, y, lo, hi, cell, written);
    FilledRow(data[..], cell, c.width, y, lo', hi');
  }

  /**
   * One pass of the inner loop of `generateHeightmap`: writes row `y` after
   * the heights already written and folds its heights into the running bounds.
   */
  method FillRow(m: Js.MathLib, c: TerrainConfig, data: array<real>, y: nat,
                 lo: Option<real>, hi: Option<real>, ghost cell: (nat, nat) --> real, ghost written: seq<real>)
    returns (lo': Option<real>, hi': Option<real>)
    requires Generable(c) && Total(cell) && Generates(m, c, cell)
    requires |written| == RowStart(y, c.width) && |written| + c.width <= data.Length
    requires data[..|written|] == written && lo == MinOf(written) && hi == MaxOf(written)
    modifies data
    ensures data[..|written| + c.width] == written + Row(cell, y, c.width)
    ensures lo' == MinOf(written + Row(cell, y, c.width)) && hi' == MaxOf(written + Row(cell, y, c.width))
  {
    assert written + Row(cell, y, 0) == written;
    lo', hi' := lo, hi;
    var x := 0;
    while x < c.width
      invariant 0 <= x <= c.width
      invariant data[..|written| + x] == written + Row(cell, y, x)
      invariant lo' == MinOf(written + Row(cell, y, x)) && hi' == MaxOf(written + Row(cell, y, x))
    {
      lo', hi' := FillCell(m, c, data, x, y, lo', hi', cell, written);
      x := x + 1;
    }
  }

  /** The first `y` rows are in a buffer that has room for row `y`. */
  lemma FilledPrefix(d: seq<real>, cell: (nat, nat) --> real, w: nat, y: nat, lo: Option<real>, hi: Option<real>)
    requires Total(cell) && RowStart(y + 1, w) <= |d| && Filled(d, cell, w, y, lo, hi)
    ensures RowStart(y, w) + w <= |d|
  {
  }

  /** A buffer holding the rows before `y` and then row `y` holds the first `y + 1` rows. */
  lemma FilledRow(d: seq<real>, cell: (nat, nat) --> real, w: nat, y: nat, lo: Option<real>, hi: Option<real>)
    requires Total(cell) && RowStart(y, w) + w <= |d|
    requires d[..RowStart(y, w) + w] == Rows(cell, w, y) + Row(cell, y, w)
    requires lo == MinOf(Rows(cell, w, y) + Row(cell, y, w)) && hi == MaxOf(Rows(cell, w, y) + Row(cell, y, w))
    ensures Filled(d, cell, w, y + 1, lo, hi)
  {
  }

  /**
   * The body of the inner loop of `generateHeightmap`: stores the height of
   * cell (x, y) after the cells before it and folds it into the running bounds.
   */
  method FillCell(m: Js.MathLib, c: TerrainConfig, data: array<real>, x: nat, y: nat,
                  lo: Option<real>, hi: Option<real>, ghost cell: (nat, nat) --> real, ghost written: seq<real>)
    returns (lo': Option<real>, hi': Option<real>)
    requires Generable(c) && Total(cell) && Generates(m, c, cell)
    requires x < c.width && |written| == RowStart(y, c.width) && |written| + c.width <= data.Length
    requires data[..|written| + x] == written + Row(cell, y, x)
    requires lo == MinOf(written + Row(cell, y, x)) && hi == MaxOf(written + Row(cell, y, x))
    modifies data
    ensures data[..|written| + x + 1] == written + Row(cell, y, x + 1)
    ensures lo' == MinOf(written + Row(cell, y, x + 1)) && hi' == MaxOf(written + Row(cell, y, x + 1))
  {
    RowStartIsProduct(y, c.width);
    var index := y * c.width + x;
    var v := HeightAt(m, c, x, y, cell);
    GridStep(cell, c.width, y, x);
    AppendOne(written, Row(cell, y, x), v);
    BoundsStep(written + Row(cell, y, x), v);
    ghost var before := data[..];
    data[index] := v;
    PrefixStore(before, data[..], index, v);
    lo' := Some(if lo.None? then v else Js.Min(lo.value, v));
    hi' := Some(if hi.None? then v else Js.Max(hi.value, v));
  }

  lemma AppendOne(a: seq<real>, b: seq<real>, v: real)
    ensures a + (b + [v]) == (a + b) + [v]
  {
  }

  /** Storing `v` at `k` extends the prefix before `k` by `v`. */
  lemma PrefixStore(before: seq<real>, after: seq<real>, k: nat, v: real)
    requires k < |before| && after == before[k := v]
    ensures after[..k + 1] == before[..k] + [v]
  {
    assert after[..k] == before[..k];
  }

  /** The body of the inner loop of `generateHeightmap`: the height of cell (x, y) before normalisation. */
  method HeightAt(m: Js.MathLib, c: TerrainConfig, x: nat, y: nat, ghost cell: (nat, nat) --> real) returns (v: real)
    requires Generable(c) && Total(cell) && Generates(m, c, cell)
    ensures v == cell(x, y)
  {
    assert Visited(x, y);
    var base := FractalNoise(m, x as real, y as real, c);
    v := ApplyTerrainFeatures(m, x as real, y as real, c.width, c.height, base.value, c);
  }

  /** The normalisation pass of `generateHeightmap`, in place over the buffer. */
  method Normalize(data: array<real>, lo: Option<real>, hi: Option<real>, ghost raw: seq<real>)
    requires data[..] == raw && lo == MinOf(raw) && hi == MaxOf(raw)
    modifies data
    ensures data[..] == Normalized(raw)
  {
    if lo.Some? && hi.value - lo.value > 0.0 {
      var range := hi.value - lo.value;
      ghost var n := Rescaled(raw, lo.value, range);
      var i := 0;
      while i < data.Length
        invariant 0 <= i <= data.Length
        invariant forall j :: 0 <= j < i ==> data[j] == n[j]
        invariant forall j :: i <= j < data.Length ==> data[j] == raw[j]
      {
        data[i] := (data[i] - lo.value) / range;
        i := i + 1;
      }
      assert data[..] == n;
    }
  }

  // --------------------------------------------------------------- biomes

  const DefaultBiomeSeed: real := 12345.0

  /** The temperature noise of cell (x, y), in [0, 1). */
  function Temperature(m: Js.MathLib, x: real, y: real, seed: real): (t: real)
    ensures 0.0 <= t < 1.0
  {
    SmoothNoise2D(m, x / 100.0, y / 100.0, seed + 3000.0) * 0.5 + 0.5
  }

  /** The moisture noise of cell (x, y), in [0, 1). */
  function Moisture(m: Js.MathLib, x: real, y: real, seed: real): (t: real)
    ensures 0.0 <= t < 1.0
  {
    SmoothNoise2D(m, x / 80.0, y / 80.0, seed + 4000.0) * 0.5 + 0.5
  }

  /** The biome decision of `generateBiomes`: low land is water, high land mountain, then climate decides. */
  function Classify(altitude: real, temperature: real, moisture: real): (b: Biomes.BiomeType)
    ensures b == Biomes.Water <==> altitude < 0.2
    ensures b == Biomes.Mountain <==> 0.2 <= altitude && altitude > 0.7
    ensures b == Biomes.Forest <==> 0.2 <= altitude <= 0.7 && temperature < 0.3 && moisture > 0.6
    ensures b == Biomes.Desert <==> 0.2 <= altitude <= 0.7 && temperature > 0.7 && moisture < 0.3
    ensures b == Biomes.Grass <==> 0.2 <= altitude <= 0.7 && !(temperature < 0.3 && moisture > 0.6)
                                    && !(temperature > 0.7 && moisture < 0.3)
  {
    if altitude < 0.2 then Biomes.Water
    else if altitude > 0.7 then Biomes.Mountain
    else if temperature < 0.3 && moisture > 0.6 then Biomes.Forest
    else if temperature > 0.7 && moisture < 0.3 then Biomes.Desert
    else Biomes.Grass
  }

  /** The biome code of cell `i` of the heightmap. */
  function BiomeAt(m: Js.MathLib, hm: HeightmapData, seed: real, i: nat): (b: int)
    requires i < |hm.data| && |hm.data| == hm.width * hm.height
    ensures 0 <= b <= 4
  {
    assert hm.width > 0;
    var x, y := (i % hm.width) as real, (i / hm.width) as real;
    Biomes.Code(Classify(hm.data[i], Temperature(m, x, y, seed), Moisture(m, x, y, seed)))
  }

  /** Marks the cells at which a proof consults `ListsBiomes`. */
  ghost predicate VisitedCell(i: nat) { true }

  /**
   * `codes` holds the biome code of every cell of the heightmap; as with
   * `Generates`, the fact is only unfolded at cells a proof has visited.
   */
  ghost predicate ListsBiomes(m: Js.MathLib, hm: HeightmapData, seed: real, codes: seq<int>)
    requires |hm.data| == hm.width * hm.height
  {
    && |codes| == |hm.data|
    && forall i: nat {:trigger VisitedCell(i)} :: VisitedCell(i) && i < |codes| ==> codes[i] == BiomeAt(m, hm, seed, i)
  }

  /** The biome codes of all cells, in row-major order. */
  ghost function BiomeCodes(m: Js.MathLib, hm: HeightmapData, seed: real): (codes: seq<int>)
    requires |hm.data| == hm.width * hm.height
    ensures ListsBiomes(m, hm, seed, codes)
  {
    var listed := seq(|hm.data|, i requires 0 <= i < |hm.data| => BiomeAt(m, hm, seed, i));
    assert ListsBiomes(m, hm, seed, listed);
    var codes :| ListsBiomes(m, hm, seed, codes);
    codes
  }

  /** A list of biome codes has the code of each cell at that cell's index. */
  lemma ListedBiomes(m: Js.MathLib, hm: HeightmapData, seed: real, codes: seq<int>)
    requires |hm.data| == hm.width * hm.height && ListsBiomes(m, hm, seed, codes)
    ensures forall i :: 0 <= i < |codes| ==> codes[i] == BiomeAt(m, hm, seed, i)
  {
    forall i | 0 <= i < |codes| ensures codes[i] == BiomeAt(m, hm, seed, i) {
      assert VisitedCell(i);
    }
  }

  /** `generateBiomes`: one biome code per heightmap cell. */
  method GenerateBiomes(m: Js.MathLib, hm: HeightmapData, seed: real) returns (biomes: array<int>)
    requires |hm.data| == hm.width * hm.height
    ensures fresh(biomes) && biomes.Length == |hm.data|
    ensures forall i :: 0 <= i < biomes.Length ==> biomes[i] == BiomeAt(m, hm, seed, i)
  {
    ghost var codes := BiomeCodes(m, hm, seed);
    biomes := new int[hm.width * hm.height];
    var i := 0;
    while i < |hm.data|
      invariant 0 <= i <= |hm.data|
      invariant biomes[..i] == codes[..i]
    {
      biomes[i] := BiomeCell(m, hm, seed, i, codes);
      assert biomes[..i + 1] == biomes[..i] + [biomes[i]];
      i := i + 1;
    }
    assert biomes[..] == codes;
    ListedBiomes(m, hm, seed, codes);
  }

  /** The body of the `generateBiomes` loop: the biome code of cell `i`. */
  method BiomeCell(m: Js.MathLib, hm: HeightmapData, seed: real, i: nat, ghost codes: seq<int>) returns (code: int)
    requires i < |hm.data| == hm.width * hm.height && ListsBiomes(m, hm, seed, codes)
    ensures code == codes[i]
  {
    assert VisitedCell(i);
    var x, y := i % hm.width, i / hm.width;
    var altitude := hm.data[i];
    var temperature := Temperature(m, x as real, y as real, seed);
    var moisture := Moisture(m, x as real, y as real, seed);
    code := Biomes.Code(Classify(altitude, temperature, moisture));
  }

  /**
   * A generated map whose heights spread has water at its lowest cell and
   * mountain at its highest, whatever the climate noise.
   */
  lemma GeneratedHasWaterAndMountain(m: Js.MathLib, c: TerrainConfig, hm: HeightmapData, seed: real)
    requires Generable(c) && hm.width == c.width && hm.height == c.height
    requires hm.data == Normalized(RawHeights(m, c)) && Spread(RawHeights(m, c))
    ensures |hm.data| == hm.width * hm.height
    ensures exists i :: 0 <= i < |hm.data| && BiomeAt(m, hm, seed, i) == Biomes.Code(Biomes.Water)
    ensures exists i :: 0 <= i < |hm.data| && BiomeAt(m, hm, seed, i) == Biomes.Code(Biomes.Mountain)
  {
    NormalizedRange(RawHeights(m, c));
    var a :| 0 <= a < |hm.data| && hm.data[a] == 0.0;
    assert BiomeAt(m, hm, seed, a) == Biomes.Code(Biomes.Water);
    var b :| 0 <= b < |hm.data| && hm.data[b] == 1.0;
    assert BiomeAt(m, hm, seed, b) == Biomes.Code(Biomes.Mountain);
  }

  // ------------------------------------------------------------- sampling

  /** The buffer index `sampleHeight` reads: the clamped position, floored, in row-major order. */
  function SampleIndex(hm: HeightmapData, x: real, y: real): int {
    var cx := Js.Max(0.0, Js.Min(hm.width as real - 1.0, x));
    var cy := Js.Max(0.0, Js.Min(hm.height as real - 1.0, y));
    cy.Floor * hm.width + cx.Floor
  }

  /** `sampleHeight`: the height under the clamped position, 0 where the buffer has no such cell. */
  function SampleHeight(hm: HeightmapData, x: real, y: real): (r: real)
    ensures var i := SampleIndex(hm, x, y); 0 <= i < |hm.data| ==> r == hm.data[i]
    ensures var i := SampleIndex(hm, x, y); !(0 <= i < |hm.data|) ==> r == 0.0
  {
    var index := SampleIndex(hm, x, y);
    if 0 <= index < |hm.data| then hm.data[index] else 0.0
  }

  /**
   * On a non-empty, full buffer every position, inside the map or not,
   * samples a cell of the buffer, and a grid point inside the map samples
   * its own cell.
   */
  lemma SampleIndexInGrid(hm: HeightmapData, x: real, y: real)
    requires hm.width >= 1 && hm.height >= 1 && |hm.data| == hm.width * hm.height
    ensures 0 <= SampleIndex(hm, x, y) < |hm.data|
    ensures SampleHeight(hm, x, y) == hm.data[SampleIndex(hm, x, y)]
  {
    var cx := Js.Max(0.0, Js.Min(hm.width as real - 1.0, x));
    var cy := Js.Max(0.0, Js.Min(hm.height as real - 1.0, y));
    assert 0 <= cx.Floor < hm.width && 0 <= cy.Floor < hm.height;
    Biomes.CellIndexInGrid(cx.Floor, cy.Floor, hm.width, hm.height);
    Js.MultiplyMonotone(cy.Floor, hm.height - 1, hm.width);
    assert (hm.height - 1) * hm.width + hm.width == hm.width * hm.height;
  }

  /** A grid point of the map samples exactly its own cell. */
  lemma SampleGridPoint(hm: HeightmapData, gx: nat, gy: nat)
    requires gx < hm.width && gy < hm.height && |hm.data| == hm.width * hm.height
    ensures SampleIndex(hm, gx as real, gy as real) == gy * hm.width + gx < |hm.data|
    ensures SampleHeight(hm, gx as real, gy as real) == hm.data[gy * hm.width + gx]
  {
    SampleIndexInGrid(hm, gx as real, gy as real);
  }
}
