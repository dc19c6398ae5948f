/**
 * The Park–Miller "minimal standard" Lehmer generator of src/utils/rng.ts:
 * state <- state * 16807 mod (2^31 - 1), output (state - 1) / (2^31 - 2).
 * The state stays below 2^46 when multiplied, so the source's doubles are
 * exact and the state is an integer here.
 */
module Rng {
  import opened Wrappers

  const Modulus: int := 2147483647
  const Multiplier: int := 16807
  /** 16807 * Inverse == 1 + InverseCarry * Modulus: the multiplier is invertible mod 2^31 - 1. */
  const Inverse: int := 1407677000
  const InverseCarry: int := 11017

  /** JavaScript's `a % 2147483647`: the remainder takes the sign of the dividend. */
  function JsRem(a: int): (r: int)
    ensures -Modulus < r < Modulus
    ensures a >= 0 ==> r == a % Modulus
    ensures a <= 0 ==> r <= 0 && r == -((-a) % Modulus)
  {
    if a >= 0 then a % Modulus else -((-a) % Modulus)
  }

  /** The state that the constructor and `reset(s)` derive from a seed. */
  function Normalize(seed: int): (s: int)
    ensures 0 <= s < Modulus
  {
    var r := JsRem(seed);
    if r <= 0 then r + Modulus - 1 else r
  }

  /** A state from which the generator produces outputs in [0, 1). */
  predicate InRange(s: int) {
    1 <= s < Modulus
  }

  /** One step of the recurrence (the operands are non-negative, so `%` agrees with JavaScript). */
  function Step(s: int): (t: int)
    requires 0 <= s
    ensures 0 <= t < Modulus
  {
    s * Multiplier % Modulus
  }

  /** The value `next()` returns once the state has become `s`. */
  function Output(s: int): real {
    (s - 1) as real / (Modulus - 1) as real
  }

  /** Every seed except those with remainder -2147483646 normalises into range; those give the state 0. */
  lemma NormalizeRange(seed: int)
    ensures InRange(Normalize(seed)) <==> JsRem(seed) != -(Modulus - 1)
    ensures Normalize(seed) == 0 <==> JsRem(seed) == -(Modulus - 1)
    ensures seed >= 0 ==> InRange(Normalize(seed))
  {
  }

  /** A multiple of 2^31 - 1 stays one after dividing out 16807. */
  lemma MultiplierInvertible(s: int)
    ensures (s * Multiplier) % Modulus == 0 ==> s % Modulus == 0
  {
    var t := s * Multiplier;
    var q := t / Modulus;
    assert t == q * Modulus + t % Modulus;
    assert s == t * Inverse - s * InverseCarry * Modulus;
    if t % Modulus == 0 {
      var k := q * Inverse - s * InverseCarry;
      assert s == Modulus * k;
      MultipleHasNoRemainder(k);
    }
  }

  lemma MultipleHasNoRemainder(k: int)
    ensures (Modulus * k) % Modulus == 0
  {
    var a := Modulus * k;
    var d := a / Modulus;
    assert a == d * Modulus + a % Modulus;
    assert Modulus * (k - d) == a % Modulus;
  }

  /** Since the modulus is prime, a state in range never steps to 0. */
  lemma StepKeepsRange(s: int)
    requires InRange(s)
    ensures InRange(Step(s))
  {
    MultiplierInvertible(s);
    assert s % Modulus == s;
  }

  /** 0 is a fixed point of the recurrence. */
  lemma ZeroIsFixed()
    ensures Step(0) == 0 && Output(0) < 0.0
  {
  }

  lemma OutputInUnit(s: int)
    requires InRange(s)
    ensures 0.0 <= Output(s) < 1.0
  {
  }

  /** The states after 1, 2, ..., n calls of `next()` from state `s`. */
  function States(s: int, n: nat): (r: seq<int>)
    requires 0 <= s < Modulus
    ensures |r| == n
    decreases n
  {
    if n == 0 then [] else [Step(s)] + States(Step(s), n - 1)
  }

  /** The values returned by n successive calls of `next()` from state `s`. */
  function Outputs(s: int, n: nat): (r: seq<real>)
    requires 0 <= s < Modulus
    ensures |r| == n
    decreases n
  {
    if n == 0 then [] else [Output(Step(s))] + Outputs(Step(s), n - 1)
  }

  /** From a state in range, every state and every output along the stream is in range. */
  lemma {:induction false} StreamInRange(s: int, n: nat)
    requires InRange(s)
    ensures forall i :: 0 <= i < n ==> InRange(States(s, n)[i]) && 0.0 <= Outputs(s, n)[i] < 1.0
    decreases n
  {
    if n > 0 {
      var t := Step(s);
      StepKeepsRange(s);
      OutputInUnit(t);
      StreamInRange(t, n - 1);
      forall i | 0 <= i < n
        ensures InRange(States(s, n)[i]) && 0.0 <= Outputs(s, n)[i] < 1.0
      {
        if i > 0 {
          assert States(s, n)[i] == States(t, n - 1)[i - 1];
          assert Outputs(s, n)[i] == Outputs(t, n - 1)[i - 1];
        }
      }
    }
  }

  /** Two states that agree produce the same stream; seeds that normalise alike are interchangeable. */
  lemma {:induction false} StreamDeterminedByState(s: int, n: nat, k: nat)
    requires 0 <= s < Modulus && k < n
    ensures Outputs(s, n)[k] == Output(States(s, n)[k])
    decreases n
  {
    if k > 0 {
      StreamDeterminedByState(Step(s), n - 1, k - 1);
    }
  }

  /** Scaling by a unit-interval factor stays within [0, w]. */
  lemma ScaleUnit(x: real, w: real)
    requires 0.0 <= x < 1.0 && 0.0 <= w
    ensures 0.0 <= x * w <= w
    ensures 0.0 < w ==> x * w < w
  {
    assert w - x * w == (1.0 - x) * w;
  }

  /** A seeded generator; `seed` is the current state. */
  class SeededRng {
    var seed: int

    ghost predicate Valid()
      reads this
    {
      0 <= seed < Modulus
    }

    /** The state is one from which outputs lie in [0, 1). */
    predicate InRangeState()
      reads this
    {
      InRange(seed)
    }

    constructor(initialSeed: int)
      ensures Valid() && seed == Normalize(initialSeed)
      ensures initialSeed >= 0 ==> InRangeState()
    {
      var r := JsRem(initialSeed);
      if r <= 0 {
        r := r + 2147483646;
      }
      seed := r;
      NormalizeRange(initialSeed);
    }

    method Next() returns (r: real)
      requires Valid()
      modifies this
      ensures Valid() && seed == Step(old(seed)) && r == Output(seed)
      ensures old(seed) == 0 ==> seed == 0
      ensures old(InRange(seed)) ==> InRange(seed) && 0.0 <= r < 1.0
    {
      if InRange(seed) {
        StepKeepsRange(seed);
        OutputInUnit(Step(seed));
      }
      seed := (seed * 16807) % 2147483647;
      r := (seed - 1) as real / 2147483646.0;
    }

    /** `Math.floor(next() * (max - min)) + min`: an integer in [min, max). */
    method NextInt(min: int, max: int) returns (r: int)
      requires Valid()
      modifies this
      ensures Valid() && seed == Step(old(seed))
      ensures r == (Output(seed) * (max - min) as real).Floor + min
      ensures old(InRange(seed)) ==> InRange(seed)
      ensures old(InRange(seed)) && min < max ==> min <= r < max
    {
      var x := Next();
      if InRange(seed) && min < max {
        var w := (max - min) as real;
        ScaleUnit(x, w);
        var f := (x * w).Floor;
        assert f as real <= x * w < w;
      }
      r := (x * (max - min) as real).Floor + min;
    }

    /** `next() * (max - min) + min`. */
    method NextFloat(min: real, max: real) returns (r: real)
      requires Valid()
      modifies this
      ensures Valid() && seed == Step(old(seed))
      ensures r == Output(seed) * (max - min) + min
      ensures old(InRange(seed)) ==> InRange(seed)
      ensures old(InRange(seed)) && min <= max ==> min <= r <= max
      ensures old(InRange(seed)) && min < max ==> r < max
    {
      var x := Next();
      var w := max - min;
      if InRange(seed) && min <= max {
        ScaleUnit(x, w);
      }
      r := x * w + min;
    }

    /** `next() < probability`. */
    method NextBool(probability: real) returns (b: bool)
      requires Valid()
      modifies this
      ensures Valid() && seed == Step(old(seed))
      ensures b <==> Output(seed) < probability
      ensures old(InRange(seed)) ==> InRange(seed)
      ensures old(InRange(seed)) && probability <= 0.0 ==> !b
      ensures probability >= 1.0 ==> b
    {
      var x := Next();
      b := x < probability;
    }

    /** `array[nextInt(0, array.length)]`; `None` where JavaScript yields `undefined`. */
    method NextElement<T>(a: seq<T>) returns (r: Option<T>)
      requires Valid()
      modifies this
      ensures Valid() && seed == Step(old(seed))
      ensures old(InRange(seed)) ==> InRange(seed)
      ensures a == [] ==> r == None
      ensures old(InRange(seed)) && a != [] ==> r.Some? && r.value in a
      ensures r.Some? ==> exists k :: 0 <= k < |a| && r.value == a[k]
    {
      var k := NextInt(0, |a|);
      if 0 <= k < |a| {
        r := Some(a[k]);
      } else {
        r := None;
      }
    }

    /** `reset(newSeed?)`: re-seeds when a seed is given; otherwise only lifts a non-positive state. */
    method Reset(newSeed: Option<int>)
      requires Valid()
      modifies this
      ensures Valid()
      ensures newSeed.Some? ==> seed == Normalize(newSeed.value)
      ensures newSeed.None? && old(InRange(seed)) ==> seed == old(seed)
      ensures newSeed.None? && old(seed) == 0 ==> seed == Modulus - 1
    {
      if newSeed.Some? {
        seed := JsRem(newSeed.value);
      }
      if seed <= 0 {
        seed := seed + 2147483646;
      }
    }
  }

  /** The `rng` facade of the source: a replaceable current generator (`globalRNG`). */
  class RngFacade {
    var generator: SeededRng

    /** `globalRNG = new SeededRNG(Date.now())`, with the clock reading passed in. */
    constructor(now: int)
      ensures fresh(generator) && generator.Valid() && generator.seed == Normalize(now)
    {
      generator := new SeededRng(now);
    }

    /** `setSeed(seed)`: replaces the generator by a fresh one built from `seed`. */
    method SetSeed(seed: int)
      modifies this
      ensures fresh(generator) && generator.Valid() && generator.seed == Normalize(seed)
    {
      generator := new SeededRng(seed);
    }
  }
}
