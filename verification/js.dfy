/**
 * The pieces of the JavaScript runtime that the simulation relies on, stated
 * over mathematical reals and integers: Math.sin/cos/sqrt/pow (supplied as an
 * oracle, since Dafny has no transcendental functions), division that may hit
 * zero, Array.prototype.slice, Number.prototype.toString for integers,
 * String.prototype.padStart and an ASCII toLowerCase.
 */
module Js {

  /** Math.PI as a decimal. */
  const Pi: real := 3.141592653589793

  /** The transcendental functions of `Math`, left uninterpreted. */
  datatype MathLib = MathLib(
    sin: real -> real,
    cos: real -> real,
    sqrt: real -> real,
    pow: (real, real) -> real)
  {
    function Sqrt(x: real): real { sqrt(x) }
    function Sin(x: real): real { sin(x) }
    function Cos(x: real): real { cos(x) }
    function Pow(x: real, y: real): real { pow(x, y) }
  }

  /** `s` is the non-negative square root of `x`. */
  ghost predicate IsRoot(s: real, x: real) {
    s >= 0.0 && s * s == x
  }

  /**
   * Marks the points at which a proof consults `ExactSqrt`; it keeps the
   * solver from instantiating the square-root fact at every `Sqrt` term.
   */
  ghost predicate Consulted(m: MathLib, x: real) { true }

  /** The oracle's square root is the true square root on non-negative inputs. */
  ghost predicate ExactSqrt(m: MathLib) {
    forall x: real {:trigger Consulted(m, x)} :: Consulted(m, x) && x >= 0.0 ==> IsRoot(m.Sqrt(x), x)
  }

  /** The oracle's sine and cosine lie in [-1, 1]. */
  ghost predicate BoundedTrig(m: MathLib) {
    forall x: real {:trigger Consulted(m, x)} :: Consulted(m, x) ==>
      -1.0 <= m.Sin(x) <= 1.0 && -1.0 <= m.Cos(x) <= 1.0
  }

  /** Scaling a factor in [-1, 1] by a non-negative length stays within that length. */
  lemma ScaledWithin(u: real, d: real)
    requires -1.0 <= u <= 1.0 && d >= 0.0
    ensures -d <= u * d <= d
  {
    ProductNonNegative(1.0 - u, d);
    ProductNonNegative(1.0 + u, d);
  }

  /** A coordinate of a vector is bounded by the vector's length. */
  lemma CoordinateWithinNorm(a: real, b: real, s: real)
    requires s >= 0.0 && s * s == a * a + b * b
    ensures -s <= a <= s
  {
    SquareNonNegative(b);
    if a > s {
      SquareMonotone(s, a);
    } else if a < -s {
      SquareMonotone(s, -a);
    }
  }

  /** Dividing by a length at least as large as the magnitude gives a factor in [-1, 1]. */
  lemma RatioWithin(a: real, s: real)
    requires s > 0.0 && -s <= a <= s
    ensures -1.0 <= a / s <= 1.0
  {
    var u := a / s;
    assert (1.0 - u) * s == s - a;
    assert (1.0 + u) * s == s + a;
  }

  /** Comparing a true square root with a non-negative bound is comparing squares. */
  lemma SqrtAtMost(m: MathLib, d2: real, bound: real)
    requires ExactSqrt(m) && d2 >= 0.0 && bound >= 0.0
    ensures m.Sqrt(d2) <= bound <==> d2 <= bound * bound
    ensures m.Sqrt(d2) < bound <==> d2 < bound * bound
  {
    var s := m.Sqrt(d2);
    assert Consulted(m, d2);
    assert IsRoot(s, d2);
    SquareMonotone(s, bound);
    SquareMonotone(bound, s);
  }

  /** Scaling by a positive factor keeps the sign. */
  lemma ScaleSign(a: real, m: real)
    requires m > 0.0
    ensures a > 0.0 <==> a * m > 0.0
    ensures a < 0.0 <==> a * m < 0.0
  {
    if a > 0.0 {
      assert a * m > 0.0;
    } else if a < 0.0 {
      assert (-a) * m > 0.0;
    }
  }

  /** A positive number divided by itself is 1, and 0 divided by it is 0. */
  lemma DivideSelf(r: real)
    requires r > 0.0
    ensures r / r == 1.0 && 0.0 / r == 0.0
  {
    var q, z := r / r, 0.0 / r;
    assert q * r == r && z * r == 0.0;
    ScaleSign(q - 1.0, r);
    assert (q - 1.0) * r == q * r - r;
    ScaleSign(z, r);
  }

  lemma ProductNonNegative(a: real, b: real)
    requires a >= 0.0 && b >= 0.0
    ensures a * b >= 0.0
  {
  }

  lemma SquareNonNegative(a: real)
    ensures a * a >= 0.0
  {
    if a < 0.0 {
      assert a * a == (-a) * (-a);
      ProductNonNegative(-a, -a);
    } else {
      ProductNonNegative(a, a);
    }
  }

  lemma SquareMonotone(a: real, b: real)
    requires a >= 0.0 && b >= 0.0
    ensures a <= b ==> a * a <= b * b
    ensures a < b ==> a * a < b * b
  {
    if a < b {
      assert (b - a) * a >= 0.0;
      assert (b - a) * b > 0.0;
      assert b * b - a * a == (b - a) * a + (b - a) * b;
    }
  }

  /** `Math.min` of two numbers. */
  function Min(a: real, b: real): (r: real)
    ensures r <= a && r <= b && (r == a || r == b)
  {
    if a <= b then a else b
  }

  /** `Math.max` of two numbers. */
  function Max(a: real, b: real): (r: real)
    ensures r >= a && r >= b && (r == a || r == b)
  {
    if a >= b then a else b
  }

  /** `Math.min` of two integers. */
  function MinInt(a: int, b: int): (r: int)
    ensures r <= a && r <= b && (r == a || r == b)
  {
    if a <= b then a else b
  }

  /** `Math.max` of two integers. */
  function MaxInt(a: int, b: int): (r: int)
    ensures r >= a && r >= b && (r == a || r == b)
  {
    if a >= b then a else b
  }

  lemma MultiplyMonotone(a: int, b: int, c: int)
    requires a <= b && c >= 0
    ensures a * c <= b * c
  {
    assert b * c - a * c == (b - a) * c;
  }

  /**
   * `Math.floor`: the one integer `n` with `n <= x < n + 1`. Stated by that
   * property rather than by `x.Floor`, which keeps integer rounding out of
   * proofs that only carry floors along.
   */
  function Floor(x: real): (n: int)
    ensures n as real <= x < n as real + 1.0
  {
    assert x.Floor as real <= x < x.Floor as real + 1.0;
    var n :| n as real <= x < n as real + 1.0;
    n
  }

  /** The fractional part `x - Math.floor(x)`, always in [0, 1). */
  function Frac(x: real): (r: real)
    ensures 0.0 <= r < 1.0
  {
    x - Floor(x) as real
  }

  /** The result of a JavaScript division `a / b` on finite operands. */
  datatype Quotient = Finite(value: real) | PosInfinity | NegInfinity | NaN

  function Divide(a: real, b: real): (q: Quotient)
    ensures b != 0.0 <==> q.Finite?
    ensures b != 0.0 ==> q.value * b == a
    ensures q.NaN? <==> a == 0.0 && b == 0.0
  {
    if b != 0.0 then Finite(a / b)
    else if a > 0.0 then PosInfinity
    else if a < 0.0 then NegInfinity
    else NaN
  }

  /** `q > t` in JavaScript (every comparison with NaN is false). */
  predicate Exceeds(q: Quotient, t: real) {
    match q
    case Finite(v) => v > t
    case PosInfinity => true
    case NegInfinity => false
    case NaN => false
  }

  /** `q < t` in JavaScript. */
  predicate Below(q: Quotient, t: real) {
    match q
    case Finite(v) => v < t
    case PosInfinity => false
    case NegInfinity => true
    case NaN => false
  }

  /** Index normalisation of Array.prototype.slice: negative counts from the end. */
  function SliceIndex(i: int, len: nat): (r: nat)
    ensures r <= len
    ensures 0 <= i <= len ==> r == i
    ensures i > len ==> r == len
  {
    if i < 0 then (if len + i < 0 then 0 else len + i)
    else if i > len then len
    else i
  }

  /** `s.slice(begin, end)`. */
  function Slice<T>(s: seq<T>, begin: int, end: int): (r: seq<T>)
    ensures |r| <= |s|
    ensures 0 <= begin <= end ==>
      r == s[SliceIndex(begin, |s|)..SliceIndex(end, |s|)]
    ensures 0 <= begin <= |s| && begin <= end ==>
      |r| == (if end <= |s| then end else |s|) - begin
  {
    var b := SliceIndex(begin, |s|);
    var e := SliceIndex(end, |s|);
    if b < e then s[b..e] else []
  }

  function DigitChar(d: nat): (c: char)
    requires d < 10
    ensures '0' <= c <= '9'
  {
    "0123456789"[d]
  }

  predicate IsDigit(c: char) { '0' <= c <= '9' }

  /** `n.toString()` for a non-negative integer. */
  function NatToString(n: nat): (s: string)
    ensures 1 <= |s|
    ensures forall i :: 0 <= i < |s| ==> IsDigit(s[i])
    ensures n < 10 <==> |s| == 1
    ensures n < 10 ==> s == [DigitChar(n)]
  {
    if n < 10 then [DigitChar(n)] else NatToString(n / 10) + [DigitChar(n % 10)]
  }

  /** Distinct digits are distinct characters. */
  lemma DigitCharInjective(d: nat, e: nat)
    requires d < 10 && e < 10
    ensures DigitChar(d) == DigitChar(e) ==> d == e
  {
  }

  /** Distinct numbers print differently, so `entity-${n}`-style ids never collide. */
  lemma {:induction false} NatToStringInjective(a: nat, b: nat)
    ensures NatToString(a) == NatToString(b) ==> a == b
    decreases a
  {
    if NatToString(a) == NatToString(b) && a >= 10 {
      var s := NatToString(a);
      assert s[..|s| - 1] == NatToString(a / 10) && s[|s| - 1] == DigitChar(a % 10);
      assert s[..|s| - 1] == NatToString(b / 10) && s[|s| - 1] == DigitChar(b % 10);
      NatToStringInjective(a / 10, b / 10);
      DigitCharInjective(a % 10, b % 10);
    } else if NatToString(a) == NatToString(b) {
      DigitCharInjective(a, b);
    }
  }

  /** `Math.floor(draw * n)` for a draw of `Math.random()` in [0, 1): an index in [0, n). */
  function Scaled(draw: real, n: nat): (r: int)
    requires 0.0 <= draw < 1.0
    ensures n > 0 ==> 0 <= r < n
    ensures n == 0 ==> r == 0
  {
    ProductNonNegative(draw, n as real);
    ProductNonNegative(1.0 - draw, n as real);
    if n == 0 then 0 else
      assert draw * n as real < n as real by {
        assert (1.0 - draw) * n as real > 0.0;
      }
      Floor(draw * n as real)
  }

  /** `n.toString()` for an integer. */
  function IntToString(n: int): (s: string)
    ensures 1 <= |s|
    ensures n >= 0 ==> s == NatToString(n)
    ensures n < 0 ==> s[0] == '-' && s[1..] == NatToString(-n)
  {
    if n < 0 then "-" + NatToString(-n) else NatToString(n)
  }

  /** `s.padStart(2, '0')`. */
  function PadStart2(s: string): (r: string)
    ensures |s| >= 2 ==> r == s
    ensures |s| < 2 ==> |r| == 2 && r[2 - |s|..] == s
    ensures forall i :: 0 <= i < 2 - |s| ==> r[i] == '0'
    decreases 2 - |s|
  {
    if |s| >= 2 then s else PadStart2(['0'] + s)
  }

  function LowerChar(c: char): (d: char)
    ensures 'A' <= c <= 'Z' ==> d as int == c as int + 32
    ensures !('A' <= c <= 'Z') ==> d == c
  {
    if 'A' <= c <= 'Z' then (c as int + 32) as char else c
  }

  /** `s.toLowerCase()` on ASCII letters. */
  function ToLower(s: string): (r: string)
    ensures |r| == |s|
    ensures forall i :: 0 <= i < |s| ==> r[i] == LowerChar(s[i])
  {
    if s == [] then [] else [LowerChar(s[0])] + ToLower(s[1..])
  }
}
