/**
 * The type guards and small numeric helpers of `src/utils/guards.ts`:
 * coordinate/position/entity validation over JavaScript values, `clamp`,
 * the clamped `lerp`, the inclusive bounding-box test, the version-4 UUID
 * template and bounds-checked array access.
 */
module Guards {
  import opened Wrappers
  import Js

  // ------------------------------------------------------------ JS values

  /** A JavaScript number: a finite real, an infinity or NaN. */
  datatype Number = Finite(value: real) | PosInfinity | NegInfinity | NaN

  /**
   * The JavaScript values the guards inspect. Arrays are objects with
   * index keys; functions and symbols are not distinguished from `Other`.
   */
  datatype Value =
    | Undefined
    | Null
    | Boolean(b: bool)
    | Num(n: Number)
    | Text(s: string)
    | Object(fields: map<string, Value>)
    | Other

  /** `isValidCoordinate`: `typeof value === 'number' && isFinite(value)`. */
  predicate IsValidCoordinate(v: Value) {
    v.Num? && v.n.Finite?
  }

  /**
   * `isValidPosition`: a non-null object with `x` and `y` keys whose values
   * are valid coordinates (`typeof null` is `'object'`, hence the null test).
   */
  predicate IsValidPosition(v: Value) {
    && v.Object?
    && "x" in v.fields && "y" in v.fields
    && IsValidCoordinate(v.fields["x"]) && IsValidCoordinate(v.fields["y"])
  }

  /** `isValidEntity`: a string `id`, a valid `position` and a string `species`. */
  predicate IsValidEntity(v: Value) {
    && v.Object?
    && "id" in v.fields && "position" in v.fields && "species" in v.fields
    && v.fields["id"].Text?
    && IsValidPosition(v.fields["position"])
    && v.fields["species"].Text?
  }

  /** The object literal `{ x, y }` of two finite numbers. */
  function PositionValue(x: real, y: real): Value {
    Object(map["x" := Num(Finite(x)), "y" := Num(Finite(y))])
  }

  /**
   * A position is valid exactly when it is an object holding finite `x` and
   * `y`; extra keys do not matter, and `null`, numbers and strings never pass.
   */
  lemma ValidPositions(v: Value, x: real, y: real, extra: string, junk: Value)
    ensures IsValidPosition(PositionValue(x, y))
    ensures extra != "x" && extra != "y" ==> IsValidPosition(Object(PositionValue(x, y).fields[extra := junk]))
    ensures !IsValidPosition(Null) && !IsValidPosition(Undefined)
    ensures v.Num? || v.Text? || v.Boolean? ==> !IsValidPosition(v)
    ensures IsValidPosition(v) ==> exists a: real, b: real :: v.fields["x"] == Num(Finite(a)) && v.fields["y"] == Num(Finite(b))
  {
    if IsValidPosition(v) {
      var a, b := v.fields["x"].n.value, v.fields["y"].n.value;
      assert v.fields["x"] == Num(Finite(a)) && v.fields["y"] == Num(Finite(b));
    }
  }

  /** An entity object is valid only if its position would pass on its own. */
  lemma ValidEntityHasValidPosition(v: Value)
    requires IsValidEntity(v)
    ensures IsValidPosition(v.fields["position"])
    ensures !IsValidCoordinate(v.fields["id"]) && !IsValidCoordinate(v.fields["species"])
  {
  }

  // -------------------------------------------------------------- numbers

  /** `clamp(value, min, max)`: `Math.min(Math.max(value, min), max)`. */
  function Clamp(value: real, min: real, max: real): (r: real)
    ensures min <= max ==> min <= r <= max
    ensures min <= value <= max ==> r == value
    ensures value < min && min <= max ==> r == min
    ensures value > max ==> r == max
    ensures min > max ==> r == max
  {
    Js.Min(Js.Max(value, min), max)
  }

  /** Clamping twice to the same range changes nothing more. */
  lemma ClampIdempotent(value: real, min: real, max: real)
    requires min <= max
    ensures Clamp(Clamp(value, min, max), min, max) == Clamp(value, min, max)
  {
  }

  /** `lerp(a, b, t)`: `a + (b - a) * clamp(t, 0, 1)`. */
  function Lerp(a: real, b: real, t: real): (r: real)
    ensures t <= 0.0 ==> r == a
    ensures t >= 1.0 ==> r == b
  {
    a + (b - a) * Clamp(t, 0.0, 1.0)
  }

  /** Whatever `t` is, the interpolated value lies between `a` and `b`. */
  lemma LerpBetween(a: real, b: real, t: real)
    ensures Js.Min(a, b) <= Lerp(a, b, t) <= Js.Max(a, b)
  {
    var s := Clamp(t, 0.0, 1.0);
    Js.ProductNonNegative(if a <= b then b - a else a - b, s);
    Js.ProductNonNegative(if a <= b then b - a else a - b, 1.0 - s);
    assert (b - a) * s + (b - a) * (1.0 - s) == b - a;
  }

  /** A point and a bounding box `{ minX, minY, maxX, maxY }`. */
  datatype Point = Point(x: real, y: real)
  datatype Bounds = Bounds(minX: real, minY: real, maxX: real, maxY: real)

  /** `isInBounds`: inclusive on all four edges. */
  predicate IsInBounds(p: Point, b: Bounds) {
    p.x >= b.minX && p.x <= b.maxX && p.y >= b.minY && p.y <= b.maxY
  }

  /**
   * The partner of `IsInBounds`: clamping each coordinate into a non-empty
   * box lands in it, a point already in the box is left where it is, and
   * the four corners are in the box.
   */
  lemma ClampIntoBounds(p: Point, b: Bounds)
    requires b.minX <= b.maxX && b.minY <= b.maxY
    ensures IsInBounds(Point(Clamp(p.x, b.minX, b.maxX), Clamp(p.y, b.minY, b.maxY)), b)
    ensures IsInBounds(p, b) <==> Point(Clamp(p.x, b.minX, b.maxX), Clamp(p.y, b.minY, b.maxY)) == p
    ensures IsInBounds(Point(b.minX, b.minY), b) && IsInBounds(Point(b.maxX, b.maxY), b)
  {
  }

  // ----------------------------------------------------------------- UUID

  /** The template that `generateUUID` fills in. */
  const UuidTemplate: string := "xxxxxxxx-xxxx-4xxx-yxxx-xxxxxxxxxxxx"

  /** `v.toString(16)` for a nibble: one lower-case hexadecimal digit. */
  function HexDigit(v: int): (c: char)
    requires 0 <= v < 16
    ensures IsLowerHex(c)
  {
    "0123456789abcdef"[v]
  }

  predicate IsLowerHex(c: char) {
    '0' <= c <= '9' || 'a' <= c <= 'f'
  }

  /** The characters the `/[xy]/g` pattern matches. */
  predicate IsSlot(c: char) {
    c == 'x' || c == 'y'
  }

  /**
   * The replacement callback for one slot, given the nibble
   * `(Math.random() * 16) | 0`: the nibble itself for 'x', and
   * `(r & 0x3) | 0x8` for 'y'.
   */
  function SlotDigit(c: char, r: int): (d: char)
    requires IsSlot(c) && 0 <= r < 16
    ensures c == 'x' ==> IsLowerHex(d)
    ensures c == 'y' ==> d == '8' || d == '9' || d == 'a' || d == 'b'
  {
    var v: bv8 := if c == 'x' then r as bv8 else (r as bv8 & 0x3) | 0x8;
    assert c == 'y' ==> 8 <= v as int < 12;
    HexDigit(v as int)
  }

  /**
   * `t.replace(/[xy]/g, ...)`: each slot is replaced by the digit the
   * callback makes of the nibble drawn for that position; every other
   * character stays.
   */
  function Replace(t: string, nibbles: seq<int>): (r: string)
    requires |nibbles| == |t| && forall k :: 0 <= k < |nibbles| ==> 0 <= nibbles[k] < 16
    ensures |r| == |t|
    ensures forall i :: 0 <= i < |t| && !IsSlot(t[i]) ==> r[i] == t[i]
    ensures forall i :: 0 <= i < |t| && t[i] == 'x' ==> IsLowerHex(r[i])
    ensures forall i :: 0 <= i < |t| && t[i] == 'y' ==> r[i] in "89ab"
  {
    seq(|t|, i requires 0 <= i < |t| => if IsSlot(t[i]) then SlotDigit(t[i], nibbles[i]) else t[i])
  }

  /** `generateUUID()`, given the nibble drawn for each of the 36 places. */
  function GenerateUuid(nibbles: seq<int>): (r: string)
    requires |nibbles| == 36 && forall k :: 0 <= k < 36 ==> 0 <= nibbles[k] < 16
  {
    Replace(UuidTemplate, nibbles)
  }

  /**
   * Every generated identifier has the version-4 layout of section 4.4 of
   * RFC 4122: 36 characters, dashes at 8, 13, 18 and 23, the version digit
   * '4' at 14, a variant digit in {8, 9, a, b} at 19, and lower-case
   * hexadecimal everywhere else.
   */
  lemma UuidLayout(nibbles: seq<int>)
    requires |nibbles| == 36 && forall k :: 0 <= k < 36 ==> 0 <= nibbles[k] < 16
    ensures var r := GenerateUuid(nibbles);
      && |r| == 36
      && r[8] == '-' && r[13] == '-' && r[18] == '-' && r[23] == '-'
      && r[14] == '4'
      && r[19] in "89ab"
      && forall i :: 0 <= i < 36 && i !in {8, 13, 14, 18, 19, 23} ==> IsLowerHex(r[i])
  {
    var r := GenerateUuid(nibbles);
    forall i | 0 <= i < 36 && i !in {8, 13, 14, 18, 19, 23}
      ensures IsLowerHex(r[i])
    {
      assert UuidTemplate[i] == 'x';
    }
  }

  // ---------------------------------------------------------------- arrays

  /**
   * `safeArrayAccess(array, index)`: the element when `0 <= index < length`,
   * else `undefined`. A fractional index inside the range names no element
   * and also yields `undefined`.
   */
  function SafeArrayAccess<T>(a: seq<T>, index: real): (r: Option<T>)
    ensures r.Some? <==> 0.0 <= index < |a| as real && index == index.Floor as real
    ensures r.Some? ==> r.value == a[index.Floor]
  {
    if index >= 0.0 && index < |a| as real then
      (if index == index.Floor as real then Some(a[index.Floor]) else None)
    else None
  }

  /** For an integer index, access succeeds exactly inside the array and returns that element. */
  lemma SafeArrayAccessAtIndex<T>(a: seq<T>, i: int)
    ensures SafeArrayAccess(a, i as real).Some? <==> 0 <= i < |a|
    ensures 0 <= i < |a| ==> SafeArrayAccess(a, i as real) == Some(a[i])
  {
  }
}
