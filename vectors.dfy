/**
 * The N-dimensional vector library (utils/vectors.ts).
 *
 * Coordinates are exact reals (no floating-point rounding). The non-mutating
 * operations (`add`, `sub`, `dot`, `scale`, `magnitude`, `isZero`, `normalize`,
 * `distanceTo`, `projectOnto`, `toVector2`) allocate a fresh vector and never
 * alter their operands, so they are functions on coordinate lists. The thrown
 * strings become `Err` values. `Math.sqrt` is a parameter `sqrt`, required to be
 * a square root on the non-negative reals (`IsSqrt`).
 */
module Vectors {

  datatype VectorError =
    | DimensionMismatch   // "Cannot add/sub/dot Vector ..."
    | EmptyReduce         // `reduce` without an initial value on an empty array (a TypeError)
    | TooManyCoords       // "Cannot transform to Vector 2X2 ..."
    | ZeroVector          // "Cannot normalize the zero vector."

  datatype Result<+T> = Ok(value: T) | Err(error: VectorError)

  /** `sqrt` behaves as `Math.sqrt` does on the non-negative reals. */
  ghost predicate IsSqrt(sqrt: real -> real) {
    forall x: real :: 0.0 <= x ==>
      && 0.0 <= sqrt(x)
      && sqrt(x) * sqrt(x) == x
      && (sqrt(x) == 0.0 <==> x == 0.0)
  }

  lemma ProductPositive(a: real, b: real, p: real)
    requires p == a * b
    requires (a > 0.0 && b > 0.0) || (a < 0.0 && b < 0.0)
    ensures p > 0.0
  {
  }

  lemma SquareNonNegative(x: real, q: real)
    requires q == x * x
    ensures q >= 0.0
  {
    if x != 0.0 {
      ProductPositive(x, x, q);
    }
  }

  /** A square plus a non-negative number is zero only when both parts are. */
  lemma SquareSumZero(x: real, q: real, y: real)
    requires q == x * x && q + y == 0.0 && y >= 0.0
    ensures x == 0.0 && q == 0.0 && y == 0.0
  {
    if x != 0.0 {
      ProductPositive(x, x, q);
      assert false;
    }
  }

  /** Real division is multiplication by the inverse. */
  lemma DivIsMulInverse(x: real, m: real)
    requires m != 0.0
    ensures x / m == x * (1.0 / m)
  {
  }

  lemma DivMulCancel(x: real, s: real)
    requires s != 0.0
    ensures x / s * s == x
  {
  }

  lemma MulDivCancel(x: real, s: real)
    requires s != 0.0
    ensures x * s / s == x
  {
  }

  ghost predicate AllZero(a: seq<real>) {
    forall i :: 0 <= i < |a| ==> a[i] == 0.0
  }

  /** The sum of the componentwise products; the value `reduce((a, c) => a + c)` yields when non-empty. */
  function DotSum(a: seq<real>, b: seq<real>): real
    requires |a| == |b|
  {
    if a == [] then 0.0 else a[0] * b[0] + DotSum(a[1..], b[1..])
  }

  /** The sum of the squared coordinates, `coords.map(c => Math.pow(c, 2)).reduce(+)`. */
  function SumSquares(a: seq<real>): real {
    DotSum(a, a)
  }

  function Add(a: seq<real>, b: seq<real>): (r: Result<seq<real>>)
    ensures r.Ok? <==> |a| == |b|
    ensures r.Err? ==> r.error == DimensionMismatch
    ensures r.Ok? ==> |r.value| == |a| && forall i :: 0 <= i < |a| ==> r.value[i] == a[i] + b[i]
  {
    if |a| != |b| then Err(DimensionMismatch)
    else Ok(seq(|a|, i requires 0 <= i < |a| => a[i] + b[i]))
  }

  function Sub(a: seq<real>, b: seq<real>): (r: Result<seq<real>>)
    ensures r.Ok? <==> |a| == |b|
    ensures r.Err? ==> r.error == DimensionMismatch
    ensures r.Ok? ==> |r.value| == |a| && forall i :: 0 <= i < |a| ==> r.value[i] == a[i] - b[i]
  {
    if |a| != |b| then Err(DimensionMismatch)
    else Ok(seq(|a|, i requires 0 <= i < |a| => a[i] - b[i]))
  }

  function Scale(a: seq<real>, s: real): (r: seq<real>)
    ensures |r| == |a|
    ensures forall i :: 0 <= i < |a| ==> r[i] == a[i] * s
  {
    seq(|a|, i requires 0 <= i < |a| => a[i] * s)
  }

  /** `coords.map(c => c / m)`. */
  function DivideBy(a: seq<real>, m: real): (r: seq<real>)
    requires m != 0.0
    ensures |r| == |a|
  {
    seq(|a|, i requires 0 <= i < |a| => a[i] / m)
  }

  lemma DivideByIsScale(a: seq<real>, m: real)
    requires m != 0.0
    ensures DivideBy(a, m) == Scale(a, 1.0 / m)
  {
    forall i | 0 <= i < |a| ensures DivideBy(a, m)[i] == Scale(a, 1.0 / m)[i] {
      DivIsMulInverse(a[i], m);
    }
  }

  function Dot(a: seq<real>, b: seq<real>): (r: Result<real>)
    ensures r.Ok? <==> |a| == |b| && |a| > 0
    ensures r.Err? ==> r.error == if |a| != |b| then DimensionMismatch else EmptyReduce
    ensures r.Ok? ==> r.value == DotSum(a, b)
  {
    if |a| != |b| then Err(DimensionMismatch)
    else if |a| == 0 then Err(EmptyReduce)
    else Ok(DotSum(a, b))
  }

  function Magnitude(sqrt: real -> real, a: seq<real>): (r: Result<real>)
    requires IsSqrt(sqrt)
    ensures r.Ok? <==> |a| > 0
    ensures r.Err? ==> r.error == EmptyReduce
    ensures r.Ok? ==> 0.0 <= r.value && r.value * r.value == SumSquares(a)
  {
    if |a| == 0 then Err(EmptyReduce)
    else
      SumSquaresNonNegative(a);
      Ok(sqrt(SumSquares(a)))
  }

  function IsZero(sqrt: real -> real, a: seq<real>): (r: Result<bool>)
    requires IsSqrt(sqrt)
    ensures r.Ok? <==> |a| > 0
    ensures r.Err? ==> r.error == EmptyReduce
    ensures r.Ok? ==> (r.value <==> AllZero(a))
  {
    match Magnitude(sqrt, a)
    case Err(e) => Err(e)
    case Ok(m) =>
      SumSquaresNonNegative(a);
      SumSquaresZeroIff(a);
      Ok(m == 0.0)
  }

  function Normalize(sqrt: real -> real, a: seq<real>): (r: Result<seq<real>>)
    requires IsSqrt(sqrt)
    ensures r.Err? <==> |a| == 0 || AllZero(a)
    ensures r.Err? ==> r.error == if |a| == 0 then EmptyReduce else ZeroVector
    ensures r.Ok? ==> |r.value| == |a| && Magnitude(sqrt, a).value != 0.0
    ensures r.Ok? ==> r.value == Scale(a, 1.0 / Magnitude(sqrt, a).value)
  {
    match IsZero(sqrt, a)
    case Err(e) => Err(e)
    case Ok(zero) =>
      if zero then Err(ZeroVector)
      else
        var m := Magnitude(sqrt, a).value;
        SumSquaresZeroIff(a);
        assert m != 0.0;
        DivideByIsScale(a, m);
        Ok(DivideBy(a, m))
  }

  function DistanceTo(sqrt: real -> real, a: seq<real>, b: seq<real>): (r: Result<real>)
    requires IsSqrt(sqrt)
    ensures r.Ok? <==> |a| == |b| && |a| > 0
    ensures r.Err? ==> r.error == if |a| != |b| then DimensionMismatch else EmptyReduce
    ensures r.Ok? ==> 0.0 <= r.value && r.value * r.value == SumSquares(Sub(a, b).value)
  {
    match Sub(a, b)
    case Err(e) => Err(e)
    case Ok(d) => Magnitude(sqrt, d)
  }

  /**
   * `this.projectOnto(b)`: the projection of `a` (this) onto `b`, that is
   * `b.scale(b.dot(this) / Math.pow(b.magnitude(), 2))`. When `b` is a non-empty
   * zero vector of matching length the source divides by zero and yields NaN
   * coordinates; that case is excluded.
   */
  function ProjectOnto(sqrt: real -> real, a: seq<real>, b: seq<real>): (r: Result<seq<real>>)
    requires IsSqrt(sqrt)
    requires |a| == |b| && |b| > 0 ==> !AllZero(b)
    ensures r.Ok? <==> |a| == |b| && |a| > 0
    ensures r.Err? ==> r.error == if |a| != |b| then DimensionMismatch else EmptyReduce
    ensures r.Ok? ==> SumSquares(b) != 0.0 && r.value == Scale(b, DotSum(a, b) / SumSquares(b))
  {
    match Dot(b, a)
    case Err(e) => Err(e)
    case Ok(d) =>
      var m := Magnitude(sqrt, b).value;
      DotSumCommutes(b, a);
      SumSquaresZeroIff(b);
      assert m * m == SumSquares(b);
      assert d == DotSum(a, b);
      assert d / (m * m) == DotSum(a, b) / SumSquares(b);
      Ok(Scale(b, d / (m * m)))
  }

  /** `new Vector2(...coords)`: at most two coordinates, missing ones default to 0. */
  function ToVector2Coords(a: seq<real>): (r: Result<seq<real>>)
    ensures r.Ok? <==> |a| <= 2
    ensures r.Err? ==> r.error == TooManyCoords
    ensures r.Ok? ==> |r.value| == 2 && r.value[..|a|] == a
    ensures r.Ok? ==> forall i :: |a| <= i < 2 ==> r.value[i] == 0.0
  {
    if |a| > 2 then Err(TooManyCoords)
    else Ok([if |a| > 0 then a[0] else 0.0, if |a| > 1 then a[1] else 0.0])
  }

  // ---------------------------------------------------------------------------
  // Properties of the sums

  lemma {:induction false} SumSquaresNonNegative(a: seq<real>)
    ensures 0.0 <= SumSquares(a)
  {
    if a != [] {
      SumSquaresNonNegative(a[1..]);
      SquareNonNegative(a[0], a[0] * a[0]);
    }
  }

  lemma {:induction false} SumSquaresZeroIff(a: seq<real>)
    ensures SumSquares(a) == 0.0 <==> AllZero(a)
  {
    if a != [] {
      SumSquaresZeroIff(a[1..]);
      SumSquaresNonNegative(a[1..]);
      SquareNonNegative(a[0], a[0] * a[0]);
      if AllZero(a) {
        assert AllZero(a[1..]) by {
          forall i | 0 <= i < |a[1..]| ensures a[1..][i] == 0.0 {
            assert a[1..][i] == a[i + 1];
          }
        }
      }
      if SumSquares(a) == 0.0 {
        SquareSumZero(a[0], a[0] * a[0], SumSquares(a[1..]));
        forall i | 0 <= i < |a| ensures a[i] == 0.0 {
          if i > 0 {
            assert a[i] == a[1..][i - 1];
          }
        }
      }
    }
  }

  lemma {:induction false} DotSumCommutes(a: seq<real>, b: seq<real>)
    requires |a| == |b|
    ensures DotSum(a, b) == DotSum(b, a)
  {
    if a != [] {
      DotSumCommutes(a[1..], b[1..]);
    }
  }

  lemma {:induction false} DotSumScaleLeft(a: seq<real>, b: seq<real>, k: real)
    requires |a| == |b|
    ensures DotSum(Scale(a, k), b) == k * DotSum(a, b)
  {
    if a != [] {
      assert Scale(a, k)[1..] == Scale(a[1..], k) by {
        forall i | 0 <= i < |a| - 1 ensures Scale(a, k)[1..][i] == Scale(a[1..], k)[i] {
          assert Scale(a, k)[1..][i] == a[i + 1] * k;
        }
      }
      DotSumScaleLeft(a[1..], b[1..], k);
    }
  }

  lemma {:induction false} DotSumSubLeft(a: seq<real>, c: seq<real>, b: seq<real>)
    requires |a| == |c| == |b|
    ensures DotSum(Sub(a, c).value, b) == DotSum(a, b) - DotSum(c, b)
  {
    if a != [] {
      assert Sub(a, c).value[1..] == Sub(a[1..], c[1..]).value;
      DotSumSubLeft(a[1..], c[1..], b[1..]);
    }
  }

  lemma {:induction false} SumSquaresOfNegation(a: seq<real>, b: seq<real>)
    requires |a| == |b|
    requires forall i :: 0 <= i < |a| ==> b[i] == -a[i]
    ensures SumSquares(a) == SumSquares(b)
  {
    if a != [] {
      SumSquaresOfNegation(a[1..], b[1..]);
    }
  }

  lemma SumSquaresScale(a: seq<real>, k: real)
    ensures SumSquares(Scale(a, k)) == k * k * SumSquares(a)
  {
    DotSumScaleLeft(a, Scale(a, k), k);
    DotSumCommutes(a, Scale(a, k));
    DotSumScaleLeft(a, a, k);
  }

  // ---------------------------------------------------------------------------
  // Properties of the operations

  /** `sub` undoes `add`. */
  lemma AddThenSub(a: seq<real>, b: seq<real>)
    requires |a| == |b|
    ensures Sub(Add(a, b).value, b) == Ok(a)
  {
    assert Sub(Add(a, b).value, b).value == a;
  }

  /** `dot` is symmetric, including its failures. */
  lemma DotCommutes(a: seq<real>, b: seq<real>)
    ensures Dot(a, b) == Dot(b, a)
  {
    if |a| == |b| && |a| > 0 {
      DotSumCommutes(a, b);
    }
  }

  /** `scale` never fails and composes multiplicatively. */
  lemma ScaleTwice(a: seq<real>, s: real, t: real)
    ensures Scale(Scale(a, s), t) == Scale(a, s * t)
  {
    forall i | 0 <= i < |a| ensures Scale(Scale(a, s), t)[i] == Scale(a, s * t)[i] {
      assert a[i] * s * t == a[i] * (s * t);
    }
  }

  /** A normalised vector has length one. */
  lemma NormalizeIsUnit(sqrt: real -> real, a: seq<real>)
    requires IsSqrt(sqrt)
    requires Normalize(sqrt, a).Ok?
    ensures SumSquares(Normalize(sqrt, a).value) == 1.0
  {
    var m := Magnitude(sqrt, a).value;
    var k := 1.0 / m;
    SumSquaresScale(a, k);
    assert k * k * (m * m) == (k * m) * (k * m);
    assert k * m == 1.0;
  }

  lemma DistanceToSelf(sqrt: real -> real, a: seq<real>)
    requires IsSqrt(sqrt)
    ensures DistanceTo(sqrt, a, a) == if |a| == 0 then Err(EmptyReduce) else Ok(0.0)
  {
    if |a| > 0 {
      var d := Sub(a, a).value;
      assert AllZero(d);
      SumSquaresZeroIff(d);
    }
  }

  lemma DistanceSymmetric(sqrt: real -> real, a: seq<real>, b: seq<real>)
    requires IsSqrt(sqrt)
    ensures DistanceTo(sqrt, a, b) == DistanceTo(sqrt, b, a)
  {
    if |a| == |b| && |a| > 0 {
      SumSquaresOfNegation(Sub(a, b).value, Sub(b, a).value);
    }
  }

  lemma ScaledResidueOrthogonal(a: seq<real>, b: seq<real>)
    requires |a| == |b| && SumSquares(b) != 0.0
    ensures DotSum(Sub(a, Scale(b, DotSum(a, b) / SumSquares(b))).value, b) == 0.0
  {
    var s := SumSquares(b);
    var d := DotSum(a, b);
    var k := d / s;
    DotSumSubLeft(a, Scale(b, k), b);
    DotSumScaleLeft(b, b, k);
    DivMulCancel(d, s);
    assert DotSum(Scale(b, k), b) == d;
  }

  /** What is left of `a` after removing its projection onto `b` is orthogonal to `b`. */
  lemma ProjectionResidueOrthogonal(sqrt: real -> real, a: seq<real>, b: seq<real>)
    requires IsSqrt(sqrt)
    requires |a| == |b| && |b| > 0 && !AllZero(b)
    ensures DotSum(Sub(a, ProjectOnto(sqrt, a, b).value).value, b) == 0.0
  {
    SumSquaresZeroIff(b);
    ScaledResidueOrthogonal(a, b);
  }

  /** Projecting the projection again changes nothing. */
  lemma ProjectionIdempotent(sqrt: real -> real, a: seq<real>, b: seq<real>)
    requires IsSqrt(sqrt)
    requires |a| == |b| && |b| > 0 && !AllZero(b)
    ensures ProjectOnto(sqrt, ProjectOnto(sqrt, a, b).value, b) == ProjectOnto(sqrt, a, b)
  {
    var s := SumSquares(b);
    var p := ProjectOnto(sqrt, a, b).value;
    var k := DotSum(a, b) / s;
    DotSumScaleLeft(b, b, k);
    DivMulCancel(DotSum(a, b), s);
    assert DotSum(p, b) == k * s;
    MulDivCancel(k, s);
  }

  // ---------------------------------------------------------------------------
  // The classes

  class Vector {
    var coords: seq<real>

    constructor (coords: seq<real>)
      ensures this.coords == coords
    {
      this.coords := coords;
    }

    static method Clone(v: Vector) returns (r: Vector)
      ensures fresh(r) && r.coords == v.coords
    {
      r := new Vector(v.coords);
    }

    method Copy() returns (r: Vector)
      ensures fresh(r) && r.coords == coords
    {
      r := new Vector(coords);
    }

    method ToVector2() returns (r: Result<Vector2>)
      ensures r.Ok? <==> |coords| <= 2
      ensures r.Err? ==> r.error == TooManyCoords
      ensures r.Ok? ==> fresh(r.value) && r.value.coords == ToVector2Coords(coords).value
    {
      if |coords| > 2 {
        return Err(TooManyCoords);
      }
      // `new Vector2(...coords)`: the missing arguments take their defaults
      var v: Vector2;
      if |coords| == 0 {
        v := new Vector2();
      } else if |coords| == 1 {
        v := new Vector2(coords[0]);
      } else {
        v := new Vector2(coords[0], coords[1]);
      }
      r := Ok(v);
    }

    method AddMutate(v: Vector) returns (r: Result<Vector>)
      modifies this
      ensures r.Ok? <==> |old(coords)| == |old(v.coords)|
      ensures r.Ok? ==> r.value == this && coords == Add(old(coords), old(v.coords)).value
      ensures r.Err? ==> r.error == DimensionMismatch && coords == old(coords)
    {
      var sum := Add(coords, v.coords);
      if sum.Err? {
        return Err(sum.error);
      }
      coords := sum.value;
      r := Ok(this);
    }

    method SubMutate(v: Vector) returns (r: Result<Vector>)
      modifies this
      ensures r.Ok? <==> |old(coords)| == |old(v.coords)|
      ensures r.Ok? ==> r.value == this && coords == Sub(old(coords), old(v.coords)).value
      ensures r.Err? ==> r.error == DimensionMismatch && coords == old(coords)
    {
      var diff := Sub(coords, v.coords);
      if diff.Err? {
        return Err(diff.error);
      }
      coords := diff.value;
      r := Ok(this);
    }

    method ScaleMutate(s: real) returns (r: Vector)
      modifies this
      ensures r == this && coords == Scale(old(coords), s)
    {
      coords := Scale(coords, s);
      r := this;
    }
  }

  /**
   * `Vector2`: as written, both accessor pairs address `coords[0]`, so the
   * second coordinate cannot be read or written through them (`Y`, `SetY`);
   * `IntendedY` and `SetIntendedY` address the second coordinate.
   */
  class Vector2 {
    var coords: seq<real>

    constructor (x: real := 0.0, y: real := 0.0)
      ensures coords == [x, y]
    {
      coords := [x, y];
    }

    function X(): real
      reads this
      requires |coords| > 0
    {
      coords[0]
    }

    function Y(): (r: real)
      reads this
      requires |coords| > 0
      ensures r == X()
    {
      coords[0]
    }

    method SetX(v: real)
      requires |coords| > 0
      modifies this
      ensures coords == old(coords)[0 := v]
    {
      coords := coords[0 := v];
    }

    method SetY(v: real)
      requires |coords| > 0
      modifies this
      ensures coords == old(coords)[0 := v]
      ensures X() == v && Y() == v
    {
      coords := coords[0 := v];
    }

    /** The second coordinate, which the `y` accessors were evidently meant to address. */
    function IntendedY(): real
      reads this
      requires |coords| > 1
    {
      coords[1]
    }

    /** The `y` setter as evidently meant: the second coordinate changes, the first stays. */
    method SetIntendedY(v: real)
      requires |coords| > 1
      modifies this
      ensures coords == old(coords)[1 := v]
      ensures IntendedY() == v && X() == old(X())
    {
      coords := coords[1 := v];
    }
  }

  /** As written, `new Vector2(1, 2).y` is 1: the getter never reaches the second coordinate. */
  lemma YReadsFirstCoordinate(v: Vector2)
    requires v.coords == [1.0, 2.0]
    ensures v.Y() == 1.0 && v.coords[1] == 2.0 && v.Y() != v.coords[1]
  {
  }

  /** With the intended accessors, both constructor arguments read back. */
  lemma IntendedAccessorsRoundTrip(v: Vector2, x: real, y: real)
    requires v.coords == [x, y]
    ensures v.X() == x && v.IntendedY() == y
  {
  }
}
