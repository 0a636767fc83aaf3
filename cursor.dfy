/**
 * The cursor anchor of the DRAW-mode stroke and the test (index.tsx:266-280)
 * that decides whether a click ends the stroke.
 */
module Cursor {

  datatype Point = Point(x: real, y: real)

  /** `[-1, -1]`, the `previousCursor` value that means "no anchor". */
  const NoCursor: Point := Point(-1.0, -1.0)

  /** `previousCursor[0] > -1`: whether a stroke is under way. */
  predicate HasAnchor(p: Point): (r: bool)
    ensures p == NoCursor ==> !r
  {
    p.x > -1.0
  }

  const DrawingStopDistance: real := 0.5

  /** The integer part of `x`, rounding toward zero. */
  function Truncate(x: real): int {
    if x >= 0.0 then x.Floor else -((-x).Floor)
  }

  function Pow2(k: nat): (r: nat)
    ensures r >= 1
  {
    if k == 0 then 1 else 2 * Pow2(k - 1)
  }

  lemma {:induction false} Pow2Add(m: nat, n: nat)
    ensures Pow2(m + n) == Pow2(m) * Pow2(n)
  {
    if m > 0 {
      Pow2Add(m - 1, n);
      assert Pow2(m + n) == 2 * Pow2(m - 1 + n);
    }
  }

  lemma Pow2Of32()
    ensures Pow2(32) == 0x1_0000_0000
  {
    assert Pow2(4) == 16;
    Pow2Add(4, 4);
    assert Pow2(8) == 256;
    Pow2Add(8, 8);
    assert Pow2(16) == 0x1_0000;
    Pow2Add(16, 16);
  }

  /**
   * JavaScript's ToInt32 of a finite number, as the unsigned value of its
   * 32-bit two's complement pattern (ToUint32).
   */
  function ToUint32(x: real): (r: nat)
    ensures r < 0x1_0000_0000
  {
    Truncate(x) % 0x1_0000_0000
  }

  /** The bitwise exclusive or of the low `width` bits of `a` and `b`. */
  function Xor(a: nat, b: nat, width: nat): (r: nat)
    decreases width
  {
    if width == 0 then 0 else (if a % 2 == b % 2 then 0 else 1) + 2 * Xor(a / 2, b / 2, width - 1)
  }

  /** The int32 a 32-bit pattern stands for. */
  function Signed32(u: nat): int {
    if u < 0x8000_0000 then u else u - 0x1_0000_0000
  }

  /**
   * `Math.sqrt(n) < DRAWING_STOP_DISTANCE` for an integer `n`: the square root
   * of a negative number is NaN, which compares false, and on the non-negative
   * numbers the square root is increasing, so the test is `n < 0.5 * 0.5`.
   */
  predicate SqrtBelowStopDistance(n: int) {
    0 <= n && (n as real) < DrawingStopDistance * DrawingStopDistance
  }

  /**
   * The stop test `Math.sqrt((p0 - c0) ^ 2 + (p1 - c1) ^ 2) < 0.5`. In
   * JavaScript `+` binds tighter than the bitwise `^`, so the radicand is
   * `((p0 - c0) ^ (2 + (p1 - c1))) ^ 2`, XOR on ToInt32 values.
   */
  predicate StopTest(prev: Point, cur: Point) {
    RadicandBelowStop(ToUint32(prev.x - cur.x), ToUint32(2.0 + (prev.y - cur.y)))
  }

  /** `Math.sqrt((a ^ c) ^ 2) < 0.5` for the ToInt32 patterns `a` and `c`. */
  predicate RadicandBelowStop(a: nat, c: nat) {
    SqrtBelowStopDistance(Signed32(Xor(Xor(a, c, 32), 2, 32)))
  }

  // ---------------------------------------------------------------------------
  // The stop test, worked out

  lemma {:induction false} XorBound(a: nat, b: nat, k: nat)
    ensures Xor(a, b, k) < Pow2(k)
  {
    if k > 0 {
      XorBound(a / 2, b / 2, k - 1);
    }
  }

  lemma {:induction false} XorZeroIff(a: nat, b: nat, k: nat)
    requires a < Pow2(k) && b < Pow2(k)
    ensures Xor(a, b, k) == 0 <==> a == b
  {
    if k > 0 {
      XorZeroIff(a / 2, b / 2, k - 1);
    }
  }

  lemma {:induction false} XorSelf(a: nat, k: nat)
    ensures Xor(a, a, k) == 0
  {
    if k > 0 {
      XorSelf(a / 2, k - 1);
    }
  }

  /** When `a` and `b` agree above bit 1, their exclusive or is made of bits 0 and 1 alone. */
  lemma XorLowBits(a: nat, b: nat, k: nat)
    requires k >= 2 && a / 4 == b / 4
    ensures Xor(a, b, k) == (if a % 2 == b % 2 then 0 else 1) + 2 * (if a / 2 % 2 == b / 2 % 2 then 0 else 1)
  {
    assert a / 2 / 2 == a / 4 && b / 2 / 2 == b / 4;
    XorSelf(a / 4, k - 2);
  }

  lemma XorStops(a: nat, c: nat)
    requires a < 0x1_0000_0000 && c < 0x1_0000_0000
    ensures RadicandBelowStop(a, c) <==> Xor(a, c, 32) == 2
  {
    var w := Xor(a, c, 32);
    var u := Xor(w, 2, 32);
    Pow2Of32();
    XorBound(a, c, 32);
    XorBound(w, 2, 32);
    XorZeroIff(w, 2, 32);
    BelowStopDistanceIsZero(Signed32(u));
  }

  lemma BelowStopDistanceIsZero(n: int)
    ensures SqrtBelowStopDistance(n) <==> n == 0
  {
    if n >= 1 {
      assert n as real >= 1.0;
    }
  }

  lemma ToUint32OfInt(k: int)
    requires -0x1_0000_0000 <= k < 0x1_0000_0000
    ensures ToUint32(k as real) == if k < 0 then k + 0x1_0000_0000 else k
  {
    assert Truncate(k as real) == k;
  }

  /** A click that ends the stroke leaves the two ToInt32 patterns differing in bit 1 alone. */
  lemma StopMeansBitPattern(prev: Point, cur: Point)
    requires StopTest(prev, cur)
    ensures Xor(ToUint32(prev.x - cur.x), ToUint32(2.0 + (prev.y - cur.y)), 32) == 2
  {
    XorStops(ToUint32(prev.x - cur.x), ToUint32(2.0 + (prev.y - cur.y)));
  }

  /** Conversely, patterns that differ in bit 1 alone end the stroke. */
  lemma BitPatternMeansStop(prev: Point, cur: Point)
    requires Xor(ToUint32(prev.x - cur.x), ToUint32(2.0 + (prev.y - cur.y)), 32) == 2
    ensures StopTest(prev, cur)
  {
    XorStops(ToUint32(prev.x - cur.x), ToUint32(2.0 + (prev.y - cur.y)));
  }

  /** Patterns that agree above bit 1 and differ in bit 1 alone have exclusive or 2. */
  lemma XorOfBit1(a: nat, c: nat)
    requires a / 4 == c / 4 && a % 2 == c % 2 && a / 2 % 2 != c / 2 % 2
    ensures Xor(a, c, 32) == 2
  {
    XorLowBits(a, c, 32);
  }

  /** Patterns that agree above bit 1 and differ in bit 0 do not have exclusive or 2. */
  lemma XorOfBit0(a: nat, c: nat)
    requires a / 4 == c / 4 && a % 2 != c % 2
    ensures Xor(a, c, 32) != 2
  {
    XorLowBits(a, c, 32);
  }

  /** Clicking the anchor again ends the stroke. */
  lemma SamePointStops(p: Point)
    ensures StopTest(p, p)
  {
    assert p.x - p.x == 0 as real && 2.0 + (p.y - p.y) == 2 as real;
    ToUint32OfInt(0);
    ToUint32OfInt(2);
    XorOfBit1(ToUint32(p.x - p.x), ToUint32(2.0 + (p.y - p.y)));
    BitPatternMeansStop(p, p);
  }

  /** A click 3 to the right of and 3 below the anchor, about 4.24 away, ends the stroke. */
  lemma DistantPointStops(p: Point)
    ensures StopTest(p, Point(p.x + 3.0, p.y + 3.0))
  {
    var cur := Point(p.x + 3.0, p.y + 3.0);
    DistantPointPatterns(p, cur);
    XorOfBit1(ToUint32(p.x - cur.x), ToUint32(2.0 + (p.y - cur.y)));
    BitPatternMeansStop(p, cur);
  }

  lemma DistantPointPatterns(p: Point, cur: Point)
    requires cur == Point(p.x + 3.0, p.y + 3.0)
    ensures ToUint32(p.x - cur.x) == 0xFFFF_FFFD && ToUint32(2.0 + (p.y - cur.y)) == 0xFFFF_FFFF
  {
    assert p.x - cur.x == -3 as real && 2.0 + (p.y - cur.y) == -1 as real;
    ToUint32OfInt(-3);
    ToUint32OfInt(-1);
  }

  /** A click 0.3 below the anchor, closer than the stop distance, continues the stroke. */
  lemma ClosePointContinues(p: Point)
    ensures !StopTest(p, Point(p.x, p.y + 0.3))
  {
    var cur := Point(p.x, p.y + 0.3);
    ClosePointPatterns(p, cur);
    XorOfBit0(ToUint32(p.x - cur.x), ToUint32(2.0 + (p.y - cur.y)));
    if StopTest(p, cur) {
      StopMeansBitPattern(p, cur);
      assert false;
    }
  }

  lemma ClosePointPatterns(p: Point, cur: Point)
    requires cur == Point(p.x, p.y + 0.3)
    ensures ToUint32(p.x - cur.x) == 0 && ToUint32(2.0 + (p.y - cur.y)) == 1
  {
    assert p.x - cur.x == 0 as real && 2.0 + (p.y - cur.y) == 1.7;
    ToUint32OfInt(0);
    assert Truncate(1.7) == 1;
  }

  /**
   * A click 2 to the right of and 6 below the anchor ends the stroke; from the
   * "no anchor" value `(-1, -1)` that is the very first click at `(1, 5)`.
   */
  lemma OffsetClickStops(p: Point)
    ensures StopTest(p, Point(p.x + 2.0, p.y + 6.0))
  {
    var cur := Point(p.x + 2.0, p.y + 6.0);
    OffsetClickPatterns(p, cur);
    XorOfBit1(ToUint32(p.x - cur.x), ToUint32(2.0 + (p.y - cur.y)));
    BitPatternMeansStop(p, cur);
  }

  lemma OffsetClickPatterns(p: Point, cur: Point)
    requires cur == Point(p.x + 2.0, p.y + 6.0)
    ensures ToUint32(p.x - cur.x) == 0xFFFF_FFFE && ToUint32(2.0 + (p.y - cur.y)) == 0xFFFF_FFFC
  {
    assert p.x - cur.x == -2 as real && 2.0 + (p.y - cur.y) == -4 as real;
    ToUint32OfInt(-2);
    ToUint32OfInt(-4);
  }
}
