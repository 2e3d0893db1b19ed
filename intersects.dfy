/**
 * The circle versus axis-aligned rectangle test (src/utils/intersects.ts),
 * over exact reals. A rectangle is given by its top-left corner and its size.
 */
module Intersection {
  import JsMath

  datatype Circle = Circle(x: real, y: real, r: real)
  datatype Rect = Rect(x: real, y: real, width: real, height: real)

  /** Horizontal distance from the circle's centre to the rectangle's centre line. */
  function DistX(c: Circle, rect: Rect): real {
    JsMath.Abs(c.x - rect.x - rect.width / 2.0)
  }

  /** Vertical distance from the circle's centre to the rectangle's centre line. */
  function DistY(c: Circle, rect: Rect): real {
    JsMath.Abs(c.y - rect.y - rect.height / 2.0)
  }

  /**
   * `intersects`: reject when the centre is too far on either axis, accept when
   * it lies within the rectangle's span on either axis, and otherwise compare
   * the distance to the nearest corner with the radius (boundary included).
   */
  function Intersects(c: Circle, rect: Rect): (hit: bool)
    ensures DistX(c, rect) > rect.width / 2.0 + c.r ==> !hit
    ensures DistY(c, rect) > rect.height / 2.0 + c.r ==> !hit
  {
    var distX := DistX(c, rect);
    var distY := DistY(c, rect);
    if distX > rect.width / 2.0 + c.r then false
    else if distY > rect.height / 2.0 + c.r then false
    else if distX <= rect.width / 2.0 then true
    else if distY <= rect.height / 2.0 then true
    else
      var dx := distX - rect.width / 2.0;
      var dy := distY - rect.height / 2.0;
      dx * dx + dy * dy <= c.r * c.r
  }

  /** The point of [lo, hi] nearest to v. */
  function Clamp(v: real, lo: real, hi: real): (p: real)
    requires lo <= hi
    ensures lo <= p <= hi
    ensures lo <= v <= hi ==> p == v
  {
    if v < lo then lo else if v > hi then hi else v
  }

  /**
   * Geometric ground truth: the point of the rectangle nearest to the centre
   * lies within the radius, that is, the closed disc and the closed
   * rectangle share a point.
   */
  ghost predicate NearestPointWithin(c: Circle, rect: Rect)
    requires rect.width >= 0.0 && rect.height >= 0.0
  {
    var px := Clamp(c.x, rect.x, rect.x + rect.width);
    var py := Clamp(c.y, rect.y, rect.y + rect.height);
    (c.x - px) * (c.x - px) + (c.y - py) * (c.y - py) <= c.r * c.r
  }

  /** For a real circle and rectangle the test agrees with the geometry, in both directions. */
  lemma {:induction false} IntersectsIsGeometric(c: Circle, rect: Rect)
    requires c.r >= 0.0 && rect.width >= 0.0 && rect.height >= 0.0
    ensures Intersects(c, rect) <==> NearestPointWithin(c, rect)
  {
    var gx := Gap(DistX(c, rect), rect.width / 2.0);
    var gy := Gap(DistY(c, rect), rect.height / 2.0);
    NearestPointByGaps(c, rect);
    IntersectsByGaps(c, rect, gx, gy);
  }

  /** How far `dist` lies beyond the half-extent `half`, or 0 within it. */
  function Gap(dist: real, half: real): (g: real)
    ensures g >= 0.0
  {
    if dist <= half then 0.0 else dist - half
  }

  lemma NearestPointByGaps(c: Circle, rect: Rect)
    requires rect.width >= 0.0 && rect.height >= 0.0
    ensures var gx := Gap(DistX(c, rect), rect.width / 2.0);
            var gy := Gap(DistY(c, rect), rect.height / 2.0);
            NearestPointWithin(c, rect) <==> gx * gx + gy * gy <= c.r * c.r
  {
    AxisGap(c.x, rect.x, rect.width);
    AxisGap(c.y, rect.y, rect.height);
  }

  lemma IntersectsByGaps(c: Circle, rect: Rect, gx: real, gy: real)
    requires c.r >= 0.0 && rect.width >= 0.0 && rect.height >= 0.0
    requires gx == Gap(DistX(c, rect), rect.width / 2.0)
    requires gy == Gap(DistY(c, rect), rect.height / 2.0)
    ensures Intersects(c, rect) <==> gx * gx + gy * gy <= c.r * c.r
  {
    var hw, hh := rect.width / 2.0, rect.height / 2.0;
    var distX, distY := DistX(c, rect), DistY(c, rect);
    NonNegSquare(gx);
    NonNegSquare(gy);
    if distX > hw + c.r {
      SquareGrows(c.r, gx);
    } else if distY > hh + c.r {
      SquareGrows(c.r, gy);
    } else if distX <= hw {
      SquareMonotone(gy, c.r);
    } else if distY <= hh {
      SquareMonotone(gx, c.r);
    }
  }

  /** On one axis, the nearest point of [lo, lo + size] to v is as far from v as v lies beyond the half-extent. */
  lemma AxisGap(v: real, lo: real, size: real)
    requires size >= 0.0
    ensures var p := Clamp(v, lo, lo + size);
            var g := Gap(JsMath.Abs(v - lo - size / 2.0), size / 2.0);
            (v - p) * (v - p) == g * g
  {
    var dist := JsMath.Abs(v - lo - size / 2.0);
    var p := Clamp(v, lo, lo + size);
    if v < lo {
      assert v - p == -(dist - size / 2.0);
      SquareOfNegation(dist - size / 2.0);
    } else if v > lo + size {
      assert v - p == dist - size / 2.0;
    }
  }

  /** In the corner regions the test is exactly "the corner is within the radius", boundary included. */
  lemma {:induction false} CornerRegion(c: Circle, rect: Rect)
    requires c.r >= 0.0
    requires DistX(c, rect) > rect.width / 2.0 && DistY(c, rect) > rect.height / 2.0
    ensures var dx := DistX(c, rect) - rect.width / 2.0;
            var dy := DistY(c, rect) - rect.height / 2.0;
            Intersects(c, rect) <==> dx * dx + dy * dy <= c.r * c.r
  {
    var dx := DistX(c, rect) - rect.width / 2.0;
    var dy := DistY(c, rect) - rect.height / 2.0;
    if dx > c.r {
      SquareGrows(c.r, dx);
      NonNegSquare(dy);
    } else if dy > c.r {
      SquareGrows(c.r, dy);
      NonNegSquare(dx);
    }
  }

  /** A circle of non-negative radius whose centre lies in the rectangle always intersects it. */
  lemma CentreInside(c: Circle, rect: Rect)
    requires c.r >= 0.0
    requires rect.x <= c.x <= rect.x + rect.width
    requires rect.y <= c.y <= rect.y + rect.height
    ensures Intersects(c, rect)
  {
  }

  /** Touching a side counts: centre exactly r beyond a vertical side, within the rectangle's height. */
  lemma EdgeContact(c: Circle, rect: Rect)
    requires c.r >= 0.0
    requires DistX(c, rect) == rect.width / 2.0 + c.r
    requires DistY(c, rect) <= rect.height / 2.0
    ensures Intersects(c, rect)
  {
  }

  /** Mirroring the centre about the rectangle's vertical or horizontal centre line does not change the answer. */
  lemma MirrorInvariant(c: Circle, rect: Rect)
    ensures Intersects(Circle(2.0 * rect.x + rect.width - c.x, c.y, c.r), rect) == Intersects(c, rect)
    ensures Intersects(Circle(c.x, 2.0 * rect.y + rect.height - c.y, c.r), rect) == Intersects(c, rect)
  {
  }

  /** A circle of radius 5 at the origin and a 10 by 10 square whose left side is at x = 10 do not meet. */
  lemma GapOfTenMisses()
    ensures !Intersects(Circle(0.0, 0.0, 5.0), Rect(10.0, 0.0, 10.0, 10.0))
  {
  }

  /*
   * Steps of real arithmetic the nonlinear proofs above need spelled out:
   * squares are non-negative, and squaring is monotone on [0, infinity).
   */

  lemma SquareOfNegation(v: real)
    ensures (-v) * (-v) == v * v
  {
  }

  lemma NonNegSquare(v: real)
    ensures v * v >= 0.0
  {
    if v < 0.0 {
      SquareOfNegation(v);
      NonNegProduct(-v, -v);
    } else {
      NonNegProduct(v, v);
    }
  }

  lemma NonNegProduct(x: real, y: real)
    requires x >= 0.0 && y >= 0.0
    ensures x * y >= 0.0
  {
  }

  lemma PositiveRealProduct(x: real, y: real)
    requires x > 0.0 && y > 0.0
    ensures x * y > 0.0
  {
  }

  lemma SquareMonotone(a: real, b: real)
    requires 0.0 <= a <= b
    ensures a * a <= b * b
  {
    var d := b - a;
    NonNegProduct(a, d);
    NonNegProduct(b, d);
    assert b * b == b * a + b * d;
    assert a * a == a * b - a * d;
    assert a * b == b * a;
  }

  lemma SquareGrows(a: real, b: real)
    requires 0.0 <= a < b
    ensures a * a < b * b
  {
    var d := b - a;
    NonNegProduct(a, d);
    PositiveRealProduct(b, d);
    assert b * b == b * a + b * d;
    assert a * a == a * b - a * d;
    assert a * b == b * a;
    assert b * a + b * d > a * b - a * d;
  }
}
