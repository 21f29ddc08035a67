/** The plane geometry of maps/scripts/driver-streets-to-osc.py over the reals.
    Distances are carried squared: comparing them is comparing the distances. */
module Geometry {

  const CELL := 0.0005
  const M_PER_DEG := 111320.0

  datatype Point = Point(lat: real, lon: real)

  /** The cosine of a latitude in degrees, for latitudes strictly between the poles. */
  ghost predicate Cosine(cosine: real -> real) {
    forall lat: real :: 0.0 < cosine(lat) <= 1.0
  }

  function Square(x: real): (s: real)
    ensures s >= 0.0
  {
    x * x
  }

  /** proj: metres east and north, with the east-west scale k of one latitude. */
  function East(k: real, p: Point): real { p.lon * M_PER_DEG * k }
  function North(p: Point): real { p.lat * M_PER_DEG }

  function DistSquared(k: real, p: Point, q: Point): (d: real)
    ensures d >= 0.0
  {
    Square(East(k, p) - East(k, q)) + Square(North(p) - North(q))
  }

  /** The point at share t of the way from a to b. */
  function Along(a: Point, b: Point, t: real): Point {
    Point(a.lat + t * (b.lat - a.lat), a.lon + t * (b.lon - a.lon))
  }

  /** The dot product of p - a with b - a. */
  function Dot(k: real, p: Point, a: Point, b: Point): real {
    (East(k, p) - East(k, a)) * (East(k, b) - East(k, a)) + (North(p) - North(a)) * (North(b) - North(a))
  }

  /** seg_project: the share t at which the segment ab is nearest to p. */
  function Project(k: real, p: Point, a: Point, b: Point): (t: real)
    ensures 0.0 <= t <= 1.0
  {
    var len := DistSquared(k, a, b);
    if len == 0.0 then 0.0
    else
      var t := Dot(k, p, a, b) / len;
      if t < 0.0 then 0.0 else if t > 1.0 then 1.0 else t
  }

  /** The squared distance from p to the segment ab. */
  function SegDist(k: real, p: Point, a: Point, b: Point): (d: real)
    ensures d >= 0.0
  {
    DistSquared(k, p, Along(a, b, Project(k, p, a, b)))
  }

  lemma EastAlong(k: real, a: Point, b: Point, t: real)
    ensures East(k, Along(a, b, t)) == East(k, a) + t * (East(k, b) - East(k, a))
    ensures North(Along(a, b, t)) == North(a) + t * (North(b) - North(a))
  {
    var o := b.lon - a.lon;
    assert (a.lon + t * o) * M_PER_DEG * k == a.lon * M_PER_DEG * k + t * (o * M_PER_DEG * k);
    assert o * M_PER_DEG * k == b.lon * M_PER_DEG * k - a.lon * M_PER_DEG * k;
  }

  /** The squared distance to the point at share s is a quadratic in s. */
  lemma DistAlong(k: real, p: Point, a: Point, b: Point, s: real)
    ensures DistSquared(k, p, Along(a, b, s)) ==
              DistSquared(k, p, a) - 2.0 * (s * Dot(k, p, a, b)) + s * s * DistSquared(k, a, b)
  {
    hide East, North, Along;
    var ux, uy := East(k, p) - East(k, a), North(p) - North(a);
    var vx, vy := East(k, b) - East(k, a), North(b) - North(a);
    EastAlong(k, a, b, s);
    assert Square(East(k, a) - East(k, b)) == Square(vx) by { SquareOfNegation(vx); }
    assert Square(North(a) - North(b)) == Square(vy) by { SquareOfNegation(vy); }
    hide Square;
    Distribute(s, ux * vx, uy * vy);
    Distribute(s * s, Square(vx), Square(vy));
  }

  lemma Distribute(x: real, y: real, z: real)
    ensures x * y + x * z == x * (y + z)
  {
  }

  /** A quadratic with leading coefficient len > 0 is least, on the unit interval, at its clamped vertex. */
  lemma ClampedVertex(dot: real, len: real, t: real, s: real)
    requires len > 0.0 && 0.0 <= s <= 1.0
    requires t == if dot / len < 0.0 then 0.0 else if dot / len > 1.0 then 1.0 else dot / len
    ensures -2.0 * (t * dot) + t * t * len <= -2.0 * (s * dot) + s * s * len
  {
    var e := s - t;
    var slope := t * len - dot;
    assert -2.0 * (s * dot) + s * s * len - (-2.0 * (t * dot) + t * t * len) == e * e * len + 2.0 * (e * slope) by {
      assert s == t + e;
      assert s * dot == t * dot + e * dot;
      assert s * s == t * t + 2.0 * (t * e) + e * e;
      assert s * s * len == t * t * len + 2.0 * (t * e) * len + e * e * len;
      assert e * slope == e * (t * len) - e * dot;
      assert 2.0 * (t * e) * len == 2.0 * (e * (t * len));
    }
    assert dot / len * len == dot;
    assert e * slope >= 0.0 by {
      if dot / len < 0.0 {
        assert dot < 0.0;
      } else if dot / len > 1.0 {
        assert dot > len;
        assert e <= 0.0 && slope < 0.0;
      } else {
        assert slope == 0.0;
      }
    }
    assert e * e >= 0.0;
    assert e * e * len >= 0.0;
  }

  /** seg_project finds the nearest point: no point of the segment is closer to p. */
  lemma ProjectIsNearest(k: real, p: Point, a: Point, b: Point, s: real)
    requires 0.0 <= s <= 1.0
    ensures SegDist(k, p, a, b) <= DistSquared(k, p, Along(a, b, s))
  {
    hide DistSquared, Dot, Along, Square;
    var t, len, dot := Project(k, p, a, b), DistSquared(k, a, b), Dot(k, p, a, b);
    DistAlong(k, p, a, b, t);
    DistAlong(k, p, a, b, s);
    if len > 0.0 {
      ClampedVertex(dot, len, t, s);
    } else {
      ZeroLength(k, p, a, b);
    }
  }

  lemma ProductPositive(x: real, y: real, p: real)
    requires x > 0.0 && y > 0.0 && p == x * y
    ensures p > 0.0
  {
  }

  lemma SquareOfNegation(x: real)
    ensures Square(-x) == Square(x)
  {
    assert (-x) * (-x) == -(x * (-x));
  }

  lemma SquarePositive(x: real)
    requires x != 0.0
    ensures Square(x) > 0.0
  {
    SquareOfNegation(x);
    if x > 0.0 {
      ProductPositive(x, x, Square(x));
    } else {
      ProductPositive(-x, -x, Square(-x));
    }
  }

  lemma SquareLess(x: real, y: real)
    requires 0.0 <= x < y
    ensures Square(x) < Square(y)
  {
    ProductPositive(y - x, y + x, Square(y) - Square(x));
  }

  /** A square no more than another bounds the number between the root and its negation. */
  lemma RootBound(x: real, r: real)
    requires r >= 0.0 && Square(x) <= Square(r)
    ensures -r <= x <= r
  {
    SquareOfNegation(x);
    if x > r {
      SquareLess(r, x);
    } else if x < -r {
      SquareLess(r, -x);
    }
  }

  lemma Cancel(x: real, y: real, unit: real)
    requires unit > 0.0 && x * unit <= y * unit
    ensures x <= y
  {
    if x > y {
      ProductPositive(x - y, unit, x * unit - y * unit);
    }
  }

  lemma ZeroLength(k: real, p: Point, a: Point, b: Point)
    requires DistSquared(k, a, b) == 0.0
    ensures Dot(k, p, a, b) == 0.0
  {
    var x, y := East(k, a) - East(k, b), North(a) - North(b);
    if x != 0.0 {
      SquarePositive(x);
    } else if y != 0.0 {
      SquarePositive(y);
    }
  }
}
