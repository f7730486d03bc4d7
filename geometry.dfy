/**
 * Points of the glyph's logical canvas and the point-to-segment distance
 * the stroke matcher uses to decide whether a pointer sample is close to a
 * piece of the target stroke.
 *
 * Distances are kept squared: the matcher only ever compares a distance
 * with a threshold, and `sqrt(d2) < r` holds exactly when `d2 < r * r`.
 */
module Geometry {

  datatype Point = Point(x: real, y: real)

  /** Squared Euclidean distance. */
  function SqDist(p: Point, q: Point): (d: real)
    ensures d >= 0.0
  {
    (p.x - q.x) * (p.x - q.x) + (p.y - q.y) * (p.y - q.y)
  }

  /** The point a fraction `t` of the way from `a` to `b`. */
  function Lerp(a: Point, b: Point, t: real): Point {
    Point(a.x + (b.x - a.x) * t, a.y + (b.y - a.y) * t)
  }

  function Dot(p: Point, a: Point, b: Point): real {
    (p.x - a.x) * (b.x - a.x) + (p.y - a.y) * (b.y - a.y)
  }

  /**
   * Where the projection of `p` falls on the line through `a` and `b`, as a
   * fraction of `a`-to-`b`; -1 when `a == b`, which sends the degenerate
   * segment to its start point.
   */
  function ProjectionParam(p: Point, a: Point, b: Point): real {
    var lenSq := SqDist(b, a);
    if lenSq != 0.0 then Dot(p, a, b) / lenSq else -1.0
  }

  /** The projection parameter clamped to [0, 1]: the fraction at which the nearest point sits. */
  function ClampedParam(p: Point, a: Point, b: Point): (t: real)
    ensures 0.0 <= t <= 1.0
  {
    var param := ProjectionParam(p, a, b);
    if param < 0.0 then 0.0 else if param > 1.0 then 1.0 else param
  }

  /**
   * Squared distance from `p` to the segment `a`-`b`: project, clamp the
   * parameter to [0, 1], measure to the clamped point.
   */
  function PointToSegmentSqDist(p: Point, a: Point, b: Point): (d: real)
    ensures d >= 0.0
    ensures a == b ==> d == SqDist(p, a)
  {
    var param := ProjectionParam(p, a, b);
    var nearest :=
      if param < 0.0 then a
      else if param > 1.0 then b
      else Point(a.x + param * (b.x - a.x), a.y + param * (b.y - a.y));
    SqDist(p, nearest)
  }

  // Facts of real arithmetic, each stated on its own so that the solver
  // meets it without the rest of the geometry around it.

  lemma ProductPositive(u: real, v: real)
    requires (u > 0.0 && v > 0.0) || (u < 0.0 && v < 0.0)
    ensures u * v > 0.0
  {
  }

  // Stated with two names for one value: the solver settles u * v == 0
  // against u * v > 0, but not the same facts written with u * u.
  lemma ProductZero(u: real, v: real)
    requires u == v && u * v == 0.0
    ensures u == 0.0
  {
    if u != 0.0 {
      ProductPositive(u, v);
    }
  }

  lemma SquareZero(u: real)
    requires u * u == 0.0
    ensures u == 0.0
  {
    ProductZero(u, u);
  }

  /** One coordinate of the squared distance to Lerp(a, b, t), expanded in t. */
  lemma AlongAxis(pv: real, av: real, bv: real, t: real)
    ensures (pv - (av + (bv - av) * t)) * (pv - (av + (bv - av) * t))
         == (pv - av) * (pv - av) - 2.0 * t * ((pv - av) * (bv - av))
            + t * t * ((bv - av) * (bv - av))
  {
  }

  lemma Distribute(t: real, u: real, v: real)
    ensures t * (u + v) == t * u + t * v
  {
  }

  lemma ProductNonNegative(u: real, v: real)
    requires u >= 0.0 && v >= 0.0
    ensures u * v >= 0.0
  {
  }

  lemma SquareNonNegative(u: real)
    ensures u * u >= 0.0
  {
    if u < 0.0 {
      ProductPositive(u, u);
    } else {
      ProductNonNegative(u, u);
    }
  }

  lemma DivisionByPositive(dot: real, len: real)
    requires len > 0.0
    ensures (dot / len) * len == dot
    ensures dot / len < 0.0 <==> dot < 0.0
    ensures dot / len > 1.0 <==> dot > len
  {
  }

  /** f(t) - f(1) for f(t) = -2 t dot + t^2 L, factored. */
  lemma PastEndIdentity(t: real, dot: real, len: real)
    ensures -2.0 * t * dot + t * t * len - (-2.0 * dot + len)
         == (1.0 - t) * (2.0 * dot - (1.0 + t) * len)
  {
  }

  /** f(t) - f(param) for f(t) = -2 t dot + t^2 L, when param * L == dot. */
  lemma InteriorIdentity(t: real, param: real, dot: real, len: real)
    requires param * len == dot
    ensures -2.0 * t * dot + t * t * len - (-2.0 * param * dot + param * param * len)
         == len * ((t - param) * (t - param))
  {
  }

  lemma LagrangeIdentity(a: real, b: real, c: real, d: real)
    ensures (a * a + b * b) * (c * c + d * d) - (a * c + b * d) * (a * c + b * d)
         == (a * d - b * c) * (a * d - b * c)
  {
  }

  /**
   * On [0, 1], the quadratic f(t) = -2 t dot + t^2 L with L > 0 is smallest
   * at dot / L clamped to [0, 1].
   */
  lemma ClampedMinimum(sq: real, dot: real, len: real, t: real, c: real)
    requires len > 0.0 && 0.0 <= t <= 1.0
    requires c == if dot / len < 0.0 then 0.0 else if dot / len > 1.0 then 1.0 else dot / len
    ensures sq - 2.0 * c * dot + c * c * len <= sq - 2.0 * t * dot + t * t * len
  {
    var param := dot / len;
    DivisionByPositive(dot, len);
    if param < 0.0 {
      ProductNonNegative(t, -dot);
      assert t * (-dot) == -(t * dot);
      SquareNonNegative(t);
      ProductNonNegative(t * t, len);
    } else if param > 1.0 {
      assert (1.0 + t) * len <= 2.0 * len;
      ProductNonNegative(1.0 - t, 2.0 * dot - (1.0 + t) * len);
      PastEndIdentity(t, dot, len);
    } else {
      SquareNonNegative(t - param);
      ProductNonNegative(len, (t - param) * (t - param));
      InteriorIdentity(t, param, dot, len);
    }
  }

  /** The squared distance to a point of the segment, as a quadratic in its parameter. */
  lemma SqDistAlong(p: Point, a: Point, b: Point, t: real)
    ensures SqDist(p, Lerp(a, b, t))
         == SqDist(p, a) - 2.0 * t * Dot(p, a, b) + t * t * SqDist(b, a)
  {
    var q := Lerp(a, b, t);
    AlongAxis(p.x, a.x, b.x, t);
    AlongAxis(p.y, a.y, b.y, t);
    CombineAxes((p.x - q.x) * (p.x - q.x), (p.y - q.y) * (p.y - q.y),
                (p.x - a.x) * (p.x - a.x), (p.y - a.y) * (p.y - a.y),
                (p.x - a.x) * (b.x - a.x), (p.y - a.y) * (b.y - a.y),
                (b.x - a.x) * (b.x - a.x), (b.y - a.y) * (b.y - a.y),
                2.0 * t, t * t);
  }

  /** Adding the two coordinates' expansions, with the products kept as opaque numbers. */
  lemma CombineAxes(sx: real, sy: real, px: real, py: real, dx: real, dy: real,
                    lx: real, ly: real, k1: real, k2: real)
    requires sx == px - k1 * dx + k2 * lx
    requires sy == py - k1 * dy + k2 * ly
    ensures sx + sy == (px + py) - k1 * (dx + dy) + k2 * (lx + ly)
  {
    Distribute(k1, dx, dy);
    Distribute(k2, lx, ly);
  }

  lemma DegenerateSegment(a: Point, b: Point)
    requires SqDist(b, a) == 0.0
    ensures a == b
  {
    var C, D := b.x - a.x, b.y - a.y;
    assert C * C >= 0.0 && D * D >= 0.0;
    SquareZero(C);
    SquareZero(D);
  }

  /** The distance is attained: it is the distance to the point at the clamped parameter. */
  lemma {:induction false} DistanceAttained(p: Point, a: Point, b: Point)
    ensures PointToSegmentSqDist(p, a, b) == SqDist(p, Lerp(a, b, ClampedParam(p, a, b)))
  {
    var param := ProjectionParam(p, a, b);
    if param < 0.0 {
      assert Lerp(a, b, 0.0) == a;
    } else if param > 1.0 {
      assert Lerp(a, b, 1.0) == b;
    } else {
      assert Lerp(a, b, param) == Point(a.x + param * (b.x - a.x), a.y + param * (b.y - a.y));
    }
  }

  /** No point of the segment is closer to `p` than the computed distance. */
  lemma NearestOnSegment(p: Point, a: Point, b: Point, t: real)
    requires 0.0 <= t <= 1.0
    ensures PointToSegmentSqDist(p, a, b) <= SqDist(p, Lerp(a, b, t))
  {
    if SqDist(b, a) == 0.0 {
      DegenerateSegment(a, b);
      assert Lerp(a, b, t) == a;
    } else {
      NearestOnProperSegment(p, a, b, t);
      DistanceAttained(p, a, b);
    }
  }

  lemma NearestOnProperSegment(p: Point, a: Point, b: Point, t: real)
    requires SqDist(b, a) != 0.0
    requires 0.0 <= t <= 1.0
    ensures SqDist(p, Lerp(a, b, ClampedParam(p, a, b))) <= SqDist(p, Lerp(a, b, t))
  {
    ClampedIsMinimal(p, a, b, t);
    QuadraticBound(p, a, b, ClampedParam(p, a, b), t);
  }

  lemma QuadraticBound(p: Point, a: Point, b: Point, c: real, t: real)
    requires SqDist(p, a) - 2.0 * c * Dot(p, a, b) + c * c * SqDist(b, a)
          <= SqDist(p, a) - 2.0 * t * Dot(p, a, b) + t * t * SqDist(b, a)
    ensures SqDist(p, Lerp(a, b, c)) <= SqDist(p, Lerp(a, b, t))
  {
    SqDistAlong(p, a, b, c);
    SqDistAlong(p, a, b, t);
  }

  lemma ClampedIsMinimal(p: Point, a: Point, b: Point, t: real)
    requires SqDist(b, a) != 0.0
    requires 0.0 <= t <= 1.0
    ensures
      var c := ClampedParam(p, a, b);
      SqDist(p, a) - 2.0 * c * Dot(p, a, b) + c * c * SqDist(b, a)
        <= SqDist(p, a) - 2.0 * t * Dot(p, a, b) + t * t * SqDist(b, a)
  {
    ClampedMinimum(SqDist(p, a), Dot(p, a, b), SqDist(b, a), t, ClampedParam(p, a, b));
  }

  /**
   * Outside [0, 1] the distance is the distance to the nearer endpoint:
   * the start when the projection falls before it, the end when after.
   */
  lemma EndpointDistance(p: Point, a: Point, b: Point)
    ensures ProjectionParam(p, a, b) < 0.0 ==>
      PointToSegmentSqDist(p, a, b) == SqDist(p, a) && SqDist(p, a) <= SqDist(p, b)
    ensures ProjectionParam(p, a, b) > 1.0 ==>
      PointToSegmentSqDist(p, a, b) == SqDist(p, b) && SqDist(p, b) <= SqDist(p, a)
  {
    assert Lerp(a, b, 0.0) == a;
    assert Lerp(a, b, 1.0) == b;
    NearestOnSegment(p, a, b, 0.0);
    NearestOnSegment(p, a, b, 1.0);
  }

  /**
   * Inside [0, 1] the distance is the perpendicular distance to the line:
   * d * |b - a|^2 == cross(p - a, b - a)^2.
   */
  lemma {:induction false} InteriorIsPerpendicular(p: Point, a: Point, b: Point)
    requires a != b
    requires 0.0 <= ProjectionParam(p, a, b) <= 1.0
    ensures
      var cross := (p.x - a.x) * (b.y - a.y) - (p.y - a.y) * (b.x - a.x);
      PointToSegmentSqDist(p, a, b) * SqDist(b, a) == cross * cross
  {
    var A, B, C, D := p.x - a.x, p.y - a.y, b.x - a.x, b.y - a.y;
    var L, dot := SqDist(b, a), Dot(p, a, b);
    var param := ProjectionParam(p, a, b);
    var d := PointToSegmentSqDist(p, a, b);
    DistanceAttained(p, a, b);
    SqDistAlong(p, a, b, param);
    assert param * L == dot;
    assert d == SqDist(p, a) - 2.0 * param * dot + param * param * L;
    assert d * L == SqDist(p, a) * L - 2.0 * dot * (param * L) + (param * L) * (param * L);
    assert d * L == SqDist(p, a) * L - dot * dot;
    LagrangeIdentity(A, B, C, D);
  }
}
