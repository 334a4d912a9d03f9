/** The collision predicates of the arena: rectangle overlap, circle against
    rectangle, and the circle-against-circle hit test, all over exact reals. */
module Geometry {

  datatype Point = Point(x: real, y: real)

  /** An axis-aligned rectangle given by its top-left corner, width and height
      (screen coordinates: y grows downwards). */
  datatype Rect = Rect(x: real, y: real, w: real, h: real)

  function Min(a: real, b: real): (m: real)
    ensures m <= a && m <= b
    ensures m == a || m == b
  {
    if a <= b then a else b
  }

  function Max(a: real, b: real): (m: real)
    ensures m >= a && m >= b
    ensures m == a || m == b
  {
    if a >= b then a else b
  }

  /** `Math.max(lo, Math.min(v, hi))`: the point of `[lo, hi]` closest to `v`. */
  function Clamp(v: real, lo: real, hi: real): (r: real)
    ensures lo <= hi ==> lo <= r <= hi
    ensures lo <= v <= hi ==> r == v
    ensures lo <= hi && v < lo ==> r == lo
    ensures lo <= hi && v > hi ==> r == hi
  {
    Max(lo, Min(v, hi))
  }

  /** Strictly inside the rectangle. */
  predicate InOpen(p: Point, r: Rect) {
    r.x < p.x < r.x + r.w && r.y < p.y < r.y + r.h
  }

  /** Inside the rectangle or on its border. */
  predicate InClosed(p: Point, r: Rect) {
    r.x <= p.x <= r.x + r.w && r.y <= p.y <= r.y + r.h
  }

  function SqDist(p: Point, q: Point): real {
    (p.x - q.x) * (p.x - q.x) + (p.y - q.y) * (p.y - q.y)
  }

  /** Axis-aligned rectangle overlap with strict comparisons on all four sides.
      Rectangles that do not overlap share no interior point, whatever their size. */
  function RectOverlap(a: Rect, b: Rect): (o: bool)
    ensures !o ==> forall p :: InOpen(p, a) ==> !InOpen(p, b)
  {
    a.x < b.x + b.w && a.x + a.w > b.x && a.y < b.y + b.h && a.y + a.h > b.y
  }

  /** The point of the rectangle nearest to `c`, coordinate by coordinate. */
  function Nearest(c: Point, r: Rect): (n: Point)
    ensures r.w >= 0.0 && r.h >= 0.0 ==> InClosed(n, r)
    ensures InClosed(c, r) ==> n == c
  {
    Point(Clamp(c.x, r.x, r.x + r.w), Clamp(c.y, r.y, r.y + r.h))
  }

  /** Circle of radius `rad` centred at `c` against a rectangle: the nearest point of
      the rectangle is closer than the radius. A hit is genuine: some point of the
      closed rectangle lies within the radius. */
  function CircleRect(c: Point, rad: real, r: Rect): (hit: bool)
    ensures hit && r.w >= 0.0 && r.h >= 0.0 ==> exists p :: InClosed(p, r) && SqDist(c, p) < rad * rad
  {
    SqDist(c, Nearest(c, r)) < rad * rad
  }

  /** Two centres closer than `reach`, compared on squared distance. The source
      compares `Math.sqrt(dx*dx + dy*dy) < reach`; see `SquaredReachMatchesDistance`. */
  predicate WithinReach(p: Point, q: Point, reach: real) {
    SqDist(p, q) < reach * reach
  }

  lemma RectOverlapSymmetric(a: Rect, b: Rect)
    ensures RectOverlap(a, b) <==> RectOverlap(b, a)
  {
  }

  /** Rectangles that only share (part of) an edge do not overlap. */
  lemma SharedEdgeIsNoOverlap(a: Rect, b: Rect)
    requires a.x + a.w == b.x || b.x + b.w == a.x || a.y + a.h == b.y || b.y + b.h == a.y
    ensures !RectOverlap(a, b)
  {
  }

  /** For rectangles of positive size, overlap means exactly that some point lies
      strictly inside both. */
  lemma RectOverlapIffCommonPoint(a: Rect, b: Rect)
    requires a.w > 0.0 && a.h > 0.0 && b.w > 0.0 && b.h > 0.0
    ensures RectOverlap(a, b) <==> exists p :: InOpen(p, a) && InOpen(p, b)
  {
    if RectOverlap(a, b) {
      var lx, hx := Max(a.x, b.x), Min(a.x + a.w, b.x + b.w);
      var ly, hy := Max(a.y, b.y), Min(a.y + a.h, b.y + b.h);
      var p := Point((lx + hx) / 2.0, (ly + hy) / 2.0);
      assert InOpen(p, a) && InOpen(p, b);
    }
  }

  /** Squaring is monotone on non-negative reals. */
  lemma SquareMonotone(a: real, b: real)
    requires 0.0 <= a <= b
    ensures a * a <= b * b
  {
    assert a * a <= a * b;
    assert a * b <= b * b;
  }

  /** On one axis the clamped coordinate is at least as close to `v` as any
      coordinate of the interval. */
  lemma ClampIsClosest(v: real, lo: real, hi: real, q: real)
    requires lo <= q <= hi
    ensures (v - Clamp(v, lo, hi)) * (v - Clamp(v, lo, hi)) <= (v - q) * (v - q)
  {
    var n := Clamp(v, lo, hi);
    if v < lo {
      SquareMonotone(n - v, q - v);
    } else if v > hi {
      SquareMonotone(v - n, v - q);
    }
  }

  /** The nearest point of a rectangle is at least as close to `c` as every point of it. */
  lemma NearestIsClosest(c: Point, r: Rect)
    ensures forall p :: InClosed(p, r) ==> SqDist(c, Nearest(c, r)) <= SqDist(c, p)
  {
    forall p | InClosed(p, r)
      ensures SqDist(c, Nearest(c, r)) <= SqDist(c, p)
    {
      ClampIsClosest(c.x, r.x, r.x + r.w, p.x);
      ClampIsClosest(c.y, r.y, r.y + r.h, p.y);
    }
  }

  /** `circleRect` is the exact circle/rectangle intersection test: it holds iff some
      point of the (closed) rectangle lies strictly within the radius. */
  lemma CircleRectIffNearPoint(c: Point, rad: real, r: Rect)
    requires r.w >= 0.0 && r.h >= 0.0
    ensures CircleRect(c, rad, r) <==> exists p :: InClosed(p, r) && SqDist(c, p) < rad * rad
  {
    NearestIsClosest(c, r);
  }

  /** The squared comparison agrees with the source's square-root comparison: whenever
      `d` is the (non-negative) distance between the centres, `d < reach` holds iff the
      squared distance is below `reach * reach`. */
  lemma SquaredReachMatchesDistance(p: Point, q: Point, d: real, reach: real)
    requires d >= 0.0 && reach > 0.0 && d * d == SqDist(p, q)
    ensures d < reach <==> WithinReach(p, q, reach)
  {
    if d < reach {
      var dd, dr, rr := d * d, d * reach, reach * reach;
      assert dr < rr;
      assert dd <= dr;
      assert dd < rr;
    } else {
      SquareMonotone(reach, d);
    }
  }
}
