/** Side-effect-free spatial queries: bounding boxes, hit tests, resize handles.

    Distances are compared squared: `dist(...) < t` is `Within(sq, t)`, which
    holds exactly when `t > 0` and `sq < t * t`, because a square root is
    never negative. */
module Geometry {
  import opened Elements

  datatype BBox = BBox(x: real, y: real, width: real, height: real)

  /** The typed geometry of one element, per variant. */
  datatype Shape =
    | Rect(x: real, y: real, width: real, height: real)      // "rect" and every type not named below
    | Diamond(x: real, y: real, width: real, height: real)
    | Circle(x: real, y: real, width: real, height: real)
    | Text(x: real, y: real, width: real, height: real)      // a size of 0 stands for a falsy size
    | Image(x: real, y: real, width: real, height: real)     // a size of 0 stands for a falsy size
    | Arrow(x1: real, y1: real, x2: real, y2: real)
    | ArrowStart(x1: real, y1: real)                          // an arrow whose x2 or y2 is not a number
    | Freehand(points: seq<Point>)

  predicate IsNum(e: Element, key: string)
  {
    Field(e, key).Num?
  }

  /** A numeric property, or 0 when it is absent or not a number. */
  function NumOr0(e: Element, key: string): real
  {
    match Field(e, key)
    case Num(n) => n
    case _ => 0.0
  }

  /** The geometry the helpers read from an element.  None when the coordinates
      the variant needs are not numbers: every hit-test comparison the source
      makes with such coordinates is false (the resize handles of a box with
      numeric x and y but no numeric size are the exception; see
      `ElementBBox`).  An arrow with a numeric start and a
      non-numeric end is the exception: its box is NaN, but the distance test
      reads only the start, so it keeps a view of the start point alone. */
  function View(e: Element): Option<Shape>
  {
    var t := TypeOf(e);
    if t == "freehand" then
      Some(Freehand(if Field(e, "points").Points? then Field(e, "points").points else []))
    else if t == "arrow" then
      if IsNum(e, "x1") && IsNum(e, "y1") && IsNum(e, "x2") && IsNum(e, "y2")
      then Some(Arrow(NumOr0(e, "x1"), NumOr0(e, "y1"), NumOr0(e, "x2"), NumOr0(e, "y2")))
      else if IsNum(e, "x1") && IsNum(e, "y1") then Some(ArrowStart(NumOr0(e, "x1"), NumOr0(e, "y1")))
      else None
    else if !(IsNum(e, "x") && IsNum(e, "y")) then None
    else if t == "text" then Some(Text(NumOr0(e, "x"), NumOr0(e, "y"), NumOr0(e, "width"), NumOr0(e, "height")))
    else if t == "image" then Some(Image(NumOr0(e, "x"), NumOr0(e, "y"), NumOr0(e, "width"), NumOr0(e, "height")))
    else if !(IsNum(e, "width") && IsNum(e, "height")) then None
    else if t == "circle" then Some(Circle(NumOr0(e, "x"), NumOr0(e, "y"), NumOr0(e, "width"), NumOr0(e, "height")))
    else if t == "diamond" then Some(Diamond(NumOr0(e, "x"), NumOr0(e, "y"), NumOr0(e, "width"), NumOr0(e, "height")))
    else Some(Rect(NumOr0(e, "x"), NumOr0(e, "y"), NumOr0(e, "width"), NumOr0(e, "height")))
  }

  // ─── Point inside an axis-aligned rectangle ───────────────────────────

  /** Inclusive on all four edges. */
  predicate PointInRect(px: real, py: real, r: BBox)
  {
    px >= r.x && px <= r.x + r.width && py >= r.y && py <= r.y + r.height
  }

  lemma PointInRectIsClosed(r: BBox)
    requires r.width >= 0.0 && r.height >= 0.0
    ensures PointInRect(r.x, r.y, r) && PointInRect(r.x + r.width, r.y, r)
    ensures PointInRect(r.x, r.y + r.height, r) && PointInRect(r.x + r.width, r.y + r.height, r)
  {
  }

  // ─── Distances ────────────────────────────────────────────────────────

  function Sq(a: real): (r: real)
    ensures r >= 0.0
  {
    a * a
  }

  lemma PositiveSquare(a: real)
    requires a > 0.0
    ensures Sq(a) > 0.0
  {
    calc {
      Sq(a);
    ==
      a * a;
    >
      0.0;
    }
  }

  lemma SqPositive(a: real)
    requires a != 0.0
    ensures Sq(a) > 0.0
  {
    if a > 0.0 {
      PositiveSquare(a);
    } else {
      assert Sq(a) == Sq(-a);
      PositiveSquare(-a);
    }
  }

  /** The square of `dist(x1, y1, x2, y2)`. */
  function SqDist(x1: real, y1: real, x2: real, y2: real): (d: real)
    ensures d >= 0.0
  {
    Sq(x2 - x1) + Sq(y2 - y1)
  }

  /** `Math.sqrt(sq) < threshold` */
  predicate Within(sq: real, threshold: real)
  {
    threshold > 0.0 && sq < threshold * threshold
  }

  /** The point at parameter t along the segment from (x1, y1) to (x2, y2). */
  function SegmentPoint(x1: real, y1: real, x2: real, y2: real, t: real): Point
  {
    Point(x1 + t * (x2 - x1), y1 + t * (y2 - y1))
  }

  /** `Math.max(0, Math.min(1, t))` */
  function Clamp01(t: real): (r: real)
    ensures 0.0 <= r <= 1.0
    ensures 0.0 <= t <= 1.0 ==> r == t
  {
    Max(0.0, Min(1.0, t))
  }

  /** The squared length of a segment. */
  function LenSq(x1: real, y1: real, x2: real, y2: real): real
  {
    Sq(x2 - x1) + Sq(y2 - y1)
  }

  /** The dot product of (px - x1, py - y1) with the segment's direction. */
  function Dot(px: real, py: real, x1: real, y1: real, x2: real, y2: real): real
  {
    (px - x1) * (x2 - x1) + (py - y1) * (y2 - y1)
  }

  /** The parameter of the projection of (px, py) on the line through the segment. */
  function Projection(px: real, py: real, x1: real, y1: real, x2: real, y2: real): real
    requires LenSq(x1, y1, x2, y2) != 0.0
  {
    Dot(px, py, x1, y1, x2, y2) / LenSq(x1, y1, x2, y2)
  }

  /** The square of `distToSegment`: distance to the projection of the point
      on the segment, its parameter clamped to [0, 1]; a zero-length segment
      falls back to the distance to its first endpoint. */
  function SqDistToSegment(px: real, py: real, x1: real, y1: real, x2: real, y2: real): (d: real)
    ensures d >= 0.0
  {
    if LenSq(x1, y1, x2, y2) == 0.0 then SqDist(px, py, x1, y1)
    else
      var q := SegmentPoint(x1, y1, x2, y2, Clamp01(Projection(px, py, x1, y1, x2, y2)));
      SqDist(px, py, q.x, q.y)
  }

  /** A segment whose endpoints differ has a positive length. */
  lemma PositiveLength(x1: real, y1: real, x2: real, y2: real)
    requires x1 != x2 || y1 != y2
    ensures LenSq(x1, y1, x2, y2) > 0.0
  {
    if x1 != x2 {
      SqPositive(x2 - x1);
    } else {
      SqPositive(y2 - y1);
    }
  }

  /** Squared distance from (w1, w2) to (t * dx, t * dy): the distance from
      the point to the segment's point at parameter t, relative to (x1, y1). */
  function AlongSq(t: real, dx: real, dy: real, w1: real, w2: real): real
  {
    Sq(t * dx - w1) + Sq(t * dy - w2)
  }

  /** One coordinate of `SquareGap`. */
  lemma SquareGapAxis(u: real, v: real, d: real, w: real)
    ensures Sq(u * d - w) - Sq(v * d - w) == (u - v) * (u - v) * (d * d) + 2.0 * (u - v) * (v * (d * d) - w * d)
  {
    assert Sq(u * d - w) - Sq(v * d - w) == (u - v) * d * ((u + v) * d - 2.0 * w);
  }

  /** How much farther the point at parameter u is than the one at v, in
      terms of the squared length and the dot product. */
  function Gap(lenSq: real, dot: real, u: real, v: real): real
  {
    lenSq * (u - v) * (u - v) + 2.0 * (u - v) * (v * lenSq - dot)
  }

  lemma SquareGap(u: real, v: real, dx: real, dy: real, w1: real, w2: real, lenSq: real, dot: real)
    requires lenSq == dx * dx + dy * dy && dot == w1 * dx + w2 * dy
    ensures AlongSq(u, dx, dy, w1, w2) - AlongSq(v, dx, dy, w1, w2) == Gap(lenSq, dot, u, v)
  {
    SquareGapAxis(u, v, dx, w1);
    SquareGapAxis(u, v, dy, w2);
    var k := u - v;
    var a, b := v * (dx * dx) - w1 * dx, v * (dy * dy) - w2 * dy;
    assert a + b == v * lenSq - dot;
    assert 2.0 * k * a + 2.0 * k * b == 2.0 * k * (a + b);
    assert k * k * (dx * dx) + k * k * (dy * dy) == k * k * lenSq;
    assert lenSq * k * k == k * k * lenSq;
    assert AlongSq(u, dx, dy, w1, w2) - AlongSq(v, dx, dy, w1, w2)
        == (Sq(u * dx - w1) - Sq(v * dx - w1)) + (Sq(u * dy - w2) - Sq(v * dy - w2));
  }

  /** The sign argument behind the nearest point: moving from the clamped
      parameter towards any s in [0, 1] never brings the point closer. */
  lemma ClampedGapNonNegative(lenSq: real, dot: real, q: real, s: real)
    requires lenSq > 0.0 && dot == q * lenSq
    requires 0.0 <= s <= 1.0
    ensures Gap(lenSq, dot, s, Clamp01(q)) >= 0.0
  {
    var t := Clamp01(q);
    assert lenSq * (s - t) * (s - t) >= 0.0 by {
      assert Sq(s - t) >= 0.0;
      assert lenSq * Sq(s - t) >= 0.0;
    }
    if q < 0.0 {
      assert t == 0.0;
      assert dot < 0.0;
      assert (s - t) * (t * lenSq - dot) >= 0.0;
    } else if q > 1.0 {
      assert t == 1.0;
      assert dot > lenSq;
      assert (s - t) * (t * lenSq - dot) >= 0.0;
    } else {
      assert t == q;
      ProjectedGap(lenSq, dot, t, s);
    }
  }

  /** At the unclamped projection the cross term of the gap vanishes. */
  lemma ProjectedGap(lenSq: real, dot: real, t: real, s: real)
    requires dot == t * lenSq
    ensures Gap(lenSq, dot, s, t) == lenSq * (s - t) * (s - t)
  {
    var z := t * lenSq - dot;
    assert z == 0.0;
  }

  /** Squared distance to the point at parameter t, in the segment's own terms. */
  lemma SqDistAlong(px: real, py: real, x1: real, y1: real, x2: real, y2: real, t: real)
    ensures SqDist(px, py, SegmentPoint(x1, y1, x2, y2, t).x, SegmentPoint(x1, y1, x2, y2, t).y)
         == AlongSq(t, x2 - x1, y2 - y1, px - x1, py - y1)
  {
    var q := SegmentPoint(x1, y1, x2, y2, t);
    assert q.x - px == t * (x2 - x1) - (px - x1);
    assert q.y - py == t * (y2 - y1) - (py - y1);
  }

  /** The projection parameter times the squared length is the dot product. */
  lemma ProjectionScales(px: real, py: real, x1: real, y1: real, x2: real, y2: real)
    requires LenSq(x1, y1, x2, y2) != 0.0
    ensures Dot(px, py, x1, y1, x2, y2) == Projection(px, py, x1, y1, x2, y2) * LenSq(x1, y1, x2, y2)
  {
  }

  /** In the segment's own terms: the clamped parameter is no farther than any s in [0, 1]. */
  lemma ClampedAlongIsMinimal(dx: real, dy: real, w1: real, w2: real, lenSq: real, dot: real, q: real, s: real)
    requires lenSq == dx * dx + dy * dy && dot == w1 * dx + w2 * dy
    requires lenSq > 0.0 && dot == q * lenSq
    requires 0.0 <= s <= 1.0
    ensures AlongSq(Clamp01(q), dx, dy, w1, w2) <= AlongSq(s, dx, dy, w1, w2)
  {
    var t := Clamp01(q);
    SquareGap(s, t, dx, dy, w1, w2, lenSq, dot);
    ClampedGapNonNegative(lenSq, dot, q, s);
  }

  /** On a segment of positive length the clamped projection is the nearest point. */
  lemma ProperSegmentDistanceIsMinimal(px: real, py: real, x1: real, y1: real, x2: real, y2: real, s: real)
    requires x1 != x2 || y1 != y2
    requires 0.0 <= s <= 1.0
    ensures SqDistToSegment(px, py, x1, y1, x2, y2) <= SqDist(px, py, SegmentPoint(x1, y1, x2, y2, s).x, SegmentPoint(x1, y1, x2, y2, s).y)
  {
    PositiveLength(x1, y1, x2, y2);
    var dx, dy, w1, w2 := x2 - x1, y2 - y1, px - x1, py - y1;
    var lenSq, dot := LenSq(x1, y1, x2, y2), Dot(px, py, x1, y1, x2, y2);
    assert lenSq == dx * dx + dy * dy && dot == w1 * dx + w2 * dy;
    var q := Projection(px, py, x1, y1, x2, y2);
    assert dot == q * lenSq by {
      ProjectionScales(px, py, x1, y1, x2, y2);
    }
    ClampedAlongIsMinimal(dx, dy, w1, w2, lenSq, dot, q, s);
    var t := Clamp01(q);
    assert SqDistToSegment(px, py, x1, y1, x2, y2) == AlongSq(t, dx, dy, w1, w2) by {
      assert SqDistToSegment(px, py, x1, y1, x2, y2) == SqDist(px, py, SegmentPoint(x1, y1, x2, y2, t).x, SegmentPoint(x1, y1, x2, y2, t).y);
      SqDistAlong(px, py, x1, y1, x2, y2, t);
    }
    SqDistAlong(px, py, x1, y1, x2, y2, s);
  }

  /** The clamped projection is the point of the segment nearest to (px, py);
      a zero-length segment is the single point (x1, y1). */
  lemma SegmentDistanceIsMinimal(px: real, py: real, x1: real, y1: real, x2: real, y2: real, s: real)
    requires 0.0 <= s <= 1.0
    ensures SqDistToSegment(px, py, x1, y1, x2, y2) <= SqDist(px, py, SegmentPoint(x1, y1, x2, y2, s).x, SegmentPoint(x1, y1, x2, y2, s).y)
  {
    if x1 == x2 && y1 == y2 {
      assert LenSq(x1, y1, x2, y2) == 0.0;
      assert SegmentPoint(x1, y1, x2, y2, s) == Point(x1, y1);
    } else {
      ProperSegmentDistanceIsMinimal(px, py, x1, y1, x2, y2, s);
    }
  }

  /** `distToSegment`, returning the squared distance: the parameter `t` is
      computed, then clamped in place. */
  method DistToSegmentSq(px: real, py: real, x1: real, y1: real, x2: real, y2: real) returns (sq: real)
    ensures sq == SqDistToSegment(px, py, x1, y1, x2, y2)
    ensures forall s :: 0.0 <= s <= 1.0 ==>
      sq <= SqDist(px, py, SegmentPoint(x1, y1, x2, y2, s).x, SegmentPoint(x1, y1, x2, y2, s).y)
  {
    var lenSq := LenSq(x1, y1, x2, y2);
    if lenSq == 0.0 {
      sq := SqDist(px, py, x1, y1);
    } else {
      var t := Projection(px, py, x1, y1, x2, y2);
      t := Clamp01(t);
      var q := SegmentPoint(x1, y1, x2, y2, t);
      sq := SqDist(px, py, q.x, q.y);
    }
    forall s | 0.0 <= s <= 1.0
      ensures sq <= SqDist(px, py, SegmentPoint(x1, y1, x2, y2, s).x, SegmentPoint(x1, y1, x2, y2, s).y)
    {
      SegmentDistanceIsMinimal(px, py, x1, y1, x2, y2, s);
    }
  }

  // ─── Freehand paths ───────────────────────────────────────────────────

  /** Squared distance from (px, py) to the i-th segment of a polyline. */
  function SegmentSq(px: real, py: real, points: seq<Point>, i: nat): real
    requires i + 1 < |points|
  {
    SqDistToSegment(px, py, points[i].x, points[i].y, points[i + 1].x, points[i + 1].y)
  }

  /** Some segment of the polyline lies closer than `threshold`. */
  predicate NearPath(px: real, py: real, points: seq<Point>, threshold: real)
  {
    exists i: nat :: i + 1 < |points| && Within(SegmentSq(px, py, points, i), threshold)
  }

  /** `pointNearPath`: scans the segments in order and stops at the first
      one closer than the threshold. */
  method PointNearPath(px: real, py: real, points: seq<Point>, threshold: real) returns (near: bool)
    ensures near <==> NearPath(px, py, points, threshold)
    ensures |points| < 2 ==> !near
  {
    var i := 0;
    while i < |points| - 1
      invariant 0 <= i <= if |points| == 0 then 0 else |points| - 1
      invariant forall j: nat :: j < i ==> !Within(SegmentSq(px, py, points, j), threshold)
    {
      var d := DistToSegmentSq(px, py, points[i].x, points[i].y, points[i + 1].x, points[i + 1].y);
      if Within(d, threshold) {
        assert Within(SegmentSq(px, py, points, i), threshold);
        return true;
      }
      i := i + 1;
    }
    return false;
  }

  /** The point at parameter s of the i-th segment lies closer than `threshold`. */
  predicate NearSegmentPoint(px: real, py: real, points: seq<Point>, i: nat, s: real, threshold: real)
    requires i + 1 < |points|
  {
    var q := SegmentPoint(points[i].x, points[i].y, points[i + 1].x, points[i + 1].y, s);
    0.0 <= s <= 1.0 && Within(SqDist(px, py, q.x, q.y), threshold)
  }

  /** The distance to a segment is the distance to one of its points. */
  lemma SegmentDistanceIsAttained(px: real, py: real, x1: real, y1: real, x2: real, y2: real)
    ensures exists t :: 0.0 <= t <= 1.0 && SqDistToSegment(px, py, x1, y1, x2, y2)
                                          == SqDist(px, py, SegmentPoint(x1, y1, x2, y2, t).x, SegmentPoint(x1, y1, x2, y2, t).y)
  {
    if LenSq(x1, y1, x2, y2) == 0.0 {
      assert SegmentPoint(x1, y1, x2, y2, 0.0) == Point(x1, y1);
    } else {
      var t := Clamp01(Projection(px, py, x1, y1, x2, y2));
      assert SqDistToSegment(px, py, x1, y1, x2, y2) == SqDist(px, py, SegmentPoint(x1, y1, x2, y2, t).x, SegmentPoint(x1, y1, x2, y2, t).y);
    }
  }

  /** A path is near exactly when some point on one of its segments is:
      `distToSegment` measures the true distance to the polyline. */
  lemma {:induction false} NearPathIsNearSomePoint(px: real, py: real, points: seq<Point>, threshold: real)
    ensures NearPath(px, py, points, threshold)
        <==> exists i: nat, s: real :: i + 1 < |points| && NearSegmentPoint(px, py, points, i, s, threshold)
  {
    if NearPath(px, py, points, threshold) {
      var i: nat :| i + 1 < |points| && Within(SegmentSq(px, py, points, i), threshold);
      var a, b := points[i], points[i + 1];
      SegmentDistanceIsAttained(px, py, a.x, a.y, b.x, b.y);
      var t :| 0.0 <= t <= 1.0 && SqDistToSegment(px, py, a.x, a.y, b.x, b.y)
                                  == SqDist(px, py, SegmentPoint(a.x, a.y, b.x, b.y, t).x, SegmentPoint(a.x, a.y, b.x, b.y, t).y);
      assert NearSegmentPoint(px, py, points, i, t, threshold);
    }
    if exists i: nat, s: real :: i + 1 < |points| && NearSegmentPoint(px, py, points, i, s, threshold) {
      var i: nat, s: real :| i + 1 < |points| && NearSegmentPoint(px, py, points, i, s, threshold);
      var a, b := points[i], points[i + 1];
      SegmentDistanceIsMinimal(px, py, a.x, a.y, b.x, b.y, s);
      assert Within(SegmentSq(px, py, points, i), threshold);
    }
  }

  // ─── Bounding boxes ───────────────────────────────────────────────────

  /** Extreme coordinates of a set of points. */
  datatype Bounds = Bounds(minX: real, minY: real, maxX: real, maxY: real)

  predicate InBounds(b: Bounds, p: Point)
  {
    b.minX <= p.x <= b.maxX && b.minY <= p.y <= b.maxY
  }

  /** The min/max of the coordinates, accumulated point by point. */
  function Extent(points: seq<Point>): (b: Bounds)
    requires |points| > 0
    ensures forall i :: 0 <= i < |points| ==> InBounds(b, points[i])
  {
    var n := |points|;
    var p := points[n - 1];
    if n == 1 then Bounds(p.x, p.y, p.x, p.y)
    else
      var b := Extent(points[..n - 1]);
      assert forall i :: 0 <= i < n - 1 ==> points[..n - 1][i] == points[i];
      Bounds(Min(b.minX, p.x), Min(b.minY, p.y), Max(b.maxX, p.x), Max(b.maxY, p.y))
  }

  /** Each extreme of the extent is the coordinate of some point. */
  lemma {:induction false} ExtentIsAttained(points: seq<Point>)
    requires |points| > 0
    ensures exists i :: 0 <= i < |points| && points[i].x == Extent(points).minX
    ensures exists i :: 0 <= i < |points| && points[i].y == Extent(points).minY
    ensures exists i :: 0 <= i < |points| && points[i].x == Extent(points).maxX
    ensures exists i :: 0 <= i < |points| && points[i].y == Extent(points).maxY
  {
    var n := |points|;
    if n > 1 {
      var init := points[..n - 1];
      ExtentIsAttained(init);
      var b := Extent(init);
      var i1 :| 0 <= i1 < n - 1 && init[i1].x == b.minX;
      var i2 :| 0 <= i2 < n - 1 && init[i2].y == b.minY;
      var i3 :| 0 <= i3 < n - 1 && init[i3].x == b.maxX;
      var i4 :| 0 <= i4 < n - 1 && init[i4].y == b.maxY;
      assert points[i1] == init[i1] && points[i2] == init[i2] && points[i3] == init[i3] && points[i4] == init[i4];
      var p, e := points[n - 1], Extent(points);
      assert e == Bounds(Min(b.minX, p.x), Min(b.minY, p.y), Max(b.maxX, p.x), Max(b.maxY, p.y));
      if b.minX <= p.x { assert points[i1].x == e.minX; } else { assert points[n - 1].x == e.minX; }
      if b.minY <= p.y { assert points[i2].y == e.minY; } else { assert points[n - 1].y == e.minY; }
      if b.maxX >= p.x { assert points[i3].x == e.maxX; } else { assert points[n - 1].x == e.maxX; }
      if b.maxY >= p.y { assert points[i4].y == e.maxY; } else { assert points[n - 1].y == e.maxY; }
    } else {
      assert points[0].x == Extent(points).minX && points[0].y == Extent(points).minY;
      assert points[0].x == Extent(points).maxX && points[0].y == Extent(points).maxY;
    }
  }

  /** `bboxFromPoints`: the zero box for no points, otherwise the extent
      padded by 4 on every side. */
  function PointsBBox(points: seq<Point>): (r: BBox)
    ensures |points| == 0 ==> r == BBox(0.0, 0.0, 0.0, 0.0)
    ensures forall i :: 0 <= i < |points| ==>
      r.x + 4.0 <= points[i].x <= r.x + r.width - 4.0 && r.y + 4.0 <= points[i].y <= r.y + r.height - 4.0
  {
    if |points| == 0 then BBox(0.0, 0.0, 0.0, 0.0)
    else
      var b := Extent(points);
      BBox(b.minX - 4.0, b.minY - 4.0, b.maxX - b.minX + 8.0, b.maxY - b.minY + 8.0)
  }

  /** The padded box is tight: each of its four edges lies exactly 4 beyond
      some point, so no smaller box holds all the points with that margin. */
  lemma PointsBBoxIsTight(points: seq<Point>)
    requires |points| > 0
    ensures exists i :: 0 <= i < |points| && points[i].x == PointsBBox(points).x + 4.0
    ensures exists i :: 0 <= i < |points| && points[i].y == PointsBBox(points).y + 4.0
    ensures exists i :: 0 <= i < |points| && points[i].x == PointsBBox(points).x + PointsBBox(points).width - 4.0
    ensures exists i :: 0 <= i < |points| && points[i].y == PointsBBox(points).y + PointsBBox(points).height - 4.0
  {
    ExtentIsAttained(points);
    var b, r := Extent(points), PointsBBox(points);
    assert r.x + 4.0 == b.minX && r.y + 4.0 == b.minY;
    assert r.x + r.width - 4.0 == b.maxX && r.y + r.height - 4.0 == b.maxY;
  }

  /** `bboxFromPoints` as the source runs it: one pass keeping the running
      extremes.  The source starts them at plus and minus Infinity, so its
      first iteration sets all four to the first point; the loop here starts
      from that state. */
  method BBoxFromPoints(points: seq<Point>) returns (bb: BBox)
    ensures bb == PointsBBox(points)
  {
    if |points| == 0 {
      return BBox(0.0, 0.0, 0.0, 0.0);
    }
    var minX, minY, maxX, maxY := points[0].x, points[0].y, points[0].x, points[0].y;
    var i := 1;
    while i < |points|
      invariant 1 <= i <= |points|
      invariant Bounds(minX, minY, maxX, maxY) == Extent(points[..i])
    {
      var p := points[i];
      assert points[..i + 1][..i] == points[..i];
      if p.x < minX { minX := p.x; }
      if p.y < minY { minY := p.y; }
      if p.x > maxX { maxX := p.x; }
      if p.y > maxY { maxY := p.y; }
      i := i + 1;
    }
    assert points[..i] == points;
    bb := BBox(minX - 4.0, minY - 4.0, maxX - minX + 8.0, maxY - minY + 8.0);
  }

  /** `bboxFromArrow`: both endpoints with 6 units of padding. */
  function ArrowBBox(x1: real, y1: real, x2: real, y2: real): (r: BBox)
    ensures r.x + 6.0 <= x1 <= r.x + r.width - 6.0 && r.x + 6.0 <= x2 <= r.x + r.width - 6.0
    ensures r.y + 6.0 <= y1 <= r.y + r.height - 6.0 && r.y + 6.0 <= y2 <= r.y + r.height - 6.0
  {
    var minX, minY := Min(x1, x2), Min(y1, y2);
    var maxX, maxY := Max(x1, x2), Max(y1, y2);
    BBox(minX - 6.0, minY - 6.0, maxX - minX + 12.0, maxY - minY + 12.0)
  }

  lemma ArrowBBoxSymmetric(x1: real, y1: real, x2: real, y2: real)
    ensures ArrowBBox(x1, y1, x2, y2) == ArrowBBox(x2, y2, x1, y1)
  {
  }

  /** The per-variant bounding box of a shape. */
  function ShapeBBox(s: Shape): (r: BBox)
    requires !s.ArrowStart?
    ensures (s.Rect? || s.Diamond? || s.Circle?) ==> r == BBox(s.x, s.y, s.width, s.height)
    ensures (s.Text? || s.Image?) ==> r.x == s.x && r.y == s.y
    ensures s.Text? && s.width == 0.0 ==> r.width == 120.0
    ensures s.Text? && s.height == 0.0 ==> r.height == 30.0
    ensures s.Image? && s.width == 0.0 ==> r.width == 100.0
    ensures s.Image? && s.height == 0.0 ==> r.height == 100.0
    ensures (s.Text? || s.Image?) && s.width != 0.0 ==> r.width == s.width
    ensures (s.Text? || s.Image?) && s.height != 0.0 ==> r.height == s.height
    ensures s.Freehand? ==> forall i :: 0 <= i < |s.points| ==> PointInRect(s.points[i].x, s.points[i].y, r)
    ensures s.Arrow? ==> PointInRect(s.x1, s.y1, r) && PointInRect(s.x2, s.y2, r)
  {
    match s
    case Freehand(points) => PointsBBox(points)
    case Arrow(x1, y1, x2, y2) => ArrowBBox(x1, y1, x2, y2)
    case Text(x, y, w, h) => BBox(x, y, if w == 0.0 then 120.0 else w, if h == 0.0 then 30.0 else h)
    case Image(x, y, w, h) => BBox(x, y, if w == 0.0 then 100.0 else w, if h == 0.0 then 100.0 else h)
    case Rect(x, y, w, h) => BBox(x, y, w, h)
    case Diamond(x, y, w, h) => BBox(x, y, w, h)
    case Circle(x, y, w, h) => BBox(x, y, w, h)
  }

  /** `elementBBox`: null for no element.  The NaN box of an arrow without a
      numeric end is no box here: no point lies inside either. */
  function ElementBBox(e: Option<Element>): (r: Option<BBox>)
    ensures e.None? ==> r.None?
    ensures e.Some? && View(e.value).Some? && !View(e.value).value.ArrowStart? ==> r == Some(ShapeBBox(View(e.value).value))
    ensures e.Some? && View(e.value).Some? && View(e.value).value.ArrowStart? ==> r.None?
  {
    match e
    case None => None
    case Some(el) =>
      match View(el)
      case None => None
      case Some(s) => if s.ArrowStart? then None else Some(ShapeBBox(s))
  }

  // ─── Hit tests ────────────────────────────────────────────────────────

  function HitShape(px: real, py: real, s: Shape): bool
  {
    match s
    case Freehand(points) =>
      PointInRect(px, py, ShapeBBox(s)) && NearPath(px, py, points, 8.0)
    case Circle(x, y, w, h) =>
      // a zero radius divides by zero: NaN or Infinity, never <= 1.15
      if w == 0.0 || h == 0.0 then false
      else
        var dx := (px - (x + w / 2.0)) / (w / 2.0);
        var dy := (py - (y + h / 2.0)) / (h / 2.0);
        dx * dx + dy * dy <= 1.15
    case Diamond(x, y, w, h) =>
      if w == 0.0 || h == 0.0 then false
      else Abs(px - (x + w / 2.0)) / (w / 2.0) + Abs(py - (y + h / 2.0)) / (h / 2.0) <= 1.1
    case Arrow(x1, y1, x2, y2) =>
      // dist(px, py, x1, y1, x2, y2) reads only its first four arguments
      Within(SqDist(px, py, x1, y1), 8.0) || PointInRect(px, py, ShapeBBox(s))
    case ArrowStart(x1, y1) =>
      // the NaN box from a non-numeric end contains no point
      Within(SqDist(px, py, x1, y1), 8.0)
    case Rect(_, _, _, _) => PointInRect(px, py, ShapeBBox(s))
    case Text(_, _, _, _) => PointInRect(px, py, ShapeBBox(s))
    case Image(_, _, _, _) => PointInRect(px, py, ShapeBBox(s))
  }

  /** `hitTest` */
  predicate HitTest(px: real, py: real, e: Element)
  {
    match View(e)
    case None => false
    case Some(s) => HitShape(px, py, s)
  }

  /** Rectangles, text and images are hit exactly inside their bounding box. */
  lemma BoxHitIsPointInRect(px: real, py: real, e: Element)
    requires View(e).Some? && (View(e).value.Rect? || View(e).value.Text? || View(e).value.Image?)
    ensures HitTest(px, py, e) <==> PointInRect(px, py, ElementBBox(Some(e)).value)
  {
  }

  /** A freehand stroke is hit only inside its padded box and within 8 of a segment. */
  lemma FreehandHitIsNearSegment(px: real, py: real, e: Element)
    requires View(e).Some? && View(e).value.Freehand?
    ensures HitTest(px, py, e) <==>
      PointInRect(px, py, ElementBBox(Some(e)).value) &&
      exists i: nat :: i + 1 < |View(e).value.points| && SegmentSq(px, py, View(e).value.points, i) < 64.0
  {
  }

  /** An arrow is hit within 8 of its start point whatever its end point. */
  lemma {:induction false} ArrowHitNearStart(px: real, py: real, x1: real, y1: real, x2: real, y2: real)
    requires SqDist(px, py, x1, y1) < 64.0
    ensures HitShape(px, py, Arrow(x1, y1, x2, y2))
  {
  }

  /** An arrow whose end is not a number is hit exactly within 8 of its
      start, e.g. `{type: 'arrow', x1: 0, y1: 0}` at (0, 0). */
  lemma ArrowWithoutEndHit(px: real, py: real, e: Element)
    requires TypeOf(e) == "arrow" && IsNum(e, "x1") && IsNum(e, "y1")
    requires !IsNum(e, "x2") || !IsNum(e, "y2")
    ensures HitTest(px, py, e) <==> SqDist(px, py, Field(e, "x1").n, Field(e, "y1").n) < 64.0
    ensures ElementBBox(Some(e)).None?
  {
  }

  lemma ArrowHit(px: real, py: real, x1: real, y1: real, x2: real, y2: real)
    ensures HitShape(px, py, Arrow(x1, y1, x2, y2))
        <==> Within(SqDist(px, py, x1, y1), 8.0) || PointInRect(px, py, ArrowBBox(x1, y1, x2, y2))
  {
  }

  /** The point (50, 7) lies 7 units from the segment (0, 0)-(100, 0). */
  lemma BesideTheMiddle()
    ensures SqDistToSegment(50.0, 7.0, 0.0, 0.0, 100.0, 0.0) == 49.0
  {
    assert LenSq(0.0, 0.0, 100.0, 0.0) == 10000.0 by {
      assert Sq(100.0) == 10000.0 && Sq(0.0) == 0.0;
    }
    assert Projection(50.0, 7.0, 0.0, 0.0, 100.0, 0.0) == 0.5;
    assert SegmentPoint(0.0, 0.0, 100.0, 0.0, 0.5) == Point(50.0, 0.0);
    assert SqDist(50.0, 7.0, 50.0, 0.0) == 49.0 by {
      assert Sq(0.0) == 0.0 && Sq(-7.0) == 49.0;
    }
  }

  /** The arrow test measures the distance to the start point only: a point
      7 units beside the middle of a long horizontal arrow is not hit. */
  lemma ArrowMissesBesideItsMiddle()
    ensures SqDistToSegment(50.0, 7.0, 0.0, 0.0, 100.0, 0.0) == 49.0
    ensures !HitShape(50.0, 7.0, Arrow(0.0, 0.0, 100.0, 0.0))
  {
    BesideTheMiddle();
    ArrowHit(50.0, 7.0, 0.0, 0.0, 100.0, 0.0);
    assert SqDist(50.0, 7.0, 0.0, 0.0) == 2549.0 by {
      assert Sq(-50.0) == 2500.0 && Sq(-7.0) == 49.0;
    }
    assert !Within(2549.0, 8.0);
    assert ArrowBBox(0.0, 0.0, 100.0, 0.0) == BBox(-6.0, -6.0, 112.0, 12.0) by {
      assert Min(0.0, 100.0) == 0.0 && Max(0.0, 100.0) == 100.0 && Min(0.0, 0.0) == 0.0 && Max(0.0, 0.0) == 0.0;
    }
    assert !PointInRect(50.0, 7.0, BBox(-6.0, -6.0, 112.0, 12.0));
  }

  /** The centre of a circle or diamond with non-zero size is hit; so are the
      four vertices of a diamond. */
  lemma CentreHits(x: real, y: real, w: real, h: real)
    requires w != 0.0 && h != 0.0
    ensures HitShape(x + w / 2.0, y + h / 2.0, Circle(x, y, w, h))
    ensures HitShape(x + w / 2.0, y + h / 2.0, Diamond(x, y, w, h))
    ensures HitShape(x, y + h / 2.0, Diamond(x, y, w, h))
    ensures HitShape(x + w / 2.0, y, Diamond(x, y, w, h))
  {
    var hw, hh := w / 2.0, h / 2.0;
    assert (x + hw - (x + hw)) / hw == 0.0 && (y + hh - (y + hh)) / hh == 0.0;
    AbsOverSelf(hw);
    AbsOverSelf(hh);
    assert x - (x + hw) == -hw && y - (y + hh) == -hh;
  }

  lemma AbsOverSelf(a: real)
    requires a != 0.0
    ensures Abs(-a) / a <= 1.0
  {
    if a < 0.0 {
      assert Abs(-a) == -a;
      assert (-a) / a == -1.0;
    } else {
      assert Abs(-a) == a;
      assert a / a == 1.0;
    }
  }

  // ─── Translation ──────────────────────────────────────────────────────

  function ShiftPoints(points: seq<Point>, dx: real, dy: real): (r: seq<Point>)
    ensures |r| == |points|
    ensures forall i :: 0 <= i < |points| ==> r[i] == Point(points[i].x + dx, points[i].y + dy)
  {
    seq(|points|, i requires 0 <= i < |points| => Point(points[i].x + dx, points[i].y + dy))
  }

  function TranslateShape(s: Shape, dx: real, dy: real): Shape
  {
    match s
    case Freehand(points) => Freehand(ShiftPoints(points, dx, dy))
    case Arrow(x1, y1, x2, y2) => Arrow(x1 + dx, y1 + dy, x2 + dx, y2 + dy)
    case ArrowStart(x1, y1) => ArrowStart(x1 + dx, y1 + dy)
    case Rect(x, y, w, h) => Rect(x + dx, y + dy, w, h)
    case Diamond(x, y, w, h) => Diamond(x + dx, y + dy, w, h)
    case Circle(x, y, w, h) => Circle(x + dx, y + dy, w, h)
    case Text(x, y, w, h) => Text(x + dx, y + dy, w, h)
    case Image(x, y, w, h) => Image(x + dx, y + dy, w, h)
  }

  lemma {:induction false} ExtentShifts(points: seq<Point>, dx: real, dy: real)
    requires |points| > 0
    ensures Extent(ShiftPoints(points, dx, dy))
         == Bounds(Extent(points).minX + dx, Extent(points).minY + dy, Extent(points).maxX + dx, Extent(points).maxY + dy)
  {
    var n := |points|;
    var moved := ShiftPoints(points, dx, dy);
    assert moved[n - 1] == Point(points[n - 1].x + dx, points[n - 1].y + dy);
    if n > 1 {
      assert moved[..n - 1] == ShiftPoints(points[..n - 1], dx, dy);
      ExtentShifts(points[..n - 1], dx, dy);
    }
  }

  /** Translating a shape translates its bounding box and keeps its size. */
  lemma {:induction false} ShapeBBoxShifts(s: Shape, dx: real, dy: real)
    requires !s.ArrowStart?
    requires s.Freehand? ==> |s.points| > 0
    ensures ShapeBBox(TranslateShape(s, dx, dy))
         == BBox(ShapeBBox(s).x + dx, ShapeBBox(s).y + dy, ShapeBBox(s).width, ShapeBBox(s).height)
  {
    match s
    case Freehand(points) =>
      var moved := ShiftPoints(points, dx, dy);
      if |points| > 0 {
        ExtentShifts(points, dx, dy);
        var b, m := Extent(points), Extent(moved);
        assert PointsBBox(moved) == BBox(m.minX - 4.0, m.minY - 4.0, m.maxX - m.minX + 8.0, m.maxY - m.minY + 8.0);
        assert PointsBBox(points) == BBox(b.minX - 4.0, b.minY - 4.0, b.maxX - b.minX + 8.0, b.maxY - b.minY + 8.0);
      }
    case _ =>
  }

  /** The segment distance in coordinates relative to the segment's start. */
  function RelativeSegmentSq(w1: real, w2: real, dx: real, dy: real): real
  {
    if Sq(dx) + Sq(dy) == 0.0 then Sq(w1) + Sq(w2)
    else AlongSq(Clamp01((w1 * dx + w2 * dy) / (Sq(dx) + Sq(dy))), dx, dy, w1, w2)
  }

  lemma SqNeg(a: real)
    ensures Sq(-a) == Sq(a)
  {
  }

  lemma SegmentSqRelative(px: real, py: real, x1: real, y1: real, x2: real, y2: real)
    ensures SqDistToSegment(px, py, x1, y1, x2, y2) == RelativeSegmentSq(px - x1, py - y1, x2 - x1, y2 - y1)
  {
    if LenSq(x1, y1, x2, y2) == 0.0 {
      SqNeg(px - x1);
      SqNeg(py - y1);
      assert x1 - px == -(px - x1) && y1 - py == -(py - y1);
    } else {
      SqDistAlong(px, py, x1, y1, x2, y2, Clamp01(Projection(px, py, x1, y1, x2, y2)));
    }
  }

  lemma SegmentSqShifts(px: real, py: real, x1: real, y1: real, x2: real, y2: real, dx: real, dy: real)
    ensures SqDistToSegment(px + dx, py + dy, x1 + dx, y1 + dy, x2 + dx, y2 + dy) == SqDistToSegment(px, py, x1, y1, x2, y2)
  {
    SegmentSqRelative(px, py, x1, y1, x2, y2);
    SegmentSqRelative(px + dx, py + dy, x1 + dx, y1 + dy, x2 + dx, y2 + dy);
    assert (x2 + dx) - (x1 + dx) == x2 - x1;
    assert (y2 + dy) - (y1 + dy) == y2 - y1;
    assert (px + dx) - (x1 + dx) == px - x1;
    assert (py + dy) - (y1 + dy) == py - y1;
  }

  lemma {:induction false} NearPathShifts(px: real, py: real, points: seq<Point>, dx: real, dy: real)
    ensures NearPath(px + dx, py + dy, ShiftPoints(points, dx, dy), 8.0) == NearPath(px, py, points, 8.0)
  {
    var moved := ShiftPoints(points, dx, dy);
    forall i: nat | i + 1 < |points|
      ensures SegmentSq(px + dx, py + dy, moved, i) == SegmentSq(px, py, points, i)
    {
      SegmentSqShifts(px, py, points[i].x, points[i].y, points[i + 1].x, points[i + 1].y, dx, dy);
    }
    if NearPath(px, py, points, 8.0) {
      var i: nat :| i + 1 < |points| && Within(SegmentSq(px, py, points, i), 8.0);
      assert Within(SegmentSq(px + dx, py + dy, moved, i), 8.0);
    }
    if NearPath(px + dx, py + dy, moved, 8.0) {
      var i: nat :| i + 1 < |moved| && Within(SegmentSq(px + dx, py + dy, moved, i), 8.0);
      assert Within(SegmentSq(px, py, points, i), 8.0);
    }
  }

  lemma SqDistShifts(x1: real, y1: real, x2: real, y2: real, dx: real, dy: real)
    ensures SqDist(x1 + dx, y1 + dy, x2 + dx, y2 + dy) == SqDist(x1, y1, x2, y2)
  {
    assert (x2 + dx) - (x1 + dx) == x2 - x1;
    assert (y2 + dy) - (y1 + dy) == y2 - y1;
  }

  /** The pointer's offset from a box's centre does not change when both move. */
  lemma CentreOffsetShifts(px: real, py: real, x: real, y: real, w: real, h: real, dx: real, dy: real)
    ensures (px + dx) - ((x + dx) + w / 2.0) == px - (x + w / 2.0)
    ensures (py + dy) - ((y + dy) + h / 2.0) == py - (y + h / 2.0)
  {
  }

  /** A translated shape is hit at the translated point exactly where the
      original is hit. */
  lemma {:induction false} HitShapeShifts(px: real, py: real, s: Shape, dx: real, dy: real)
    ensures HitShape(px + dx, py + dy, TranslateShape(s, dx, dy)) == HitShape(px, py, s)
  {
    if s.Circle? || s.Diamond? {
      CentreHitShifts(px, py, s, dx, dy);
    } else if s.Freehand? {
      StrokeHitShifts(px, py, s, dx, dy);
    } else if s.ArrowStart? {
      SqDistShifts(px, py, s.x1, s.y1, dx, dy);
    } else {
      BoxHitShifts(px, py, s, dx, dy);
    }
  }

  lemma PointInRectShifts(px: real, py: real, b: BBox, dx: real, dy: real)
    ensures PointInRect(px + dx, py + dy, BBox(b.x + dx, b.y + dy, b.width, b.height)) == PointInRect(px, py, b)
  {
  }

  lemma CentreHitShifts(px: real, py: real, s: Shape, dx: real, dy: real)
    requires s.Circle? || s.Diamond?
    ensures HitShape(px + dx, py + dy, TranslateShape(s, dx, dy)) == HitShape(px, py, s)
  {
    CentreOffsetShifts(px, py, s.x, s.y, s.width, s.height, dx, dy);
  }

  lemma StrokeHitShifts(px: real, py: real, s: Shape, dx: real, dy: real)
    requires s.Freehand?
    ensures HitShape(px + dx, py + dy, TranslateShape(s, dx, dy)) == HitShape(px, py, s)
  {
    if |s.points| > 0 {
      ShapeBBoxShifts(s, dx, dy);
      PointInRectShifts(px, py, ShapeBBox(s), dx, dy);
      NearPathShifts(px, py, s.points, dx, dy);
    }
  }

  lemma BoxHitShifts(px: real, py: real, s: Shape, dx: real, dy: real)
    requires !s.Circle? && !s.Diamond? && !s.Freehand? && !s.ArrowStart?
    ensures HitShape(px + dx, py + dy, TranslateShape(s, dx, dy)) == HitShape(px, py, s)
  {
    ShapeBBoxShifts(s, dx, dy);
    PointInRectShifts(px, py, ShapeBBox(s), dx, dy);
    if s.Arrow? {
      SqDistShifts(px, py, s.x1, s.y1, dx, dy);
    }
  }

  // ─── Resize handles ───────────────────────────────────────────────────

  datatype Handle = Handle(id: string, x: real, y: real)

  function HandleIds(hs: seq<Handle>): (ids: seq<string>)
    ensures |ids| == |hs|
  {
    seq(|hs|, i requires 0 <= i < |hs| => hs[i].id)
  }

  /** `getResizeHandles`: none for no box, otherwise the corners and edge
      midpoints in the order nw, n, ne, e, se, s, sw, w. */
  function ResizeHandles(bb: Option<BBox>): (hs: seq<Handle>)
    ensures bb.None? ==> hs == []
    ensures bb.Some? ==> HandleIds(hs) == ["nw", "n", "ne", "e", "se", "s", "sw", "w"]
  {
    match bb
    case None => []
    case Some(b) =>
      [ Handle("nw", b.x, b.y),
        Handle("n", b.x + b.width / 2.0, b.y),
        Handle("ne", b.x + b.width, b.y),
        Handle("e", b.x + b.width, b.y + b.height / 2.0),
        Handle("se", b.x + b.width, b.y + b.height),
        Handle("s", b.x + b.width / 2.0, b.y + b.height),
        Handle("sw", b.x, b.y + b.height),
        Handle("w", b.x, b.y + b.height / 2.0) ]
  }

  /** Each handle sits on the edges its compass letters name: the west edge
      for 'w', the east edge for 'e', the north edge for 'n', the south edge
      for 's', and midway along an axis its id does not name. */
  lemma {:induction false} HandlesFollowCompass(b: BBox, k: nat)
    requires k < 8
    ensures var h := ResizeHandles(Some(b))[k];
      && ('w' in h.id ==> h.x == b.x)
      && ('e' in h.id ==> h.x == b.x + b.width)
      && ('e' !in h.id && 'w' !in h.id ==> h.x == b.x + b.width / 2.0)
      && ('n' in h.id ==> h.y == b.y)
      && ('s' in h.id ==> h.y == b.y + b.height)
      && ('n' !in h.id && 's' !in h.id ==> h.y == b.y + b.height / 2.0)
  {
    var hs := ResizeHandles(Some(b));
    assert hs[k].id == HandleIds(hs)[k];
    var id := hs[k].id;
    if k == 0 { assert id == "nw" && id[0] == 'n' && id[1] == 'w'; }
    else if k == 1 { assert id == "n" && id[0] == 'n'; }
    else if k == 2 { assert id == "ne" && id[0] == 'n' && id[1] == 'e'; }
    else if k == 3 { assert id == "e" && id[0] == 'e'; }
    else if k == 4 { assert id == "se" && id[0] == 's' && id[1] == 'e'; }
    else if k == 5 { assert id == "s" && id[0] == 's'; }
    else if k == 6 { assert id == "sw" && id[0] == 's' && id[1] == 'w'; }
    else { assert id == "w" && id[0] == 'w'; }
  }

  // ─── Grid snapping ────────────────────────────────────────────────────

  /** `Math.round`: halves round toward positive infinity. */
  function Round(v: real): int
  {
    (v + 0.5).Floor
  }

  /** `snap(val, size)` */
  function Snap(val: real, size: real): real
    requires size != 0.0
  {
    (Round(val / size) as real) * size
  }

  /** A snapped value is a whole multiple of the grid size and lies within
      half a grid step of the input. */
  lemma {:induction false} SnapIsNearestMultiple(val: real, size: real)
    requires size != 0.0
    ensures Snap(val, size) == (Round(val / size) as real) * size
    ensures Abs(Snap(val, size) - val) <= Abs(size) / 2.0
  {
    var q := val / size;
    var k := Round(q) as real;
    assert k <= q + 0.5 < k + 1.0;
    assert val == q * size;
    var diff := k - q;
    assert -0.5 < diff <= 0.5;
    assert Snap(val, size) - val == diff * size;
    if size > 0.0 {
      if diff >= 0.0 { assert diff * size <= 0.5 * size; }
      else { assert -(diff * size) < 0.5 * size; }
    } else {
      if diff >= 0.0 { assert -(diff * size) <= 0.5 * (-size); }
      else { assert diff * size < 0.5 * (-size); }
    }
  }
}
