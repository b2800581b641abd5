/**
 Polygon geometry of the gate builder: the area-weighted centroid of a
 polygon by the triangle fan from the origin (the shoelace decomposition),
 and scaling of a polygon about that centroid.
 */
module Geometry {
  import opened Common

  /** The z-component of the cross product of two plane vectors. */
  function Cross(p: Point, q: Point): real
  {
    p.x0 * q.x1 - p.x1 * q.x0
  }

  function Add(p: Point, q: Point): Point
  {
    Point(p.x0 + q.x0, p.x1 + q.x1)
  }

  function Sub(p: Point, q: Point): Point
  {
    Point(p.x0 - q.x0, p.x1 - q.x1)
  }

  function Scale(s: real, p: Point): Point
  {
    Point(s * p.x0, s * p.x1)
  }

  /** The vertex after vertex `k`, wrapping around (`np.roll(polygon, -1, axis=0)[k]`). */
  function Next(poly: seq<Point>, k: nat): Point
    requires k < |poly|
  {
    poly[(k + 1) % |poly|]
  }

  /** The signed area of the fan triangle origin, vertex k, vertex k + 1. */
  function TriangleArea(poly: seq<Point>, k: nat): real
    requires k < |poly|
  {
    0.5 * Cross(poly[k], Next(poly, k))
  }

  /** The centroid of that triangle: the origin contributes nothing. */
  function TriangleCentroid(poly: seq<Point>, k: nat): Point
    requires k < |poly|
  {
    Point((poly[k].x0 + Next(poly, k).x0) / 3.0, (poly[k].x1 + Next(poly, k).x1) / 3.0)
  }

  /** The sum of the first `n` fan triangles' signed areas. */
  function AreaSum(poly: seq<Point>, n: nat): real
    requires n <= |poly|
  {
    if n == 0 then 0.0 else AreaSum(poly, n - 1) + TriangleArea(poly, n - 1)
  }

  /** The sum of the first `n` triangle centroids, each weighted by its signed area. */
  function MomentSum(poly: seq<Point>, n: nat): Point
    requires n <= |poly|
  {
    if n == 0 then Point(0.0, 0.0)
    else Add(MomentSum(poly, n - 1), Scale(TriangleArea(poly, n - 1), TriangleCentroid(poly, n - 1)))
  }

  /** The total signed area of the polygon: the weights' sum. */
  function SignedArea(poly: seq<Point>): real
  {
    AreaSum(poly, |poly|)
  }

  /** Why no centroid exists: the weights sum to zero and `np.average` raises. */
  datatype GeometryError = ZeroArea

  /**
   `get_centroid`: the average of the fan triangles' centroids weighted by
   their signed areas; it exists exactly when the total signed area is
   non-zero, and then the weighted sum is the area times the centroid.
   */
  function Centroid(poly: seq<Point>): (r: Result<Point, GeometryError>)
    ensures r.Success? <==> SignedArea(poly) != 0.0
    ensures r.Success? ==>
      Scale(SignedArea(poly), r.value) == MomentSum(poly, |poly|)
  {
    var a := AreaSum(poly, |poly|);
    if a == 0.0 then Failure(ZeroArea)
    else
      var m := MomentSum(poly, |poly|);
      Success(Point(m.x0 / a, m.x1 / a))
  }

  /** A polygon with fewer than three vertices has no centroid. */
  lemma DegenerateHasNoCentroid(poly: seq<Point>)
    requires |poly| < 3
    ensures Centroid(poly) == Failure(ZeroArea)
  {
    if |poly| == 2 {
      assert Next(poly, 0) == poly[1] && Next(poly, 1) == poly[0];
      assert Cross(poly[1], poly[0]) == -Cross(poly[0], poly[1]);
      assert AreaSum(poly, 2) == TriangleArea(poly, 0) + TriangleArea(poly, 1);
    } else if |poly| == 1 {
      assert Next(poly, 0) == poly[0];
      assert Cross(poly[0], poly[0]) == 0.0;
      assert AreaSum(poly, 1) == AreaSum(poly, 0) + TriangleArea(poly, 0);
    }
  }

  /** In the plane, Cross(a, b) c + Cross(b, c) a + Cross(c, a) b is the zero vector. */
  lemma CrossCycle(a: Point, b: Point, c: Point)
    ensures Cross(a, b) * c.x0 + Cross(b, c) * a.x0 + Cross(c, a) * b.x0 == 0.0
    ensures Cross(a, b) * c.x1 + Cross(b, c) * a.x1 + Cross(c, a) * b.x1 == 0.0
  {
  }

  /** One coordinate of the triangle's moment, regrouped with the cyclic identity. */
  lemma TriangleMomentCoordinate(u: real, v: real, w: real, a: real, b: real, c: real)
    requires u * c + v * a + w * b == 0.0
    ensures 0.5 * u * (a + b) / 3.0 + 0.5 * v * (b + c) / 3.0 + 0.5 * w * (c + a) / 3.0
      == (0.5 * (u + v + w)) * ((a + b + c) / 3.0)
  {
  }

  lemma MulEq(x: real, x': real, y: real, y': real)
    requires x == x' && y == y'
    ensures x * y == x' * y'
  {
  }

  lemma Cancel(area: real, x: real, y: real)
    requires area != 0.0 && area * x == area * y
    ensures x == y
  {
  }

  lemma CancelScale(area: real, p: Point, q: Point)
    requires area != 0.0 && Scale(area, p) == Scale(area, q)
    ensures p == q
  {
    Cancel(area, p.x0, q.x0);
    Cancel(area, p.x1, q.x1);
  }

  /** In a triangle, vertex 0 is followed by 1, 1 by 2 and 2 by 0. */
  lemma TriangleNext(poly: seq<Point>)
    requires |poly| == 3
    ensures Next(poly, 0) == poly[1] && Next(poly, 1) == poly[2] && Next(poly, 2) == poly[0]
  {
  }

  /** The signed area of a triangle, written out. */
  lemma TriangleArea3(poly: seq<Point>)
    requires |poly| == 3
    ensures SignedArea(poly) == 0.5 * (Cross(poly[0], poly[1]) + Cross(poly[1], poly[2]) + Cross(poly[2], poly[0]))
  {
    TriangleNext(poly);
    assert AreaSum(poly, 1) == TriangleArea(poly, 0);
    assert AreaSum(poly, 2) == TriangleArea(poly, 0) + TriangleArea(poly, 1);
  }

  /** The x0 coordinate of a triangle's moment sum, written out. */
  lemma TriangleMomentSumX0(poly: seq<Point>)
    requires |poly| == 3
    ensures MomentSum(poly, |poly|).x0 ==
      0.5 * Cross(poly[0], poly[1]) * (poly[0].x0 + poly[1].x0) / 3.0 +
      0.5 * Cross(poly[1], poly[2]) * (poly[1].x0 + poly[2].x0) / 3.0 +
      0.5 * Cross(poly[2], poly[0]) * (poly[2].x0 + poly[0].x0) / 3.0
  {
    TriangleNext(poly);
    assert MomentSum(poly, 1) == Scale(TriangleArea(poly, 0), TriangleCentroid(poly, 0));
  }

  /** The x1 coordinate of a triangle's moment sum, written out. */
  lemma TriangleMomentSumX1(poly: seq<Point>)
    requires |poly| == 3
    ensures MomentSum(poly, |poly|).x1 ==
      0.5 * Cross(poly[0], poly[1]) * (poly[0].x1 + poly[1].x1) / 3.0 +
      0.5 * Cross(poly[1], poly[2]) * (poly[1].x1 + poly[2].x1) / 3.0 +
      0.5 * Cross(poly[2], poly[0]) * (poly[2].x1 + poly[0].x1) / 3.0
  {
    TriangleNext(poly);
    assert MomentSum(poly, 1) == Scale(TriangleArea(poly, 0), TriangleCentroid(poly, 0));
  }

  /** The vertex mean of a triangle. */
  function Mean3(poly: seq<Point>): Point
    requires |poly| == 3
  {
    Point((poly[0].x0 + poly[1].x0 + poly[2].x0) / 3.0, (poly[0].x1 + poly[1].x1 + poly[2].x1) / 3.0)
  }

  /** The written-out x0 moment of a triangle is its signed area times its vertices' mean x0. */
  lemma FanMomentX0(poly: seq<Point>)
    requires |poly| == 3
    ensures 0.5 * Cross(poly[0], poly[1]) * (poly[0].x0 + poly[1].x0) / 3.0 +
      0.5 * Cross(poly[1], poly[2]) * (poly[1].x0 + poly[2].x0) / 3.0 +
      0.5 * Cross(poly[2], poly[0]) * (poly[2].x0 + poly[0].x0) / 3.0 == SignedArea(poly) * Mean3(poly).x0
  {
    var a, b, c := poly[0], poly[1], poly[2];
    var u, v, w := Cross(a, b), Cross(b, c), Cross(c, a);
    TriangleArea3(poly);
    CrossCycle(a, b, c);
    TriangleMomentCoordinate(u, v, w, a.x0, b.x0, c.x0);
    MulEq(SignedArea(poly), 0.5 * (u + v + w), Mean3(poly).x0, (a.x0 + b.x0 + c.x0) / 3.0);
  }

  /** The x0 coordinate of a triangle's moment: signed area times the vertices' mean x0. */
  lemma TriangleMomentX0(poly: seq<Point>)
    requires |poly| == 3
    ensures MomentSum(poly, |poly|).x0 == SignedArea(poly) * Mean3(poly).x0
  {
    TriangleMomentSumX0(poly);
    FanMomentX0(poly);
  }

  /** The written-out x1 moment of a triangle is its signed area times its vertices' mean x1. */
  lemma FanMomentX1(poly: seq<Point>)
    requires |poly| == 3
    ensures 0.5 * Cross(poly[0], poly[1]) * (poly[0].x1 + poly[1].x1) / 3.0 +
      0.5 * Cross(poly[1], poly[2]) * (poly[1].x1 + poly[2].x1) / 3.0 +
      0.5 * Cross(poly[2], poly[0]) * (poly[2].x1 + poly[0].x1) / 3.0 == SignedArea(poly) * Mean3(poly).x1
  {
    var a, b, c := poly[0], poly[1], poly[2];
    var u, v, w := Cross(a, b), Cross(b, c), Cross(c, a);
    TriangleArea3(poly);
    CrossCycle(a, b, c);
    TriangleMomentCoordinate(u, v, w, a.x1, b.x1, c.x1);
    MulEq(SignedArea(poly), 0.5 * (u + v + w), Mean3(poly).x1, (a.x1 + b.x1 + c.x1) / 3.0);
  }

  /** The x1 coordinate of a triangle's moment: signed area times the vertices' mean x1. */
  lemma TriangleMomentX1(poly: seq<Point>)
    requires |poly| == 3
    ensures MomentSum(poly, |poly|).x1 == SignedArea(poly) * Mean3(poly).x1
  {
    TriangleMomentSumX1(poly);
    FanMomentX1(poly);
  }

  /** The moment of a triangle is its signed area times the mean of its vertices. */
  lemma TriangleMoment(poly: seq<Point>)
    requires |poly| == 3
    ensures MomentSum(poly, |poly|) == Scale(SignedArea(poly), Mean3(poly))
  {
    TriangleMomentX0(poly);
    TriangleMomentX1(poly);
  }

  /** The centroid of a triangle of non-zero area is the mean of its vertices. */
  lemma TriangleCentroidIsVertexMean(poly: seq<Point>)
    requires |poly| == 3 && SignedArea(poly) != 0.0
    ensures Centroid(poly) == Success(Mean3(poly))
  {
    TriangleMoment(poly);
    var area := SignedArea(poly);
    var mean := Mean3(poly);
    var r := Centroid(poly).value;
    CancelScale(area, r, mean);
  }

  /**
   `scale_polygon`: every vertex v becomes c + s (v - c) for the centroid c;
   fails where the centroid does.
   */
  function ScalePolygon(poly: seq<Point>, s: real): (r: Result<seq<Point>, GeometryError>)
    ensures r.Success? <==> Centroid(poly).Success?
    ensures r.Success? ==> |r.value| == |poly|
    ensures r.Success? ==> forall k :: 0 <= k < |poly| ==>
      Sub(r.value[k], Centroid(poly).value) == Scale(s, Sub(poly[k], Centroid(poly).value))
  {
    match Centroid(poly)
    case Failure(e) => Failure(e)
    case Success(c) =>
      Success(seq(|poly|, k requires 0 <= k < |poly| => Add(Scale(s, Sub(poly[k], c)), c)))
  }

  /** Scaling by one gives the polygon back. */
  lemma ScaleByOneIsIdentity(poly: seq<Point>)
    requires SignedArea(poly) != 0.0
    ensures ScalePolygon(poly, 1.0) == Success(poly)
  {
    var c := Centroid(poly).value;
    var r := ScalePolygon(poly, 1.0).value;
    forall k | 0 <= k < |poly| ensures r[k] == poly[k] {
      assert r[k] == Add(Scale(1.0, Sub(poly[k], c)), c);
    }
    assert r == poly;
  }

  /** Scaling by zero collapses every vertex onto the centroid. */
  lemma ScaleByZeroCollapses(poly: seq<Point>)
    requires SignedArea(poly) != 0.0
    ensures forall k :: 0 <= k < |poly| ==> ScalePolygon(poly, 0.0).value[k] == Centroid(poly).value
  {
  }
}
