/** Points, the point list ("edge matrix") the drawing code walks, and the
    float-to-int conversion it applies to vertex coordinates. The Matrix type
    of the renderer keeps one column per point; here a matrix is the sequence
    of its columns, and AddPoint, AddEdge and AddPolygon append columns. */
module Geometry {

  datatype Point = Point(x: real, y: real, z: real)

  /** Go's int(f) for a float64: truncation toward zero. */
  function Trunc(r: real): (n: int)
    ensures r >= 0.0 ==> 0 <= n && n as real <= r < n as real + 1.0
    ensures r < 0.0 ==> n <= 0 && n as real - 1.0 < r <= n as real
  {
    if r >= 0.0 then r.Floor else -((-r).Floor)
  }

  function AddPoint(m: seq<Point>, p: Point): (r: seq<Point>)
    ensures |r| == |m| + 1 && r[..|m|] == m && r[|m|] == p
  {
    m + [p]
  }

  function AddEdge(m: seq<Point>, a: Point, b: Point): (r: seq<Point>)
    ensures |r| == |m| + 2 && r[..|m|] == m && r[|m|] == a && r[|m| + 1] == b
  {
    m + [a, b]
  }

  function AddPolygon(m: seq<Point>, a: Point, b: Point, c: Point): (r: seq<Point>)
    ensures |r| == |m| + 3 && r[..|m|] == m && r[|m|] == a && r[|m| + 1] == b && r[|m| + 2] == c
  {
    m + [a, b, c]
  }

  /** The z component of (b - a) x (c - a): positive when a, b, c turn
      counter-clockwise in the x-y plane. This is the reference for the cross
      product the culling test reads. */
  function CrossZ(a: Point, b: Point, c: Point): real
  {
    (b.x - a.x) * (c.y - a.y) - (b.y - a.y) * (c.x - a.x)
  }

  /** Reversing a triangle's winding negates its cross product, so of a
      triangle and its mirror at most one faces the viewer. */
  lemma CrossZSwap(a: Point, b: Point, c: Point)
    ensures CrossZ(a, c, b) == -CrossZ(a, b, c)
    ensures CrossZ(a, b, c) > 0.0 ==> CrossZ(a, c, b) < 0.0
  {
  }

  /** Rotating the vertices keeps the winding. */
  lemma CrossZRotate(a: Point, b: Point, c: Point)
    ensures CrossZ(b, c, a) == CrossZ(a, b, c)
  {
  }
}
