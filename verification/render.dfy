/** DrawLines and DrawPolygons (draw.go): loops over a point list that hand
    pairs or triangles of vertices to DrawLine and ignore what it returns. */
module Render {
  import opened Wrappers
  import opened Raster
  import opened Geometry
  import opened Line

  /** Every segment avoids plot's out-of-range index on a buffer of this shape. */
  predicate AllDefined(height: int, width: int, segs: seq<Segment>)
    decreases |segs|
  {
    |segs| == 0 || (LineDefined(height, width, segs[0]) && AllDefined(height, width, segs[1..]))
  }

  /** The reference: DrawLine applied to each segment in turn, its error dropped. */
  function DrawSegments(im: Image, c: Color, segs: seq<Segment>): (r: Image)
    requires Valid(im) && AllDefined(im.height, im.width, segs)
    ensures Valid(r) && SameShape(r, im)
    decreases |segs|
  {
    if |segs| == 0 then im
    else
      var next := LineEffect(im, c, segs[0]).image;
      DrawSegments(next, c, segs[1..])
  }

  /** One step of the reference: the first segment is drawn, then the rest. */
  lemma DrawSegmentsStep(im: Image, c: Color, segs: seq<Segment>)
    requires Valid(im) && AllDefined(im.height, im.width, segs) && |segs| > 0
    ensures LineDefined(im.height, im.width, segs[0])
    ensures DrawSegments(im, c, segs) == DrawSegments(LineEffect(im, c, segs[0]).image, c, segs[1..])
  {
  }

  /** Drawing a concatenation draws the first part, then the second. */
  lemma {:induction false} DrawSegmentsAppend(im: Image, c: Color, a: seq<Segment>, b: seq<Segment>)
    requires Valid(im) && AllDefined(im.height, im.width, a + b)
    ensures AllDefined(im.height, im.width, a) && AllDefined(im.height, im.width, b)
    ensures DrawSegments(im, c, a + b) == DrawSegments(DrawSegments(im, c, a), c, b)
    decreases |a|
  {
    assert forall k :: 0 <= k < |a| ==> a[k] == (a + b)[k];
    assert forall k :: 0 <= k < |b| ==> b[k] == (a + b)[|a| + k];
    if |a| == 0 {
      assert a + b == b;
    } else {
      var next := LineEffect(im, c, a[0]).image;
      assert (a + b)[0] == a[0];
      assert (a + b)[1..] == a[1..] + b;
      DrawSegmentsAppend(next, c, a[1..], b);
    }
  }

  /** Every cell that drawing changes lies on the pixel path of one of the
      segments and holds the drawing colour. */
  lemma {:induction false} DrawSegmentsCells(im: Image, c: Color, segs: seq<Segment>, i: int, j: int)
    requires Valid(im) && AllDefined(im.height, im.width, segs)
    requires 0 <= i < im.height && 0 <= j < im.width
    requires DrawSegments(im, c, segs).img[i][j] != im.img[i][j]
    ensures DrawSegments(im, c, segs).img[i][j] == c
    ensures exists k :: 0 <= k < |segs| && Pixel(i, j) in LinePixels(Normalize(segs[k]))
    decreases |segs|
  {
    var next := LineEffect(im, c, segs[0]).image;
    if InRange(im.height, im.width, segs[0]) {
      LineCells(im, c, segs[0]);
    }
    if next.img[i][j] != im.img[i][j] {
      var ps := LinePixels(Normalize(segs[0]));
      var n := StopIndex(im.height, im.width, ps, 0);
      assert Pixel(i, j) in ps[..n];
      assert Pixel(i, j) in ps;
      if DrawSegments(next, c, segs[1..]).img[i][j] != next.img[i][j] {
        DrawSegmentsCells(next, c, segs[1..], i, j);
      }
    } else {
      DrawSegmentsCells(next, c, segs[1..], i, j);
      var k :| 0 <= k < |segs[1..]| && Pixel(i, j) in LinePixels(Normalize(segs[1..][k]));
      assert segs[1..][k] == segs[k + 1];
    }
  }

  /** The vertex pair (2k, 2k + 1) as DrawLine's arguments, truncated to ints. */
  function EdgeSegment(a: Point, b: Point): Segment
  {
    Segment(Trunc(a.x), Trunc(a.y), Trunc(b.x), Trunc(b.y))
  }

  /** The segments DrawLines draws: one per complete pair of points; an odd
      last point is ignored. */
  function EdgeSegments(edges: seq<Point>): (segs: seq<Segment>)
    ensures 2 * |segs| <= |edges| < 2 * |segs| + 2
    ensures forall k :: 0 <= k < |segs| ==> segs[k] == EdgeSegment(edges[2 * k], edges[2 * k + 1])
    decreases |edges|
  {
    if |edges| < 2 then []
    else [EdgeSegment(edges[0], edges[1])] + EdgeSegments(edges[2..])
  }

  /** The body of DrawLines' loop for the pair at columns i, i + 1. */
  method DrawLinesAt(im: Image, c: Color, edges: seq<Point>, i: nat, ghost k: nat) returns (r: Image)
    requires Valid(im) && i == 2 * k && i + 1 < |edges|
    requires AllDefined(im.height, im.width, EdgeSegments(edges)[k..])
    ensures Valid(r) && SameShape(r, im) && AllDefined(im.height, im.width, EdgeSegments(edges)[k + 1..])
    ensures DrawSegments(r, c, EdgeSegments(edges)[k + 1..]) == DrawSegments(im, c, EdgeSegments(edges)[k..])
  {
    ghost var todo := EdgeSegments(edges)[k..];
    assert todo[0] == EdgeSegment(edges[i], edges[i + 1]);
    assert todo[1..] == EdgeSegments(edges)[k + 1..];
    DrawSegmentsStep(im, c, todo);
    var e := DrawLine(im, c, Trunc(edges[i].x), Trunc(edges[i].y), Trunc(edges[i + 1].x), Trunc(edges[i + 1].y));
    r := e.image;
  }

  /** DrawLines: i = 0, 2, 4, ... while i < cols - 1. */
  method DrawLines(im: Image, c: Color, edges: seq<Point>) returns (r: Image)
    requires Valid(im) && AllDefined(im.height, im.width, EdgeSegments(edges))
    ensures r == DrawSegments(im, c, EdgeSegments(edges))
  {
    ghost var segs := EdgeSegments(edges);
    var image := im;
    var i := 0;
    ghost var k := 0;
    assert segs[k..] == segs;
    while i < |edges| - 1
      invariant 0 <= k <= |segs| && i == 2 * k
      invariant Valid(image) && SameShape(image, im) && AllDefined(im.height, im.width, segs[k..])
      invariant DrawSegments(image, c, segs[k..]) == DrawSegments(im, c, segs)
      decreases |edges| - i
    {
      image := DrawLinesAt(image, c, edges, i, k);
      i := i + 2;
      k := k + 1;
    }
    assert segs[k..] == [];
    return image;
  }

  /** The culling decision for the triangle at columns i, i + 1, i + 2: the
      cross product may fail, and then the triangle is skipped. */
  function Visible(cross: (Point, Point, Point) -> Option<real>, a: Point, b: Point, c: Point): (v: bool)
    ensures v ==> cross(a, b, c).Some?
    ensures cross(a, b, c).Some? ==> (v <==> cross(a, b, c).value > 0.0)
  {
    match cross(a, b, c)
    case None => false
    case Some(z) => z > 0.0
  }

  /** With the geometric cross product as the culling test, a triangle is
      drawn exactly when it winds counter-clockwise in the x-y plane, and of a
      triangle and its mirror image at most one is drawn. The verdict does not
      depend on which vertex comes first. */
  lemma VisibleCrossZ(cross: (Point, Point, Point) -> Option<real>, a: Point, b: Point, c: Point)
    requires forall p, q, r :: cross(p, q, r) == Some(CrossZ(p, q, r))
    ensures Visible(cross, a, b, c) <==> CrossZ(a, b, c) > 0.0
    ensures Visible(cross, a, b, c) ==> !Visible(cross, a, c, b)
    ensures Visible(cross, a, b, c) <==> Visible(cross, b, c, a)
  {
    CrossZSwap(a, b, c);
    CrossZRotate(a, b, c);
  }

  /** The three edges drawn for a visible triangle: v0 to v1, v1 to v2, v2 to v0. */
  function TriangleEdges(a: Point, b: Point, c: Point): seq<Segment>
  {
    [EdgeSegment(a, b), EdgeSegment(b, c), EdgeSegment(c, a)]
  }

  /** The three DrawLine calls for one visible triangle. */
  method DrawTriangle(im: Image, c: Color, a: Point, b: Point, d: Point) returns (r: Image)
    requires Valid(im) && AllDefined(im.height, im.width, TriangleEdges(a, b, d))
    ensures r == DrawSegments(im, c, TriangleEdges(a, b, d))
  {
    ghost var todo := TriangleEdges(a, b, d);
    var image := im;
    DrawSegmentsStep(image, c, todo);
    var e0 := DrawLine(image, c, Trunc(a.x), Trunc(a.y), Trunc(b.x), Trunc(b.y));
    image, todo := e0.image, todo[1..];
    DrawSegmentsStep(image, c, todo);
    var e1 := DrawLine(image, c, Trunc(b.x), Trunc(b.y), Trunc(d.x), Trunc(d.y));
    image, todo := e1.image, todo[1..];
    DrawSegmentsStep(image, c, todo);
    var e2 := DrawLine(image, c, Trunc(d.x), Trunc(d.y), Trunc(a.x), Trunc(a.y));
    image, todo := e2.image, todo[1..];
    assert todo == [];
    return image;
  }

  /** The segments DrawPolygons draws for the triangles starting at the t-th. */
  function VisibleSegments(p: seq<Point>, cross: (Point, Point, Point) -> Option<real>, t: nat): (segs: seq<Segment>)
    ensures 3 * t + 2 >= |p| ==> segs == []
    decreases |p| - 3 * t
  {
    if 3 * t + 2 >= |p| then []
    else
      var here := if Visible(cross, p[3 * t], p[3 * t + 1], p[3 * t + 2])
        then TriangleEdges(p[3 * t], p[3 * t + 1], p[3 * t + 2]) else [];
      here + VisibleSegments(p, cross, t + 1)
  }

  /** One triangle of DrawPolygons: a visible one draws its three edges
      before the remaining triangles, an invisible one draws nothing. */
  lemma VisibleStep(im: Image, c: Color, p: seq<Point>, cross: (Point, Point, Point) -> Option<real>, t: nat)
    requires Valid(im) && 3 * t + 2 < |p| && AllDefined(im.height, im.width, VisibleSegments(p, cross, t))
    ensures AllDefined(im.height, im.width, VisibleSegments(p, cross, t + 1))
    ensures var tri := TriangleEdges(p[3 * t], p[3 * t + 1], p[3 * t + 2]);
      Visible(cross, p[3 * t], p[3 * t + 1], p[3 * t + 2]) ==>
        && AllDefined(im.height, im.width, tri)
        && DrawSegments(im, c, VisibleSegments(p, cross, t)) ==
           DrawSegments(DrawSegments(im, c, tri), c, VisibleSegments(p, cross, t + 1))
    ensures !Visible(cross, p[3 * t], p[3 * t + 1], p[3 * t + 2]) ==>
      VisibleSegments(p, cross, t) == VisibleSegments(p, cross, t + 1)
  {
    var tri := TriangleEdges(p[3 * t], p[3 * t + 1], p[3 * t + 2]);
    var rest := VisibleSegments(p, cross, t + 1);
    if Visible(cross, p[3 * t], p[3 * t + 1], p[3 * t + 2]) {
      assert VisibleSegments(p, cross, t) == tri + rest;
      DrawSegmentsAppend(im, c, tri, rest);
    } else {
      assert VisibleSegments(p, cross, t) == rest;
    }
  }

  /** The body of DrawPolygons' loop for the triangle at columns i, i + 1, i + 2. */
  method DrawPolygonAt(im: Image, c: Color, p: seq<Point>, cross: (Point, Point, Point) -> Option<real>, i: nat, ghost t: nat)
    returns (r: Image)
    requires Valid(im) && i == 3 * t && i + 2 < |p| && AllDefined(im.height, im.width, VisibleSegments(p, cross, t))
    ensures Valid(r) && SameShape(r, im) && AllDefined(im.height, im.width, VisibleSegments(p, cross, t + 1))
    ensures DrawSegments(r, c, VisibleSegments(p, cross, t + 1)) == DrawSegments(im, c, VisibleSegments(p, cross, t))
  {
    VisibleStep(im, c, p, cross, t);
    ghost var rest := VisibleSegments(p, cross, t + 1);
    var z := cross(p[i], p[i + 1], p[i + 2]);
    if z.Some? && z.value > 0.0 {
      assert Visible(cross, p[3 * t], p[3 * t + 1], p[3 * t + 2]);
      ghost var tri := TriangleEdges(p[3 * t], p[3 * t + 1], p[3 * t + 2]);
      r := DrawTriangle(im, c, p[i], p[i + 1], p[i + 2]);
      assert r == DrawSegments(im, c, tri);
    } else {
      assert !Visible(cross, p[3 * t], p[3 * t + 1], p[3 * t + 2]);
      r := im;
    }
  }

  /** DrawPolygons: i = 0, 3, 6, ... while i < cols - 2. */
  method DrawPolygons(im: Image, c: Color, p: seq<Point>, cross: (Point, Point, Point) -> Option<real>)
    returns (r: Image)
    requires Valid(im) && AllDefined(im.height, im.width, VisibleSegments(p, cross, 0))
    ensures r == DrawSegments(im, c, VisibleSegments(p, cross, 0))
  {
    ghost var goal := DrawSegments(im, c, VisibleSegments(p, cross, 0));
    var image := im;
    var i := 0;
    ghost var t: nat := 0;
    while i < |p| - 2
      invariant i == 3 * t
      invariant Valid(image) && SameShape(image, im) && AllDefined(image.height, image.width, VisibleSegments(p, cross, t))
      invariant DrawSegments(image, c, VisibleSegments(p, cross, t)) == goal
      decreases |p| - i
    {
      image := DrawPolygonAt(image, c, p, cross, i, t);
      i := i + 3;
      t := t + 1;
    }
    assert VisibleSegments(p, cross, t) == [];
    return image;
  }
}
