/** AddBox (draw.go): the twelve triangles of an axis-aligned box whose
    front-top-left corner is (x, y, z); the box extends right by width, down
    by height and back by depth. */
module Shapes {
  import opened Geometry

  /** AddBox: twelve AddPolygon calls, two per face. */
  function AddBox(m: seq<Point>, x: real, y: real, z: real, width: real, height: real, depth: real): (r: seq<Point>)
    ensures |r| == |m| + 36 && r[..|m|] == m
  {
    var x1 := x + width;
    var y1 := y - height;
    var z1 := z - depth;
    var front := AddPolygon(AddPolygon(m,
      Point(x, y, z), Point(x, y1, z), Point(x1, y1, z)),
      Point(x, y, z), Point(x1, y1, z), Point(x1, y, z));
    var back := AddPolygon(AddPolygon(front,
      Point(x, y, z1), Point(x1, y, z1), Point(x, y1, z1)),
      Point(x1, y1, z1), Point(x, y1, z1), Point(x1, y, z1));
    var top := AddPolygon(AddPolygon(back,
      Point(x, y, z), Point(x1, y, z), Point(x1, y, z1)),
      Point(x1, y, z1), Point(x, y, z1), Point(x, y, z));
    var bottom := AddPolygon(AddPolygon(top,
      Point(x1, y1, z), Point(x, y1, z), Point(x, y1, z1)),
      Point(x1, y1, z1), Point(x1, y1, z), Point(x, y1, z1));
    var left := AddPolygon(AddPolygon(bottom,
      Point(x, y1, z), Point(x, y, z), Point(x, y, z1)),
      Point(x, y, z1), Point(x, y1, z1), Point(x, y1, z));
    AddPolygon(AddPolygon(left,
      Point(x1, y, z), Point(x1, y1, z1), Point(x1, y, z1)),
      Point(x1, y, z), Point(x1, y1, z), Point(x1, y1, z1))
  }

  datatype Axis = X | Y | Z

  function Coord(p: Point, a: Axis): real
  {
    match a
    case X => p.x
    case Y => p.y
    case Z => p.z
  }

  /** The six faces in the order AddBox emits them: front, back, top,
      bottom, left, right. Each is the plane of one axis at one value. */
  function FaceAxis(f: nat): Axis
  {
    if f < 2 then Z else if f < 4 then Y else X
  }

  function FaceValue(f: nat, x: real, y: real, z: real, width: real, height: real, depth: real): real
  {
    match f
    case 0 => z
    case 1 => z - depth
    case 2 => y
    case 3 => y - height
    case 4 => x
    case _ => x + width
  }

  /** The outward direction of face f: +1 where the face is the larger
      coordinate of the box along its axis (front, top, right), -1 where it
      is the smaller (back, bottom, left). */
  function FaceSign(f: nat): real
  {
    if f == 0 || f == 2 || f == 5 then 1.0 else -1.0
  }

  /** Triangle k (0 <= k < 12) of the box, in the order AddBox emits them. */
  function BoxTriangle(x: real, y: real, z: real, width: real, height: real, depth: real, k: nat): (t: seq<Point>)
    requires k < 12
    ensures |t| == 3
  {
    var x1, y1, z1 := x + width, y - height, z - depth;
    match k
    case 0 => [Point(x, y, z), Point(x, y1, z), Point(x1, y1, z)]
    case 1 => [Point(x, y, z), Point(x1, y1, z), Point(x1, y, z)]
    case 2 => [Point(x, y, z1), Point(x1, y, z1), Point(x, y1, z1)]
    case 3 => [Point(x1, y1, z1), Point(x, y1, z1), Point(x1, y, z1)]
    case 4 => [Point(x, y, z), Point(x1, y, z), Point(x1, y, z1)]
    case 5 => [Point(x1, y, z1), Point(x, y, z1), Point(x, y, z)]
    case 6 => [Point(x1, y1, z), Point(x, y1, z), Point(x, y1, z1)]
    case 7 => [Point(x1, y1, z1), Point(x1, y1, z), Point(x, y1, z1)]
    case 8 => [Point(x, y1, z), Point(x, y, z), Point(x, y, z1)]
    case 9 => [Point(x, y, z1), Point(x, y1, z1), Point(x, y1, z)]
    case 10 => [Point(x1, y, z), Point(x1, y1, z1), Point(x1, y, z1)]
    case _ => [Point(x1, y, z), Point(x1, y1, z), Point(x1, y1, z1)]
  }

  /** m followed by the first n triangles of the box. */
  function BoxPrefix(m: seq<Point>, x: real, y: real, z: real, width: real, height: real, depth: real, n: nat): (r: seq<Point>)
    requires n <= 12
    ensures |r| == |m| + 3 * n
  {
    if n == 0 then m else BoxPrefix(m, x, y, z, width, height, depth, n - 1) + BoxTriangle(x, y, z, width, height, depth, n - 1)
  }

  /** Triangle k sits at the three points from |m| + 3k on of every longer prefix. */
  lemma {:induction false} BoxPrefixAt(m: seq<Point>, x: real, y: real, z: real, width: real, height: real, depth: real, n: nat, k: nat)
    requires k < n <= 12
    ensures BoxPrefix(m, x, y, z, width, height, depth, n)[|m| + 3 * k .. |m| + 3 * k + 3] == BoxTriangle(x, y, z, width, height, depth, k)
  {
    var prev := BoxPrefix(m, x, y, z, width, height, depth, n - 1);
    if k < n - 1 {
      BoxPrefixAt(m, x, y, z, width, height, depth, n - 1, k);
      assert (prev + BoxTriangle(x, y, z, width, height, depth, n - 1))[|m| + 3 * k .. |m| + 3 * k + 3] == prev[|m| + 3 * k .. |m| + 3 * k + 3];
    }
  }

  /** AddBox keeps what was there and appends the box's twelve triangles in
      order: triangle k occupies the three points from |m| + 3k on. */
  lemma AddBoxAppends(m: seq<Point>, x: real, y: real, z: real, width: real, height: real, depth: real)
    ensures var r := AddBox(m, x, y, z, width, height, depth);
      forall k :: 0 <= k < 12 ==> r[|m| + 3 * k .. |m| + 3 * k + 3] == BoxTriangle(x, y, z, width, height, depth, k)
  {
    var x1, y1, z1 := x + width, y - height, z - depth;
    var p0 := BoxPrefix(m, x, y, z, width, height, depth, 0);
    var p1 := AddPolygon(p0, Point(x, y, z), Point(x, y1, z), Point(x1, y1, z));
    assert p1 == BoxPrefix(m, x, y, z, width, height, depth, 1);
    var p2 := AddPolygon(p1, Point(x, y, z), Point(x1, y1, z), Point(x1, y, z));
    assert p2 == BoxPrefix(m, x, y, z, width, height, depth, 2);
    var p3 := AddPolygon(p2, Point(x, y, z1), Point(x1, y, z1), Point(x, y1, z1));
    assert p3 == BoxPrefix(m, x, y, z, width, height, depth, 3);
    var p4 := AddPolygon(p3, Point(x1, y1, z1), Point(x, y1, z1), Point(x1, y, z1));
    assert p4 == BoxPrefix(m, x, y, z, width, height, depth, 4);
    var p5 := AddPolygon(p4, Point(x, y, z), Point(x1, y, z), Point(x1, y, z1));
    assert p5 == BoxPrefix(m, x, y, z, width, height, depth, 5);
    var p6 := AddPolygon(p5, Point(x1, y, z1), Point(x, y, z1), Point(x, y, z));
    assert p6 == BoxPrefix(m, x, y, z, width, height, depth, 6);
    var p7 := AddPolygon(p6, Point(x1, y1, z), Point(x, y1, z), Point(x, y1, z1));
    assert p7 == BoxPrefix(m, x, y, z, width, height, depth, 7);
    var p8 := AddPolygon(p7, Point(x1, y1, z1), Point(x1, y1, z), Point(x, y1, z1));
    assert p8 == BoxPrefix(m, x, y, z, width, height, depth, 8);
    var p9 := AddPolygon(p8, Point(x, y1, z), Point(x, y, z), Point(x, y, z1));
    assert p9 == BoxPrefix(m, x, y, z, width, height, depth, 9);
    var p10 := AddPolygon(p9, Point(x, y, z1), Point(x, y1, z1), Point(x, y1, z));
    assert p10 == BoxPrefix(m, x, y, z, width, height, depth, 10);
    var p11 := AddPolygon(p10, Point(x1, y, z), Point(x1, y1, z1), Point(x1, y, z1));
    assert p11 == BoxPrefix(m, x, y, z, width, height, depth, 11);
    var p12 := AddPolygon(p11, Point(x1, y, z), Point(x1, y1, z), Point(x1, y1, z1));
    assert p12 == BoxPrefix(m, x, y, z, width, height, depth, 12);
    assert AddBox(m, x, y, z, width, height, depth) == p12;
    forall k | 0 <= k < 12
      ensures BoxPrefix(m, x, y, z, width, height, depth, 12)[|m| + 3 * k .. |m| + 3 * k + 3] == BoxTriangle(x, y, z, width, height, depth, k)
    {
      BoxPrefixAt(m, x, y, z, width, height, depth, 12, k);
    }
  }

  /** Both triangles of face f (triangles 2f and 2f + 1) lie in that face's
      plane: all their points share the face's fixed coordinate. */
  lemma BoxFaces(x: real, y: real, z: real, width: real, height: real, depth: real, f: nat, h: nat)
    requires f < 6 && h < 2
    ensures var t := BoxTriangle(x, y, z, width, height, depth, 2 * f + h);
      forall v :: 0 <= v < 3 ==>
        Coord(t[v], FaceAxis(f)) == FaceValue(f, x, y, z, width, height, depth)
  {
    var t := BoxTriangle(x, y, z, width, height, depth, 2 * f + h);
    match f
    case 0 =>
    case 1 =>
    case 2 =>
    case 3 =>
    case 4 =>
    case 5 =>
  }

  /** The normal (b - a) x (c - a) of a triangle, one component. */
  function NormalComponent(a: Point, b: Point, c: Point, axis: Axis): real
  {
    var u := Point(b.x - a.x, b.y - a.y, b.z - a.z);
    var v := Point(c.x - a.x, c.y - a.y, c.z - a.z);
    match axis
    case X => u.y * v.z - u.z * v.y
    case Y => u.z * v.x - u.x * v.z
    case Z => u.x * v.y - u.y * v.x
  }

  lemma MulPos(a: real, b: real)
    requires a > 0.0 && b > 0.0
    ensures a * b > 0.0
  {
  }

  /** For a box of positive extent every triangle winds counter-clockwise
      seen from outside: its normal points out of its face. */
  lemma BoxOutward(x: real, y: real, z: real, width: real, height: real, depth: real, f: nat, h: nat)
    requires width > 0.0 && height > 0.0 && depth > 0.0 && f < 6 && h < 2
    ensures var t := BoxTriangle(x, y, z, width, height, depth, 2 * f + h);
      FaceSign(f) * NormalComponent(t[0], t[1], t[2], FaceAxis(f)) > 0.0
  {
    var t := BoxTriangle(x, y, z, width, height, depth, 2 * f + h);
    MulPos(width, height);
    MulPos(height, depth);
    MulPos(width, depth);
    match f
    case 0 =>
    case 1 =>
    case 2 =>
    case 3 =>
    case 4 =>
    case 5 =>
  }

  /** With the geometric cross product as the culling test, a box of positive
      extent shows exactly its two front triangles: the back face turns away
      and the four side faces are seen edge-on. */
  lemma BoxCulling(x: real, y: real, z: real, width: real, height: real, depth: real, f: nat, h: nat)
    requires width > 0.0 && height > 0.0 && depth > 0.0 && f < 6 && h < 2
    ensures var t := BoxTriangle(x, y, z, width, height, depth, 2 * f + h);
      CrossZ(t[0], t[1], t[2]) > 0.0 <==> f == 0
  {
    var t := BoxTriangle(x, y, z, width, height, depth, 2 * f + h);
    MulPos(width, height);
    match f
    case 0 =>
      assert CrossZ(t[0], t[1], t[2]) == width * height;
    case 1 =>
    case 2 =>
    case 3 =>
    case 4 =>
    case 5 =>
  }
}
