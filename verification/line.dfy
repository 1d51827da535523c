/** DrawLine and its four octant loops (draw.go). */
module Line {
  import opened Raster
  import opened Midpoint

  const CoordinatesOutOfBounds := "Error: Coordinates out of bounds"

  /** A call's endpoints, (x0, y0) to (x1, y1). */
  datatype Segment = Segment(x0: int, y0: int, x1: int, y1: int)

  /** draw.go's math.Abs(float64(n)). The float conversion is exact for
      |n| <= 2^53; the rounding beyond that is not modelled. */
  function Abs(n: int): nat
  {
    if n < 0 then -n else n
  }

  /** DrawLine's range check: only the start is checked against zero, and only
      the end against the upper bounds, with x1 against the width and y1
      against the height (the opposite pairing to plot's). */
  function InRange(height: int, width: int, s: Segment): (ok: bool)
    ensures ok <==> 0 <= s.x0 && 0 <= s.y0 && s.x1 <= width && s.y1 <= height
    ensures ok && s.x0 <= s.x1 ==> 0 <= s.x0 <= s.x1 <= width
  {
    !(s.x0 < 0 || s.y0 < 0 || s.x1 > width || s.y1 > height)
  }

  /** The swap that makes x ascend; both coordinates move together. */
  function Normalize(s: Segment): (n: Segment)
    ensures n.x0 <= n.x1
    ensures n == s || n == Segment(s.x1, s.y1, s.x0, s.y0)
  {
    if s.x0 > s.x1 then Segment(s.x1, s.y1, s.x0, s.y0) else s
  }

  datatype Octant = Octant1 | Octant2 | Octant7 | Octant8

  /** Octant selection from the sign of dy and |dy| against |dx|. */
  function Classify(s: Segment): (o: Octant)
    ensures s.x0 <= s.x1 ==> (o == Octant1 <==> 0 <= s.y1 - s.y0 <= s.x1 - s.x0)
    ensures s.x0 <= s.x1 ==> (o == Octant2 <==> 0 <= s.x1 - s.x0 < s.y1 - s.y0)
    ensures s.x0 <= s.x1 ==> (o == Octant7 <==> 0 <= s.x1 - s.x0 < s.y0 - s.y1)
    ensures s.x0 <= s.x1 ==> (o == Octant8 <==> 0 < s.y0 - s.y1 <= s.x1 - s.x0)
  {
    var dx := s.x1 - s.x0;
    var dy := s.y1 - s.y0;
    if dy >= 0 then
      if Abs(dy) <= Abs(dx) then Octant1 else Octant2
    else
      if Abs(dy) > Abs(dx) then Octant7 else Octant8
  }

  /** The pixels each octant loop visits on a normalised segment, in order:
      one per value of the driving coordinate, the other coordinate moved by
      the midpoint offset. */
  function Octant1Pixels(s: Segment): (ps: seq<Pixel>)
    requires s.x0 <= s.x1
    ensures |ps| == s.x1 - s.x0 + 1
  {
    var dx: nat := s.x1 - s.x0;
    seq(dx + 1, i => Pixel(s.x0 + i, s.y0 + Offset(dx, Abs(s.y1 - s.y0), i)))
  }

  function Octant2Pixels(s: Segment): (ps: seq<Pixel>)
    requires s.x0 <= s.x1
    ensures |ps| == Abs(s.y1 - s.y0) + 1
  {
    var n := Abs(s.y1 - s.y0);
    seq(n + 1, j => Pixel(s.x0 + Offset(n, s.x1 - s.x0, j), s.y0 + j))
  }

  function Octant7Pixels(s: Segment): (ps: seq<Pixel>)
    requires s.x0 <= s.x1
    ensures |ps| == Abs(s.y1 - s.y0) + 1
  {
    var n := Abs(s.y1 - s.y0);
    seq(n + 1, j => Pixel(s.x0 + Offset(n, s.x1 - s.x0, j), s.y0 - j))
  }

  function Octant8Pixels(s: Segment): (ps: seq<Pixel>)
    requires s.x0 <= s.x1
    ensures |ps| == s.x1 - s.x0 + 1
  {
    var dx: nat := s.x1 - s.x0;
    seq(dx + 1, i => Pixel(s.x0 + i, s.y0 - Offset(dx, Abs(s.y1 - s.y0), i)))
  }

  /** Pixel i of each octant's path. */
  lemma Octant1At(s: Segment, i: nat)
    requires s.x0 <= s.x1 && i <= s.x1 - s.x0
    ensures Octant1Pixels(s)[i] == Pixel(s.x0 + i, s.y0 + Offset(s.x1 - s.x0, Abs(s.y1 - s.y0), i))
  {
  }

  lemma Octant2At(s: Segment, j: nat)
    requires s.x0 <= s.x1 && j <= Abs(s.y1 - s.y0)
    ensures Octant2Pixels(s)[j] == Pixel(s.x0 + Offset(Abs(s.y1 - s.y0), s.x1 - s.x0, j), s.y0 + j)
  {
  }

  lemma Octant7At(s: Segment, j: nat)
    requires s.x0 <= s.x1 && j <= Abs(s.y1 - s.y0)
    ensures Octant7Pixels(s)[j] == Pixel(s.x0 + Offset(Abs(s.y1 - s.y0), s.x1 - s.x0, j), s.y0 - j)
  {
  }

  lemma Octant8At(s: Segment, i: nat)
    requires s.x0 <= s.x1 && i <= s.x1 - s.x0
    ensures Octant8Pixels(s)[i] == Pixel(s.x0 + i, s.y0 - Offset(s.x1 - s.x0, Abs(s.y1 - s.y0), i))
  {
  }

  /** The pixels DrawLine hands to plot for a normalised segment. */
  function LinePixels(s: Segment): (ps: seq<Pixel>)
    requires s.x0 <= s.x1
    ensures |ps| == (if Abs(s.y1 - s.y0) > s.x1 - s.x0 then Abs(s.y1 - s.y0) else s.x1 - s.x0) + 1
  {
    match Classify(s)
    case Octant1 => Octant1Pixels(s)
    case Octant2 => Octant2Pixels(s)
    case Octant7 => Octant7Pixels(s)
    case Octant8 => Octant8Pixels(s)
  }

  /** A call that cannot reach plot's out-of-range index. */
  predicate LineDefined(height: int, width: int, s: Segment)
  {
    InRange(height, width, s) ==> PathDefined(height, width, LinePixels(Normalize(s)), 0)
  }

  /** What DrawLine leaves behind: the range check's error, or else the octant
      loop's pixels plotted up to the first rejected one and a nil error. */
  function LineEffect(im: Image, c: Color, s: Segment): (e: Effect)
    requires Valid(im) && LineDefined(im.height, im.width, s)
    ensures Valid(e.image) && SameShape(e.image, im)
    ensures e.outcome.Ok? <==> InRange(im.height, im.width, s)
    ensures !InRange(im.height, im.width, s) ==> e == Effect(im, Err(CoordinatesOutOfBounds))
  {
    if !InRange(im.height, im.width, s) then Effect(im, Err(CoordinatesOutOfBounds))
    else Effect(PlotPath(im, c, LinePixels(Normalize(s)), 0).image, Ok)
  }

  /** drawLineOctant1: x ascending, y stepping up when the decision value is positive. */
  method DrawLineOctant1(im: Image, c: Color, lA: int, lB: int, x0: int, y0: int, x1: int, y1: int)
    returns (e: Effect)
    requires Valid(im)
    requires x0 <= x1 && lA == y1 - y0 && lB == -(x1 - x0)
    requires 0 <= y1 - y0 <= x1 - x0
    requires PathDefined(im.height, im.width, Octant1Pixels(Segment(x0, y0, x1, y1)), 0)
    ensures e == PlotPath(im, c, Octant1Pixels(Segment(x0, y0, x1, y1)), 0)
  {
    ghost var path := Octant1Pixels(Segment(x0, y0, x1, y1));
    ghost var dx: nat := x1 - x0;
    ghost var dy: nat := y1 - y0;
    assert Abs(y1 - y0) == dy;
    assert |path| == dx + 1;
    var image := im;
    var y := y0;
    var lD := 2 * lA + lB;
    var x := x0;
    ghost var i, k := 0, 0;
    while x <= x1
      invariant 0 <= i <= dx + 1 && x == x0 + i && y == y0 + k
      invariant Valid(image) && SameShape(image, im)
      invariant Walk(dx, dy, i) == Step(k, lD)
      invariant PathDefined(im.height, im.width, path, i)
      invariant PlotPath(image, c, path, i) == PlotPath(im, c, path, 0)
      decreases x1 - x
    {
      Octant1At(Segment(x0, y0, x1, y1), i);
      WalkNext(dx, dy, i);
      assert Offset(dx, dy, i) == k;
      assert path[i] == Pixel(x, y);
      PlotPathStep(image, c, path, i);
      var r := Plot(image, c, x, y);
      if r.outcome.Err? {
        return r;
      }
      image := r.image;
      if lD > 0 {
        y := y + 1;
        k := k + 1;
        lD := lD + 2 * lB;
      }
      lD := lD + 2 * lA;
      x := x + 1;
      i := i + 1;
    }
    e := Effect(image, Ok);
  }

  /** drawLineOctant2: y ascending, x stepping right when the decision value is negative. */
  method DrawLineOctant2(im: Image, c: Color, lA: int, lB: int, x0: int, y0: int, x1: int, y1: int)
    returns (e: Effect)
    requires Valid(im)
    requires x0 <= x1 && lA == y1 - y0 && lB == -(x1 - x0)
    requires 0 <= x1 - x0 < y1 - y0
    requires PathDefined(im.height, im.width, Octant2Pixels(Segment(x0, y0, x1, y1)), 0)
    ensures e == PlotPath(im, c, Octant2Pixels(Segment(x0, y0, x1, y1)), 0)
  {
    ghost var path := Octant2Pixels(Segment(x0, y0, x1, y1));
    ghost var dx: nat := x1 - x0;
    ghost var dy: nat := y1 - y0;
    assert Abs(y1 - y0) == dy;
    assert |path| == dy + 1;
    var image := im;
    var x := x0;
    var lD := lA + 2 * lB;
    var y := y0;
    ghost var j, k := 0, 0;
    while y <= y1
      invariant 0 <= j <= dy + 1 && y == y0 + j && x == x0 + k
      invariant Valid(image) && SameShape(image, im)
      invariant Walk(dy, dx, j) == Step(k, -lD)
      invariant PathDefined(im.height, im.width, path, j)
      invariant PlotPath(image, c, path, j) == PlotPath(im, c, path, 0)
      decreases y1 - y
    {
      Octant2At(Segment(x0, y0, x1, y1), j);
      WalkNext(dy, dx, j);
      assert Offset(dy, dx, j) == k;
      assert path[j] == Pixel(x, y);
      PlotPathStep(image, c, path, j);
      var r := Plot(image, c, x, y);
      if r.outcome.Err? {
        return r;
      }
      image := r.image;
      if lD < 0 {
        x := x + 1;
        k := k + 1;
        lD := lD + 2 * lA;
      }
      lD := lD + 2 * lB;
      y := y + 1;
      j := j + 1;
    }
    e := Effect(image, Ok);
  }

  /** drawLineOctant7: y descending, x stepping right when the decision value is positive. */
  method DrawLineOctant7(im: Image, c: Color, lA: int, lB: int, x0: int, y0: int, x1: int, y1: int)
    returns (e: Effect)
    requires Valid(im)
    requires x0 <= x1 && lA == y1 - y0 && lB == -(x1 - x0)
    requires 0 <= x1 - x0 < y0 - y1
    requires PathDefined(im.height, im.width, Octant7Pixels(Segment(x0, y0, x1, y1)), 0)
    ensures e == PlotPath(im, c, Octant7Pixels(Segment(x0, y0, x1, y1)), 0)
  {
    ghost var path := Octant7Pixels(Segment(x0, y0, x1, y1));
    ghost var dx: nat := x1 - x0;
    ghost var dy: nat := y0 - y1;
    assert Abs(y1 - y0) == dy;
    assert |path| == dy + 1;
    var image := im;
    var x := x0;
    var lD := lA - 2 * lB;
    var y := y0;
    ghost var j, k := 0, 0;
    while y >= y1
      invariant 0 <= j <= dy + 1 && y == y0 - j && x == x0 + k
      invariant Valid(image) && SameShape(image, im)
      invariant Walk(dy, dx, j) == Step(k, lD)
      invariant PathDefined(im.height, im.width, path, j)
      invariant PlotPath(image, c, path, j) == PlotPath(im, c, path, 0)
      decreases y - y1
    {
      Octant7At(Segment(x0, y0, x1, y1), j);
      WalkNext(dy, dx, j);
      assert Offset(dy, dx, j) == k;
      assert path[j] == Pixel(x, y);
      PlotPathStep(image, c, path, j);
      var r := Plot(image, c, x, y);
      if r.outcome.Err? {
        return r;
      }
      image := r.image;
      if lD > 0 {
        x := x + 1;
        k := k + 1;
        lD := lD + 2 * lA;
      }
      lD := lD - 2 * lB;
      y := y - 1;
      j := j + 1;
    }
    e := Effect(image, Ok);
  }

  /** drawLineOctant8: x ascending, y stepping down when the decision value is negative. */
  method DrawLineOctant8(im: Image, c: Color, lA: int, lB: int, x0: int, y0: int, x1: int, y1: int)
    returns (e: Effect)
    requires Valid(im)
    requires x0 <= x1 && lA == y1 - y0 && lB == -(x1 - x0)
    requires 0 < y0 - y1 <= x1 - x0
    requires PathDefined(im.height, im.width, Octant8Pixels(Segment(x0, y0, x1, y1)), 0)
    ensures e == PlotPath(im, c, Octant8Pixels(Segment(x0, y0, x1, y1)), 0)
  {
    ghost var path := Octant8Pixels(Segment(x0, y0, x1, y1));
    ghost var dx: nat := x1 - x0;
    ghost var dy: nat := y0 - y1;
    assert Abs(y1 - y0) == dy;
    assert |path| == dx + 1;
    var image := im;
    var y := y0;
    var lD := 2 * lA - lB;
    var x := x0;
    ghost var i, k := 0, 0;
    while x <= x1
      invariant 0 <= i <= dx + 1 && x == x0 + i && y == y0 - k
      invariant Valid(image) && SameShape(image, im)
      invariant Walk(dx, dy, i) == Step(k, -lD)
      invariant PathDefined(im.height, im.width, path, i)
      invariant PlotPath(image, c, path, i) == PlotPath(im, c, path, 0)
      decreases x1 - x
    {
      Octant8At(Segment(x0, y0, x1, y1), i);
      WalkNext(dx, dy, i);
      assert Offset(dx, dy, i) == k;
      assert path[i] == Pixel(x, y);
      PlotPathStep(image, c, path, i);
      var r := Plot(image, c, x, y);
      if r.outcome.Err? {
        return r;
      }
      image := r.image;
      if lD < 0 {
        y := y - 1;
        k := k + 1;
        lD := lD - 2 * lB;
      }
      lD := lD + 2 * lA;
      x := x + 1;
      i := i + 1;
    }
    e := Effect(image, Ok);
  }

  /** DrawLine: the range check on the arguments as given, the swap, the
      octant selection, and a nil error whatever the octant loop returned. */
  method DrawLine(im: Image, c: Color, x0: int, y0: int, x1: int, y1: int) returns (e: Effect)
    requires Valid(im) && LineDefined(im.height, im.width, Segment(x0, y0, x1, y1))
    ensures e == LineEffect(im, c, Segment(x0, y0, x1, y1))
  {
    if x0 < 0 || y0 < 0 || x1 > im.width || y1 > im.height {
      return Effect(im, Err(CoordinatesOutOfBounds));
    }
    var ax0, ay0, ax1, ay1 := x0, y0, x1, y1;
    if ax0 > ax1 {
      ax1, ax0 := ax0, ax1;
      ay1, ay0 := ay0, ay1;
    }
    ghost var s := Segment(ax0, ay0, ax1, ay1);
    assert s == Normalize(Segment(x0, y0, x1, y1));
    var deltaX := ax1 - ax0;
    var deltaY := ay1 - ay0;
    var r: Effect;
    if deltaY >= 0 {
      if Abs(deltaY) <= Abs(deltaX) {
        assert LinePixels(s) == Octant1Pixels(s);
        r := DrawLineOctant1(im, c, deltaY, deltaX * -1, ax0, ay0, ax1, ay1);
      } else {
        assert LinePixels(s) == Octant2Pixels(s);
        r := DrawLineOctant2(im, c, deltaY, deltaX * -1, ax0, ay0, ax1, ay1);
      }
    } else {
      if Abs(deltaY) > Abs(deltaX) {
        assert LinePixels(s) == Octant7Pixels(s);
        r := DrawLineOctant7(im, c, deltaY, deltaX * -1, ax0, ay0, ax1, ay1);
      } else {
        assert LinePixels(s) == Octant8Pixels(s);
        r := DrawLineOctant8(im, c, deltaY, deltaX * -1, ax0, ay0, ax1, ay1);
      }
    }
    return Effect(r.image, Ok);
  }

  /** Octant 1: one pixel per x in order, y climbing by 0 or 1 from y0 to y1. */
  lemma Octant1Shape(s: Segment)
    requires s.x0 <= s.x1 && 0 <= s.y1 - s.y0 <= s.x1 - s.x0
    ensures var ps := Octant1Pixels(s);
      && |ps| == s.x1 - s.x0 + 1
      && ps[0] == Pixel(s.x0, s.y0) && ps[|ps| - 1] == Pixel(s.x1, s.y1)
      && (forall i :: 0 <= i < |ps| ==> ps[i].x == s.x0 + i && s.y0 <= ps[i].y <= s.y1)
      && (forall i :: 0 < i < |ps| ==> ps[i].y == ps[i - 1].y || ps[i].y == ps[i - 1].y + 1)
  {
    OffsetProfile(s.x1 - s.x0, s.y1 - s.y0);
  }

  /** Octant 2: one pixel per y ascending, x moving right by 0 or 1 from x0 to x1. */
  lemma Octant2Shape(s: Segment)
    requires 0 <= s.x1 - s.x0 < s.y1 - s.y0
    ensures var ps := Octant2Pixels(s);
      && |ps| == s.y1 - s.y0 + 1
      && ps[0] == Pixel(s.x0, s.y0) && ps[|ps| - 1] == Pixel(s.x1, s.y1)
      && (forall j :: 0 <= j < |ps| ==> ps[j].y == s.y0 + j && s.x0 <= ps[j].x <= s.x1)
      && (forall j :: 0 < j < |ps| ==> ps[j].x == ps[j - 1].x || ps[j].x == ps[j - 1].x + 1)
  {
    OffsetProfile(s.y1 - s.y0, s.x1 - s.x0);
  }

  /** Octant 7: one pixel per y descending, x moving right by 0 or 1 from x0
      to x1. */
  lemma Octant7Shape(s: Segment)
    requires 0 <= s.x1 - s.x0 < s.y0 - s.y1
    ensures var ps := Octant7Pixels(s);
      && |ps| == s.y0 - s.y1 + 1
      && ps[0] == Pixel(s.x0, s.y0) && ps[|ps| - 1] == Pixel(s.x1, s.y1)
      && (forall j :: 0 <= j < |ps| ==> ps[j].y == s.y0 - j && s.x0 <= ps[j].x <= s.x1)
      && (forall j :: 0 < j < |ps| ==> ps[j].x == ps[j - 1].x || ps[j].x == ps[j - 1].x + 1)
  {
    OffsetProfile(s.y0 - s.y1, s.x1 - s.x0);
  }

  /** Octant 8: one pixel per x in order, y falling by 0 or 1 from y0 to y1. */
  lemma Octant8Shape(s: Segment)
    requires 0 < s.y0 - s.y1 <= s.x1 - s.x0
    ensures var ps := Octant8Pixels(s);
      && |ps| == s.x1 - s.x0 + 1
      && ps[0] == Pixel(s.x0, s.y0) && ps[|ps| - 1] == Pixel(s.x1, s.y1)
      && (forall i :: 0 <= i < |ps| ==> ps[i].x == s.x0 + i && s.y1 <= ps[i].y <= s.y0)
      && (forall i :: 0 < i < |ps| ==> ps[i].y == ps[i - 1].y || ps[i].y == ps[i - 1].y - 1)
  {
    OffsetProfile(s.x1 - s.x0, s.y0 - s.y1);
  }

  /** Two pixels that touch, sideways or diagonally. */
  predicate Adjacent(p: Pixel, q: Pixel)
  {
    Abs(p.x - q.x) <= 1 && Abs(p.y - q.y) <= 1 && p != q
  }

  /** Each octant's minor coordinate is the nearest integer to the ideal
      line through the endpoints, at every step of the driving coordinate. */
  lemma Octant1Nearest(s: Segment)
    requires s.x0 < s.x1 && 0 <= s.y1 - s.y0 <= s.x1 - s.x0
    ensures forall i :: 0 <= i < |Octant1Pixels(s)| ==>
      Nearest(s.x1 - s.x0, s.y1 - s.y0, i, Octant1Pixels(s)[i].y - s.y0)
  {
    OffsetNearestAll(s.x1 - s.x0, s.y1 - s.y0);
  }

  lemma Octant2Nearest(s: Segment)
    requires 0 <= s.x1 - s.x0 < s.y1 - s.y0
    ensures forall j :: 0 <= j < |Octant2Pixels(s)| ==>
      Nearest(s.y1 - s.y0, s.x1 - s.x0, j, Octant2Pixels(s)[j].x - s.x0)
  {
    OffsetNearestAll(s.y1 - s.y0, s.x1 - s.x0);
  }

  lemma Octant7Nearest(s: Segment)
    requires 0 <= s.x1 - s.x0 < s.y0 - s.y1
    ensures forall j :: 0 <= j < |Octant7Pixels(s)| ==>
      Nearest(s.y0 - s.y1, s.x1 - s.x0, j, Octant7Pixels(s)[j].x - s.x0)
  {
    OffsetNearestAll(s.y0 - s.y1, s.x1 - s.x0);
  }

  lemma Octant8Nearest(s: Segment)
    requires 0 < s.y0 - s.y1 <= s.x1 - s.x0
    ensures forall i :: 0 <= i < |Octant8Pixels(s)| ==>
      Nearest(s.x1 - s.x0, s.y0 - s.y1, i, s.y0 - Octant8Pixels(s)[i].y)
  {
    OffsetNearestAll(s.x1 - s.x0, s.y0 - s.y1);
  }

  /** A connected chain of max(|dx|, |dy|) + 1 pixels from the start of s to
      its end, inside the bounding box of the endpoints. */
  predicate Chain(ps: seq<Pixel>, s: Segment)
  {
    && |ps| == (if Abs(s.y1 - s.y0) <= Abs(s.x1 - s.x0) then Abs(s.x1 - s.x0) else Abs(s.y1 - s.y0)) + 1
    && ps[0] == Pixel(s.x0, s.y0) && ps[|ps| - 1] == Pixel(s.x1, s.y1)
    && (forall i :: 0 < i < |ps| ==> Adjacent(ps[i - 1], ps[i]))
    && (forall i :: 0 <= i < |ps| ==>
          ((s.x0 <= ps[i].x <= s.x1 || s.x1 <= ps[i].x <= s.x0) &&
           (s.y0 <= ps[i].y <= s.y1 || s.y1 <= ps[i].y <= s.y0)))
  }

  lemma Octant1Chain(s: Segment)
    requires s.x0 <= s.x1 && 0 <= s.y1 - s.y0 <= s.x1 - s.x0
    ensures Chain(Octant1Pixels(s), s)
  {
    var ps := Octant1Pixels(s);
    Octant1Shape(s);
    forall i | 0 < i < |ps|
      ensures Adjacent(ps[i - 1], ps[i])
    {
      assert ps[i].x != ps[i - 1].x;
    }
  }

  lemma Octant2Chain(s: Segment)
    requires 0 <= s.x1 - s.x0 < s.y1 - s.y0
    ensures Chain(Octant2Pixels(s), s)
  {
    var ps := Octant2Pixels(s);
    Octant2Shape(s);
    forall j | 0 < j < |ps|
      ensures Adjacent(ps[j - 1], ps[j])
    {
      assert ps[j].y != ps[j - 1].y;
    }
  }

  lemma Octant7Chain(s: Segment)
    requires 0 <= s.x1 - s.x0 < s.y0 - s.y1
    ensures Chain(Octant7Pixels(s), s)
  {
    var ps := Octant7Pixels(s);
    Octant7Shape(s);
    forall j | 0 < j < |ps|
      ensures Adjacent(ps[j - 1], ps[j])
    {
      assert ps[j].y != ps[j - 1].y;
    }
  }

  lemma Octant8Chain(s: Segment)
    requires 0 < s.y0 - s.y1 <= s.x1 - s.x0
    ensures Chain(Octant8Pixels(s), s)
  {
    var ps := Octant8Pixels(s);
    Octant8Shape(s);
    forall i | 0 < i < |ps|
      ensures Adjacent(ps[i - 1], ps[i])
    {
      assert ps[i].x != ps[i - 1].x;
    }
  }

  /** Whatever octant runs, a normalised segment is drawn as a connected
      chain from its start to its end. */
  lemma LineShape(s: Segment)
    requires s.x0 <= s.x1
    ensures Chain(LinePixels(s), s)
  {
    match Classify(s)
    case Octant1 =>
      Octant1Chain(s);
      assert LinePixels(s) == Octant1Pixels(s);
    case Octant2 =>
      Octant2Chain(s);
      assert LinePixels(s) == Octant2Pixels(s);
    case Octant7 =>
      Octant7Chain(s);
      assert LinePixels(s) == Octant7Pixels(s);
    case Octant8 =>
      Octant8Chain(s);
      assert LinePixels(s) == Octant8Pixels(s);
  }

  /** The same holds for DrawLine's arguments in either order: the drawn
      pixels run from the normalised start to the normalised end. */
  lemma DrawnChain(s: Segment)
    ensures Chain(LinePixels(Normalize(s)), Normalize(s))
  {
    LineShape(Normalize(s));
  }

  function Reverse(s: Segment): Segment
  {
    Segment(s.x1, s.y1, s.x0, s.y0)
  }

  /** With x0 != x1 the swap makes both argument orders the same call, so
      when both pass the range check they draw identically. */
  lemma SwapSameLine(im: Image, c: Color, s: Segment)
    requires Valid(im) && s.x0 != s.x1 && InRange(im.height, im.width, s) && InRange(im.height, im.width, Reverse(s))
    requires LineDefined(im.height, im.width, s)
    ensures LineDefined(im.height, im.width, Reverse(s))
    ensures LineEffect(im, c, s) == LineEffect(im, c, Reverse(s))
  {
    assert Normalize(s) == Normalize(Reverse(s));
  }

  function Reversed(ps: seq<Pixel>): (r: seq<Pixel>)
    ensures |r| == |ps|
    ensures forall i :: 0 <= i < |ps| ==> r[i] == ps[|ps| - 1 - i]
  {
    seq(|ps|, i requires 0 <= i < |ps| => ps[|ps| - 1 - i])
  }

  /** A vertical segment drawn upwards: octant 2 (octant 1 for a single
      pixel), one pixel per y from y0 to y1 in column x0. */
  lemma VerticalUp(s: Segment)
    requires s.x0 == s.x1 && s.y0 <= s.y1
    ensures |LinePixels(s)| == s.y1 - s.y0 + 1
    ensures forall j :: 0 <= j < |LinePixels(s)| ==> LinePixels(s)[j] == Pixel(s.x0, s.y0 + j)
  {
    var n: nat := s.y1 - s.y0;
    if n == 0 {
      assert Classify(s) == Octant1;
      assert LinePixels(s) == Octant1Pixels(s);
    } else {
      assert Classify(s) == Octant2;
      var ps := Octant2Pixels(s);
      assert LinePixels(s) == ps;
      forall j | 0 <= j < |ps|
        ensures ps[j] == Pixel(s.x0, s.y0 + j)
      {
        OffsetFlat(n, j);
      }
    }
  }

  /** A vertical segment drawn downwards: octant 7, one pixel per y from y0
      down to y1 in column x0. */
  lemma VerticalDown(s: Segment)
    requires s.x0 == s.x1 && s.y0 > s.y1
    ensures |LinePixels(s)| == s.y0 - s.y1 + 1
    ensures forall j :: 0 <= j < |LinePixels(s)| ==> LinePixels(s)[j] == Pixel(s.x0, s.y0 - j)
  {
    var n: nat := s.y0 - s.y1;
    forall j | 0 <= j <= n
      ensures Offset(n, 0, j) == 0
    {
      OffsetFlat(n, j);
    }
    assert LinePixels(s) == Octant7Pixels(s);
  }

  /** With x0 == x1 there is no swap: octants 2 and 7 draw the same column of
      pixels, in opposite orders. */
  lemma VerticalReversed(s: Segment)
    requires s.x0 == s.x1
    ensures LinePixels(Reverse(s)) == Reversed(LinePixels(s))
  {
    if s.y0 == s.y1 {
      VerticalUp(s);
      assert Reverse(s) == s;
    } else if s.y0 < s.y1 {
      VerticalUp(s);
      VerticalDown(Reverse(s));
    } else {
      VerticalDown(s);
      VerticalUp(Reverse(s));
    }
  }

  /** What DrawLine paints: exactly the octant loop's pixels before the first
      one plot rejects, in colour c, and nothing else; the reply is nil all
      the same. */
  lemma LineCells(im: Image, c: Color, s: Segment)
    requires Valid(im) && LineDefined(im.height, im.width, s) && InRange(im.height, im.width, s)
    ensures var ps := LinePixels(Normalize(s));
      var n := StopIndex(im.height, im.width, ps, 0);
      var out := LineEffect(im, c, s);
      && out.outcome == Ok
      && (forall k :: 0 <= k < n ==>
            (0 <= ps[k].x < im.height && 0 <= ps[k].y < im.width &&
             out.image.img[ps[k].x][ps[k].y] == c))
      && (forall i, j :: 0 <= i < im.height && 0 <= j < im.width && Pixel(i, j) !in ps[..n] ==>
            out.image.img[i][j] == im.img[i][j])
  {
    PlotPathCells(im, c, LinePixels(Normalize(s)), 0);
  }

  /** The octant loop's error is dropped: from (5, 5) to (-3, 2) on a 10 x 10
      buffer passes the range check, the swapped start (-3, 2) is rejected by
      plot at once, nothing is drawn, and DrawLine still replies nil. */
  lemma SwallowedError()
    ensures var im := MakeImage(10, 10);
      && LineDefined(im.height, im.width, Segment(5, 5, -3, 2))
      && PlotPath(im, Black, LinePixels(Normalize(Segment(5, 5, -3, 2))), 0).outcome == Err(CoordinateInvalid)
      && LineEffect(im, Black, Segment(5, 5, -3, 2)) == Effect(im, Ok)
  {
    var s := Segment(-3, 2, 5, 5);
    assert Normalize(Segment(5, 5, -3, 2)) == s;
    assert Classify(s) == Octant1;
    assert Offset(8, 3, 0) == 0;
    assert LinePixels(s)[0] == Pixel(-3, 2);
  }
}
