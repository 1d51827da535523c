/** The polyline emission shared by AddCircle, AddHermite and AddBezier
    (draw.go). Each walks samples of a curve and appends an edge from the
    previous sample to the current one. The previous sample starts as the
    sentinel (-1, -1), and any previous sample with a negative coordinate is
    taken for "no previous sample": the edge from it is skipped. */
module Curves {
  import opened Wrappers
  import opened Geometry

  /** The (x, y) a curve evaluates to at one parameter value. */
  datatype Sample = Sample(x: real, y: real)

  /** A sample that can start an edge: neither coordinate is negative. */
  predicate Anchors(s: Sample)
  {
    s.x >= 0.0 && s.y >= 0.0
  }

  function At(s: Sample, z: real): Point
  {
    Point(s.x, s.y, z)
  }

  /** The edge ending at sample i, if the loop emits one. */
  function EdgeTo(ss: seq<Sample>, i: nat, z: real): seq<Point>
    requires 0 < i < |ss|
  {
    if Anchors(ss[i - 1]) then [At(ss[i - 1], z), At(ss[i], z)] else []
  }

  /** The reference: the edges of the polyline through ss, the edge into
      sample i present exactly when sample i - 1 anchors. */
  function ChainEdges(ss: seq<Sample>, z: real): (r: seq<Point>)
    ensures |ss| <= 1 ==> r == []
    ensures |ss| >= 1 ==> |r| <= 2 * (|ss| - 1)
    decreases |ss|
  {
    if |ss| <= 1 then []
    else ChainEdges(ss[..|ss| - 1], z) + EdgeTo(ss, |ss| - 1, z)
  }

  /** The number of samples among the first n that anchor. */
  function Anchored(ss: seq<Sample>, n: nat): (k: nat)
    requires n <= |ss|
    ensures k <= n
  {
    if n == 0 then 0 else Anchored(ss, n - 1) + (if Anchors(ss[n - 1]) then 1 else 0)
  }

  /** Two points per anchoring sample among all but the last. */
  lemma {:induction false} ChainEdgesCount(ss: seq<Sample>, z: real)
    requires |ss| >= 1
    ensures |ChainEdges(ss, z)| == 2 * Anchored(ss, |ss| - 1)
    decreases |ss|
  {
    if |ss| > 1 {
      var init := ss[..|ss| - 1];
      ChainEdgesCount(init, z);
      AnchoredPrefix(ss, init, |init| - 1);
    }
  }

  lemma {:induction false} AnchoredPrefix(ss: seq<Sample>, init: seq<Sample>, n: nat)
    requires n <= |init| <= |ss| && init == ss[..|init|]
    ensures Anchored(init, n) == Anchored(ss, n)
  {
    if n > 0 {
      AnchoredPrefix(ss, init, n - 1);
      assert init[n - 1] == ss[n - 1];
    }
  }

  /** Anchored(ss, n) == n exactly when each of the first n samples anchors. */
  lemma {:induction false} AnchoredAll(ss: seq<Sample>, n: nat)
    requires n <= |ss|
    ensures Anchored(ss, n) == n <==> forall k :: 0 <= k < n ==> Anchors(ss[k])
  {
    if n > 0 {
      AnchoredAll(ss, n - 1);
    }
  }

  /** The curve loses an edge exactly when a sample other than the last has
      a negative coordinate: the polyline through n samples has its n - 1
      edges if and only if all of the first n - 1 samples anchor. */
  lemma CompleteIff(ss: seq<Sample>, z: real)
    requires |ss| >= 1
    ensures |ChainEdges(ss, z)| == 2 * (|ss| - 1) <==> forall k :: 0 <= k < |ss| - 1 ==> Anchors(ss[k])
  {
    ChainEdgesCount(ss, z);
    AnchoredAll(ss, |ss| - 1);
  }

  /** With every sample but the last anchoring, the edges chain the samples in
      order: edge k runs from sample k to sample k + 1, so each edge ends
      where the next one starts. */
  lemma {:induction false} ChainEdgesLinked(ss: seq<Sample>, z: real)
    requires forall k :: 0 <= k < |ss| - 1 ==> Anchors(ss[k])
    ensures |ChainEdges(ss, z)| == if |ss| == 0 then 0 else 2 * (|ss| - 1)
    ensures forall k :: 0 <= k < |ss| - 1 ==>
      ChainEdges(ss, z)[2 * k] == At(ss[k], z) && ChainEdges(ss, z)[2 * k + 1] == At(ss[k + 1], z)
    decreases |ss|
  {
    if |ss| > 1 {
      var init := ss[..|ss| - 1];
      assert forall k :: 0 <= k < |init| - 1 ==> init[k] == ss[k];
      ChainEdgesLinked(init, z);
    }
  }

  /** The loop the three curve operations share: oldX and oldY start at -1;
      a sample after an old point with a negative coordinate only becomes
      the old point, any other sample gets the edge from the old point. */
  method EmitPolyline(m: seq<Point>, ss: seq<Sample>, z: real) returns (r: seq<Point>)
    ensures r == m + ChainEdges(ss, z)
  {
    r := m;
    var oldX, oldY := -1.0, -1.0;
    var i := 0;
    while i < |ss|
      invariant 0 <= i <= |ss|
      invariant r == m + ChainEdges(ss[..i], z)
      invariant i == 0 ==> oldX == -1.0 && oldY == -1.0
      invariant i > 0 ==> Sample(oldX, oldY) == ss[i - 1]
    {
      var x, y := ss[i].x, ss[i].y;
      assert ss[..i + 1][..i] == ss[..i];
      if oldX < 0.0 || oldY < 0.0 {
        oldX, oldY := x, y;
        i := i + 1;
        continue;
      }
      r := r + [Point(oldX, oldY, z), Point(x, y, z)];
      oldX, oldY := x, y;
      i := i + 1;
    }
    assert ss[..i] == ss;
  }

  /** The 101 samples of AddCircle at t = i/100. `unit` stands for the pair
      (cos 2 pi t, sin 2 pi t); trigonometry is not modelled. */
  function CircleSamples(cx: real, cy: real, r: real, unit: real -> Sample): (ss: seq<Sample>)
    ensures |ss| == 101
  {
    seq(101, i => Sample(r * unit(i as real / 100.0).x + cx, r * unit(i as real / 100.0).y + cy))
  }

  /** AddCircle: the edges of the polyline through the circle's samples, at depth cz. */
  method AddCircle(m: seq<Point>, cx: real, cy: real, cz: real, r: real, unit: real -> Sample)
    returns (res: seq<Point>)
    ensures res == m + ChainEdges(CircleSamples(cx, cy, r, unit), cz)
    ensures |res| <= |m| + 200 && res[..|m|] == m
  {
    res := EmitPolyline(m, CircleSamples(cx, cy, r, unit), cz);
  }

  /** A circle in the non-negative quadrant is drawn closed-up to its 100
      chained edges; a circle with a sample left of or below the axes among
      its first 100 loses edges. */
  lemma CircleEdges(cx: real, cy: real, cz: real, r: real, unit: real -> Sample)
    ensures var ss := CircleSamples(cx, cy, r, unit);
      |ChainEdges(ss, cz)| == 200 <==> forall k :: 0 <= k < 100 ==> Anchors(ss[k])
  {
    CompleteIff(CircleSamples(cx, cy, r, unit), cz);
  }

  /** A circle whose radius keeps it in the non-negative quadrant (the unit
      samples lie in [-1, 1]) keeps all 100 edges, chained in order. */
  lemma CircleInQuadrant(cx: real, cy: real, cz: real, r: real, unit: real -> Sample)
    requires 0.0 <= r <= cx && r <= cy
    requires forall t :: -1.0 <= unit(t).x <= 1.0 && -1.0 <= unit(t).y <= 1.0
    ensures var ss := CircleSamples(cx, cy, r, unit);
      && |ChainEdges(ss, cz)| == 200
      && forall k :: 0 <= k < 100 ==>
           ChainEdges(ss, cz)[2 * k] == At(ss[k], cz) && ChainEdges(ss, cz)[2 * k + 1] == At(ss[k + 1], cz)
  {
    var ss := CircleSamples(cx, cy, r, unit);
    forall k | 0 <= k < 100 ensures Anchors(ss[k]) {
      var u := unit(k as real / 100.0);
      assert r * u.x >= -r by { ScaleBound(r, u.x); }
      assert r * u.y >= -r by { ScaleBound(r, u.y); }
    }
    ChainEdgesLinked(ss, cz);
  }

  lemma ScaleBound(r: real, u: real)
    requires r >= 0.0 && -1.0 <= u <= 1.0
    ensures -r <= r * u <= r
  {
    assert r * u + r == r * (u + 1.0);
    assert r - r * u == r * (1.0 - u);
  }

  /** The cubic a t^3 + b t^2 + c t + d: column 0 of the coefficient matrix
      the basis product returns. */
  datatype Cubic = Cubic(a: real, b: real, c: real, d: real)

  function Eval(k: Cubic, t: real): real
  {
    k.a * t * t * t + k.b * t * t + k.c * t + k.d
  }

  /** The coefficient computation: the basis matrix (as its four columns) and
      the geometry vector go to the matrix library's Mult, which may fail.
      The library is not part of this model, so it is a parameter. */
  type Mult = (seq<seq<real>>, seq<real>) -> Result<Cubic>

  const HermiteBasis: seq<seq<real>> :=
    [[2.0, -3.0, 0.0, 1.0], [-2.0, 3.0, 0.0, 0.0], [1.0, -2.0, 1.0, 0.0], [1.0, -1.0, 0.0, 0.0]]

  const BezierBasis: seq<seq<real>> :=
    [[-1.0, 3.0, -3.0, 1.0], [3.0, -6.0, 3.0, 0.0], [-3.0, 3.0, 0.0, 0.0], [1.0, 0.0, 0.0, 0.0]]

  /** The samples of a parametric curve at t = i/steps for 0 <= i <= steps.
      With steps == 0 draw.go divides 0 by 0 and samples at NaN; a single
      sample never ends an edge, so 0 stands in for that parameter. */
  function CurveSamples(xc: Cubic, yc: Cubic, steps: int): (ss: seq<Sample>)
    ensures |ss| == if steps < 0 then 0 else steps + 1
  {
    if steps < 0 then []
    else seq(steps + 1, i => var t := if steps == 0 then 0.0 else i as real / steps as real;
               Sample(Eval(xc, t), Eval(yc, t)))
  }

  /** The outcome of a curve operation: the matrix after it and its error. */
  datatype Appended = Appended(m: seq<Point>, error: Option<string>)

  /** AddHermite and AddBezier: compute the x and y coefficients, returning
      the first error unchanged and leaving m as it was, then emit the
      polyline through steps + 1 samples, steps = int(1 / stepSize), at depth 0. */
  method AddParametric(m: seq<Point>, basis: seq<seq<real>>, gx: seq<real>, gy: seq<real>,
                       stepSize: real, mult: Mult) returns (r: Appended)
    requires stepSize != 0.0
    ensures mult(basis, gx).Failure? ==> r == Appended(m, Some(mult(basis, gx).error))
    ensures mult(basis, gx).Success? && mult(basis, gy).Failure? ==>
      r == Appended(m, Some(mult(basis, gy).error))
    ensures mult(basis, gx).Success? && mult(basis, gy).Success? ==>
      && r.error == None
      && r.m == m + ChainEdges(CurveSamples(mult(basis, gx).value, mult(basis, gy).value, Trunc(1.0 / stepSize)), 0.0)
  {
    var xr := mult(basis, gx);
    if xr.Failure? {
      return Appended(m, Some(xr.error));
    }
    var yr := mult(basis, gy);
    if yr.Failure? {
      return Appended(m, Some(yr.error));
    }
    var steps := Trunc(1.0 / stepSize);
    var edges := EmitPolyline(m, CurveSamples(xr.value, yr.value, steps), 0.0);
    return Appended(edges, None);
  }

  method AddHermite(m: seq<Point>, x0: real, y0: real, x1: real, y1: real,
                    rx0: real, ry0: real, rx1: real, ry1: real, stepSize: real, mult: Mult)
    returns (r: Appended)
    requires stepSize != 0.0
    ensures r.error.None? <==>
      mult(HermiteBasis, [x0, x1, rx0, rx1]).Success? && mult(HermiteBasis, [y0, y1, ry0, ry1]).Success?
    ensures r.error.Some? ==> r.m == m
    ensures r.error.None? ==> r.m == m + ChainEdges(CurveSamples(
      mult(HermiteBasis, [x0, x1, rx0, rx1]).value, mult(HermiteBasis, [y0, y1, ry0, ry1]).value,
      Trunc(1.0 / stepSize)), 0.0)
  {
    r := AddParametric(m, HermiteBasis, [x0, x1, rx0, rx1], [y0, y1, ry0, ry1], stepSize, mult);
  }

  method AddBezier(m: seq<Point>, x0: real, y0: real, x1: real, y1: real,
                   x2: real, y2: real, x3: real, y3: real, stepSize: real, mult: Mult)
    returns (r: Appended)
    requires stepSize != 0.0
    ensures r.error.None? <==>
      mult(BezierBasis, [x0, x1, x2, x3]).Success? && mult(BezierBasis, [y0, y1, y2, y3]).Success?
    ensures r.error.Some? ==> r.m == m
    ensures r.error.None? ==> r.m == m + ChainEdges(CurveSamples(
      mult(BezierBasis, [x0, x1, x2, x3]).value, mult(BezierBasis, [y0, y1, y2, y3]).value,
      Trunc(1.0 / stepSize)), 0.0)
  {
    r := AddParametric(m, BezierBasis, [x0, x1, x2, x3], [y0, y1, y2, y3], stepSize, mult);
  }

  /** A step size above 1 (or a negative one) leaves at most one sample, so
      no edge is added. */
  lemma FewSteps(xc: Cubic, yc: Cubic, stepSize: real)
    requires stepSize > 1.0 || stepSize < 0.0
    ensures ChainEdges(CurveSamples(xc, yc, Trunc(1.0 / stepSize)), 0.0) == []
  {
    if stepSize > 1.0 {
      assert 0.0 < 1.0 / stepSize < 1.0;
    } else {
      assert 1.0 / stepSize < 0.0;
    }
  }

  /** With steps > 0 the first sample is the curve at t = 0 and the last at t = 1. */
  lemma CurveEnds(xc: Cubic, yc: Cubic, steps: int)
    requires steps > 0
    ensures CurveSamples(xc, yc, steps)[0] == Sample(Eval(xc, 0.0), Eval(yc, 0.0))
    ensures CurveSamples(xc, yc, steps)[steps] == Sample(Eval(xc, 1.0), Eval(yc, 1.0))
  {
    var n := steps as real;
    assert 0 as real / n == 0.0;
    assert steps as real / n == 1.0;
  }

  /** Under the product in which coefficient i of the cubic is the i-th
      entries of the basis columns weighted by the geometry vector. */
  predicate ColumnProduct(basis: seq<seq<real>>, g: seq<real>, k: Cubic)
    requires |basis| == 4 && |g| == 4 && forall j :: 0 <= j < 4 ==> |basis[j]| == 4
  {
    && k.a == basis[0][0] * g[0] + basis[1][0] * g[1] + basis[2][0] * g[2] + basis[3][0] * g[3]
    && k.b == basis[0][1] * g[0] + basis[1][1] * g[1] + basis[2][1] * g[2] + basis[3][1] * g[3]
    && k.c == basis[0][2] * g[0] + basis[1][2] * g[1] + basis[2][2] * g[2] + basis[3][2] * g[3]
    && k.d == basis[0][3] * g[0] + basis[1][3] * g[1] + basis[2][3] * g[2] + basis[3][3] * g[3]
  }

  /** The slope 3 a t^2 + 2 b t + c of the cubic. */
  function Slope(k: Cubic, t: real): real
  {
    3.0 * k.a * t * t + 2.0 * k.b * t + k.c
  }

  /** The Hermite basis constants interpolate: under the column product the
      cubic for (p0, p1, r0, r1) starts at p0 with slope r0 and ends at p1
      with slope r1. */
  lemma HermiteInterpolates(p0: real, p1: real, r0: real, r1: real, k: Cubic)
    requires ColumnProduct(HermiteBasis, [p0, p1, r0, r1], k)
    ensures Eval(k, 0.0) == p0 && Eval(k, 1.0) == p1
    ensures Slope(k, 0.0) == r0 && Slope(k, 1.0) == r1
  {
  }

  /** The Bezier basis constants give the Bernstein form: under the column
      product the cubic for (p0, p1, p2, p3) is
      (1-t)^3 p0 + 3t(1-t)^2 p1 + 3t^2(1-t) p2 + t^3 p3 for every t. */
  lemma BezierBernstein(p0: real, p1: real, p2: real, p3: real, k: Cubic, t: real)
    requires ColumnProduct(BezierBasis, [p0, p1, p2, p3], k)
    ensures var s := 1.0 - t;
      Eval(k, t) == s * s * s * p0 + 3.0 * t * s * s * p1 + 3.0 * t * t * s * p2 + t * t * t * p3
    ensures Eval(k, 0.0) == p0 && Eval(k, 1.0) == p3
  {
  }
}
