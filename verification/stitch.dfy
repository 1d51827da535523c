/** The index stitching of AddSphere and AddTorus (draw.go). The point grid
    is generated by float loops whose length depends on rounding, so it is a
    parameter here: `p` with cols = |p| points. With s steps a grid row
    holds s + 1 points; the cell at (lat, lon) owns two triangles, the first
    (index, index + 1, indexLat2) and the second
    (index + 1, indexLat2 + 1, indexLat2), where index = lat*(s + 1) + lon and
    indexLat2 = (lat*(s + 1) + s + 1) % cols + lon. */
module Stitch {
  import opened Geometry

  /** One triangle of the stitching: cell (lat, lon), first or second. */
  datatype Cell = Cell(lat: nat, lon: nat, second: bool)

  /** Three point indices. */
  datatype Tri = Tri(a: int, b: int, c: int)

  /** The index of the next row's start, wrapped modulo the point count. */
  function Lat2(s: nat, cols: int, lat: nat): (l: int)
    requires cols > 0
    ensures 0 <= l < cols
    ensures (lat + 1) * (s + 1) < cols ==> l == (lat + 1) * (s + 1)
  {
    var n := lat * (s + 1) + (s + 1);
    assert n == (lat + 1) * (s + 1);
    ModBelow(n, cols);
    n % cols
  }

  /** A non-negative value below the divisor is its own remainder. */
  lemma ModBelow(n: int, d: int)
    requires d > 0
    ensures 0 <= n % d < d
    ensures 0 <= n < d ==> n % d == n
  {
  }

  /** The triangle of a cell: three corners of the quad index, index + 1,
      indexLat2, indexLat2 + 1, always including the diagonal from index + 1
      to indexLat2 that the cell's two triangles share. */
  function CellTri(s: nat, cols: int, c: Cell): (t: Tri)
    requires cols > 0
    ensures var q, l := c.lat * (s + 1) + c.lon, Lat2(s, cols, c.lat) + c.lon;
      && {t.a, t.b, t.c} <= {q, q + 1, l, l + 1}
      && q + 1 in {t.a, t.b, t.c} && l in {t.a, t.b, t.c}
  {
    var index := c.lat * (s + 1) + c.lon;
    var indexLat2 := Lat2(s, cols, c.lat) + c.lon;
    if c.second then Tri(index + 1, indexLat2 + 1, indexLat2) else Tri(index, index + 1, indexLat2)
  }

  /** The inner loop of AddTorus from `lon` on: both triangles of every cell. */
  function TorusRow(s: nat, lat: nat, lon: nat): (r: seq<Cell>)
    ensures forall c :: c in r ==> c.lat == lat && lon <= c.lon < s
    decreases s - lon
  {
    if lon >= s then []
    else [Cell(lat, lon, false), Cell(lat, lon, true)] + TorusRow(s, lat, lon + 1)
  }

  /** The outer loop of AddTorus from `lat` on. */
  function TorusRows(s: nat, lat: nat): (r: seq<Cell>)
    ensures forall c :: c in r ==> lat <= c.lat < s && c.lon < s
    decreases s - lat
  {
    if lat >= s then [] else TorusRow(s, lat, 0) + TorusRows(s, lat + 1)
  }

  /** The inner loop of AddSphere: the first triangle only when lon > 0 and
      the second only when lon != s - 1, one triangle at each pole. */
  function SphereRow(s: nat, lat: nat, lon: nat): (r: seq<Cell>)
    ensures forall c :: c in r ==> c.lat == lat && lon <= c.lon < s && OnSphere(s, c)
    decreases s - lon
  {
    if lon >= s then []
    else
      (if lon > 0 then [Cell(lat, lon, false)] else []) +
      (if lon != s - 1 then [Cell(lat, lon, true)] else []) +
      SphereRow(s, lat, lon + 1)
  }

  /** The outer loop of AddSphere from `lat` on. */
  function SphereRows(s: nat, lat: nat): (r: seq<Cell>)
    ensures forall c :: c in r ==> lat <= c.lat < s && c.lon < s && OnSphere(s, c)
    decreases s - lat
  {
    if lat >= s then [] else SphereRow(s, lat, 0) + SphereRows(s, lat + 1)
  }

  /** The cells the sphere keeps: all but the pole-side triangles. */
  predicate OnSphere(s: nat, c: Cell)
  {
    if c.second then c.lon != s - 1 else c.lon > 0
  }

  function Filter(s: nat, cs: seq<Cell>): (r: seq<Cell>)
    ensures |r| <= |cs|
    ensures forall c :: c in r <==> c in cs && OnSphere(s, c)
  {
    if |cs| == 0 then []
    else (if OnSphere(s, cs[0]) then [cs[0]] else []) + Filter(s, cs[1..])
  }

  lemma {:induction false} FilterAppend(s: nat, a: seq<Cell>, b: seq<Cell>)
    ensures Filter(s, a + b) == Filter(s, a) + Filter(s, b)
    decreases |a|
  {
    if |a| == 0 {
      assert a + b == b;
    } else {
      assert (a + b)[0] == a[0];
      assert (a + b)[1..] == a[1..] + b;
      FilterAppend(s, a[1..], b);
    }
  }

  /** The two triangles of one cell, filtered, are the ones the sphere's
      inner loop keeps for that cell. */
  lemma FilterCell(s: nat, lat: nat, lon: nat)
    ensures Filter(s, [Cell(lat, lon, false), Cell(lat, lon, true)]) ==
      (if lon > 0 then [Cell(lat, lon, false)] else []) +
      (if lon != s - 1 then [Cell(lat, lon, true)] else [])
  {
    var first, second := Cell(lat, lon, false), Cell(lat, lon, true);
    assert [first, second] == [first] + [second];
    FilterAppend(s, [first], [second]);
    assert Filter(s, [first]) == if lon > 0 then [first] else [] by {
      assert [first][1..] == [];
    }
    assert Filter(s, [second]) == if lon != s - 1 then [second] else [] by {
      assert [second][1..] == [];
    }
  }

  /** The sphere row is the torus row without its pole-side triangles. */
  lemma {:induction false} SphereRowFilters(s: nat, lat: nat, lon: nat)
    ensures SphereRow(s, lat, lon) == Filter(s, TorusRow(s, lat, lon))
    decreases s - lon
  {
    if lon < s {
      SphereRowFilters(s, lat, lon + 1);
      FilterAppend(s, [Cell(lat, lon, false), Cell(lat, lon, true)], TorusRow(s, lat, lon + 1));
      FilterCell(s, lat, lon);
    }
  }

  /** AddSphere emits AddTorus's triangles minus the pole-side ones, in the same order. */
  lemma {:induction false} SphereIsFilteredTorus(s: nat, lat: nat)
    ensures SphereRows(s, lat) == Filter(s, TorusRows(s, lat))
    decreases s - lat
  {
    if lat < s {
      SphereRowFilters(s, lat, 0);
      SphereIsFilteredTorus(s, lat + 1);
      FilterAppend(s, TorusRow(s, lat, 0), TorusRows(s, lat + 1));
    }
  }

  lemma {:induction false} TorusRowCount(s: nat, lat: nat, lon: nat)
    requires lon <= s
    ensures |TorusRow(s, lat, lon)| == 2 * (s - lon)
    decreases s - lon
  {
    if lon < s {
      TorusRowCount(s, lat, lon + 1);
    }
  }

  lemma {:induction false} TorusRowCells(s: nat, lat: nat, lon: nat)
    ensures forall c :: c in TorusRow(s, lat, lon) <==> c.lat == lat && lon <= c.lon < s
    decreases s - lon
  {
    if lon < s {
      TorusRowCells(s, lat, lon + 1);
    }
  }

  /** AddTorus emits 2*s*s triangles, one first and one second triangle for
      every cell of the s by s grid. */
  lemma {:induction false} TorusCount(s: nat, lat: nat)
    requires lat <= s
    ensures |TorusRows(s, lat)| == 2 * s * (s - lat)
    decreases s - lat
  {
    if lat < s {
      assert TorusRows(s, lat) == TorusRow(s, lat, 0) + TorusRows(s, lat + 1);
      TorusRowCount(s, lat, 0);
      TorusCount(s, lat + 1);
      var k, m := 2 * s, s - (lat + 1);
      assert k * (m + 1) == k * m + k;
    }
  }

  lemma {:induction false} TorusCells(s: nat, lat: nat)
    ensures forall c :: c in TorusRows(s, lat) <==> lat <= c.lat < s && c.lon < s
    decreases s - lat
  {
    if lat < s {
      TorusRowCells(s, lat, 0);
      TorusCells(s, lat + 1);
    }
  }

  lemma {:induction false} SphereRowCount(s: nat, lat: nat, lon: nat)
    requires 0 < lon <= s
    ensures |SphereRow(s, lat, lon)| == if lon == s then 0 else 2 * (s - lon) - 1
    decreases s - lon
  {
    if lon < s {
      SphereRowCount(s, lat, lon + 1);
    }
  }

  /** A whole sphere row emits 2s - 2 triangles: one at each pole cell and
      two at every cell between. */
  lemma SphereRowFull(s: nat, lat: nat)
    requires s > 0
    ensures |SphereRow(s, lat, 0)| == 2 * s - 2
  {
    var first := if s - 1 != 0 then [Cell(lat, 0, true)] else [];
    assert SphereRow(s, lat, 0) == [] + first + SphereRow(s, lat, 1);
    if s > 1 {
      SphereRowCount(s, lat, 1);
    }
  }

  /** AddSphere emits 2*s*s - 2*s triangles: each of its s rows skips the
      first triangle at lon == 0 and the second at lon == s - 1. */
  lemma {:induction false} SphereCount(s: nat, lat: nat)
    requires lat <= s
    ensures |SphereRows(s, lat)| == (2 * s - 2) * (s - lat)
    decreases s - lat
  {
    if lat < s {
      assert SphereRows(s, lat) == SphereRow(s, lat, 0) + SphereRows(s, lat + 1);
      SphereRowFull(s, lat);
      SphereCount(s, lat + 1);
      var k, m := 2 * s - 2, s - (lat + 1);
      assert k * (m + 1) == k * m + k;
    }
  }

  /** Every index a triangle reads lies in the grid. */
  predicate IndicesIn(s: nat, cols: int, cs: seq<Cell>)
    requires cols > 0
  {
    forall k :: 0 <= k < |cs| ==>
      (0 <= CellTri(s, cols, cs[k]).a < cols && 0 <= CellTri(s, cols, cs[k]).b < cols &&
       0 <= CellTri(s, cols, cs[k]).c < cols)
  }

  /** l * w <= h * w when l <= h and w is non-negative. */
  lemma MulLe(l: int, h: int, w: int)
    requires 0 <= l <= h && 0 <= w
    ensures l * w <= h * w
  {
    assert h * w - l * w == (h - l) * w;
  }

  /** With at least (s + 1)^2 points the modulo in lat2 never wraps (lat2 is
      the next row's start) and every index read is below cols. */
  lemma NoWrap(s: nat, cols: int, c: Cell)
    requires cols >= (s + 1) * (s + 1) && c.lat < s && c.lon < s
    ensures Lat2(s, cols, c.lat) == (c.lat + 1) * (s + 1)
    ensures var t := CellTri(s, cols, c); 0 <= t.a < cols && 0 <= t.b < cols && 0 <= t.c < cols
  {
    var w := s + 1;
    MulLe(c.lat + 1, s, w);
    assert s * w + w == w * w;
    assert (c.lat + 1) * w < cols;
    var q, l := c.lat * w + c.lon, (c.lat + 1) * w + c.lon;
    assert c.lat * w + w == (c.lat + 1) * w;
    assert 0 <= q && q + 1 < cols && l + 1 < cols;
  }

  lemma TorusInRange(s: nat, cols: int)
    requires cols >= (s + 1) * (s + 1)
    ensures IndicesIn(s, cols, TorusRows(s, 0))
  {
    TorusCells(s, 0);
    forall k | 0 <= k < |TorusRows(s, 0)|
      ensures var t := CellTri(s, cols, TorusRows(s, 0)[k]); 0 <= t.a < cols && 0 <= t.b < cols && 0 <= t.c < cols
    {
      var c := TorusRows(s, 0)[k];
      assert c in TorusRows(s, 0);
      NoWrap(s, cols, c);
    }
  }

  /** The sphere's cells are cells of the s by s grid. */
  lemma SphereCells(s: nat)
    ensures forall c :: c in SphereRows(s, 0) ==> c.lat < s && c.lon < s
  {
    TorusCells(s, 0);
    SphereIsFilteredTorus(s, 0);
  }

  lemma SphereInRange(s: nat, cols: int)
    requires cols >= (s + 1) * (s + 1)
    ensures IndicesIn(s, cols, SphereRows(s, 0))
  {
    var cs := SphereRows(s, 0);
    SphereCells(s);
    forall k | 0 <= k < |cs|
      ensures var t := CellTri(s, cols, cs[k]); 0 <= t.a < cols && 0 <= t.b < cols && 0 <= t.c < cols
    {
      assert cs[k] in cs;
      NoWrap(s, cols, cs[k]);
    }
  }

  /** The points appended for a list of cells: AddPolygon of the three
      indexed grid points, in order. */
  function Emit(p: seq<Point>, s: nat, cs: seq<Cell>): (r: seq<Point>)
    requires |p| > 0 && IndicesIn(s, |p|, cs)
    ensures |r| == 3 * |cs|
    ensures forall k :: 0 <= k < |cs| ==>
      var t := CellTri(s, |p|, cs[k]);
      r[3 * k] == p[t.a] && r[3 * k + 1] == p[t.b] && r[3 * k + 2] == p[t.c]
    decreases |cs|
  {
    if |cs| == 0 then []
    else
      var t := CellTri(s, |p|, cs[0]);
      assert IndicesIn(s, |p|, cs[1..]) by {
        forall k | 0 <= k < |cs[1..]| ensures cs[1..][k] == cs[k + 1] { }
      }
      [p[t.a], p[t.b], p[t.c]] + Emit(p, s, cs[1..])
  }

  /** AddTorus on a grid `p` whose every index read is in range (Go panics
      otherwise; with s == 0 no index is read). */
  function AddTorus(m: seq<Point>, p: seq<Point>, s: nat): (r: seq<Point>)
    requires s == 0 || (|p| > 0 && IndicesIn(s, |p|, TorusRows(s, 0)))
    ensures |r| == |m| + 3 * (2 * s * s) && r[..|m|] == m
  {
    TorusCount(s, 0);
    if s == 0 then m else m + Emit(p, s, TorusRows(s, 0))
  }

  function AddSphere(m: seq<Point>, p: seq<Point>, s: nat): (r: seq<Point>)
    requires s == 0 || (|p| > 0 && IndicesIn(s, |p|, SphereRows(s, 0)))
    ensures |r| == |m| + 3 * (2 * s * s - 2 * s) && r[..|m|] == m
  {
    SphereCount(s, 0);
    assert (2 * s - 2) * s == 2 * s * s - 2 * s;
    if s == 0 then m else m + Emit(p, s, SphereRows(s, 0))
  }
}
