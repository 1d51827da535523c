/** The pixel buffer of image.go: a grid of colours addressed as img[x][y],
    where x counts up to the field `height` and y up to the field `width`.
    The Go value receivers share one backing slice, so every operation is an
    in-place mutation; here each operation returns the buffer it leaves
    behind together with the error it reports. */
module Raster {

  /** A colour; the channels are plain Go ints. */
  datatype Color = Color(r: int, g: int, b: int)

  /** The background that Clear paints. */
  const White := Color(255, 255, 255)

  /** Go's zero value of Color, which `make` puts in fresh cells. */
  const Black := Color(0, 0, 0)

  datatype Image = Image(img: seq<seq<Color>>, height: int, width: int)

  /** The shape MakeImage builds: `height` rows of `width` cells. A buffer
      with no rows may carry any width, as `make` is then never asked for a row. */
  predicate Valid(im: Image)
  {
    && |im.img| == im.height
    && forall x :: 0 <= x < |im.img| ==> |im.img[x]| == im.width
  }

  predicate SameShape(a: Image, b: Image)
  {
    a.height == b.height && a.width == b.width
  }

  datatype Outcome = Ok | Err(message: string)

  /** The buffer after an operation together with the error it returned. */
  datatype Effect = Effect(image: Image, outcome: Outcome)

  datatype Pixel = Pixel(x: int, y: int)

  const CoordinateInvalid := "Error: Coordinate invalid"

  /** The range plot accepts. The upper bounds are inclusive. */
  function PlotAccepts(height: int, width: int, x: int, y: int): (ok: bool)
    ensures ok <==> !(x < 0 || x > height || y < 0 || y > width)
    ensures InBuffer(height, width, x, y) ==> ok
  {
    0 <= x <= height && 0 <= y <= width
  }

  /** A coordinate plot either rejects or can store. A coordinate with
      x == height or y == width passes the check and then indexes past the
      end of the slice, a run-time panic, so callers must avoid it. */
  predicate PlotDefined(height: int, width: int, x: int, y: int)
  {
    PlotAccepts(height, width, x, y) ==> x < height && y < width
  }

  /** plot: reports an error for a rejected coordinate and otherwise
      overwrites exactly one cell. */
  function Plot(im: Image, c: Color, x: int, y: int): (e: Effect)
    requires Valid(im) && PlotDefined(im.height, im.width, x, y)
    ensures Valid(e.image) && SameShape(e.image, im)
    ensures e.outcome.Ok? <==> PlotAccepts(im.height, im.width, x, y)
    ensures e.outcome.Err? ==> e == Effect(im, Err(CoordinateInvalid))
  {
    if x < 0 || x > im.height || y < 0 || y > im.width then
      Effect(im, Err(CoordinateInvalid))
    else
      Effect(im.(img := im.img[x := im.img[x][y := c]]), Ok)
  }

  /** A successful plot sets cell [x][y] to c and leaves every other cell as it was. */
  lemma PlotWrites(im: Image, c: Color, x: int, y: int)
    requires Valid(im) && PlotDefined(im.height, im.width, x, y)
    requires PlotAccepts(im.height, im.width, x, y)
    ensures Plot(im, c, x, y).image.img[x][y] == c
    ensures forall i, j :: 0 <= i < im.height && 0 <= j < im.width && (i != x || j != y) ==>
              Plot(im, c, x, y).image.img[i][j] == im.img[i][j]
  {
  }

  /** The cells of the buffer: the bounds plot evidently means to check. */
  predicate InBuffer(height: int, width: int, x: int, y: int)
  {
    0 <= x < height && 0 <= y < width
  }

  /** The off-by-one in plot's check: on a 1 by 1 buffer it accepts (1, 0),
      one row past the last, and the store then panics. */
  lemma PlotAcceptsPastEnd()
    ensures PlotAccepts(1, 1, 1, 0) && !InBuffer(1, 1, 1, 0) && !PlotDefined(1, 1, 1, 0)
  {
  }

  /** plot with the strict bounds x < height and y < width: it rejects every
      coordinate outside the buffer and needs no precondition beyond a
      well-formed buffer. */
  function PlotChecked(im: Image, c: Color, x: int, y: int): (e: Effect)
    requires Valid(im)
    ensures Valid(e.image) && SameShape(e.image, im)
    ensures e.outcome.Ok? <==> InBuffer(im.height, im.width, x, y)
    ensures e.outcome.Err? ==> e == Effect(im, Err(CoordinateInvalid))
    ensures e.outcome.Ok? ==> e.image.img[x][y] == c
    ensures forall i, j :: InBuffer(im.height, im.width, i, j) && (i != x || j != y) ==>
              e.image.img[i][j] == im.img[i][j]
  {
    if x < 0 || x >= im.height || y < 0 || y >= im.width then
      Effect(im, Err(CoordinateInvalid))
    else
      Effect(im.(img := im.img[x := im.img[x][y := c]]), Ok)
  }

  /** The two checks differ only where plot as written panics: on every
      coordinate PlotDefined admits, plot and the strict plot agree. */
  lemma PlotCheckedAgrees(im: Image, c: Color, x: int, y: int)
    requires Valid(im) && PlotDefined(im.height, im.width, x, y)
    ensures Plot(im, c, x, y) == PlotChecked(im, c, x, y)
    ensures PlotAccepts(im.height, im.width, x, y) <==> InBuffer(im.height, im.width, x, y)
  {
  }

  /** Whether plotting ps[from..] in order stays clear of the panic: every
      pixel up to and including the first rejected one is PlotDefined. */
  predicate PathDefined(height: int, width: int, ps: seq<Pixel>, from: nat)
    decreases |ps| - from
  {
    from >= |ps| ||
    (&& PlotDefined(height, width, ps[from].x, ps[from].y)
     && (PlotAccepts(height, width, ps[from].x, ps[from].y) ==> PathDefined(height, width, ps, from + 1)))
  }

  /** The index at which plotting ps[from..] stops: the first pixel plot
      rejects, or |ps| when it accepts them all. */
  function StopIndex(height: int, width: int, ps: seq<Pixel>, from: nat): (n: nat)
    requires from <= |ps|
    ensures from <= n <= |ps|
    ensures forall k :: from <= k < n ==> PlotAccepts(height, width, ps[k].x, ps[k].y)
    ensures n < |ps| ==> !PlotAccepts(height, width, ps[n].x, ps[n].y)
    decreases |ps| - from
  {
    if from == |ps| || !PlotAccepts(height, width, ps[from].x, ps[from].y) then from
    else StopIndex(height, width, ps, from + 1)
  }

  /** Plots ps[from..] in order, stopping at the first pixel plot rejects
      and returning its error, as every octant loop does. */
  function PlotPath(im: Image, c: Color, ps: seq<Pixel>, from: nat): (e: Effect)
    requires Valid(im) && from <= |ps| && PathDefined(im.height, im.width, ps, from)
    ensures Valid(e.image) && SameShape(e.image, im)
    ensures e.outcome.Err? ==> e.outcome == Err(CoordinateInvalid)
    decreases |ps| - from
  {
    if from == |ps| then Effect(im, Ok)
    else
      var first := Plot(im, c, ps[from].x, ps[from].y);
      if first.outcome.Err? then first
      else PlotPath(first.image, c, ps, from + 1)
  }

  /** A path plots without error exactly when plot accepts every pixel of it. */
  lemma {:induction false} PlotPathOutcome(im: Image, c: Color, ps: seq<Pixel>, from: nat)
    requires Valid(im) && from <= |ps| && PathDefined(im.height, im.width, ps, from)
    ensures PlotPath(im, c, ps, from).outcome.Ok? <==> StopIndex(im.height, im.width, ps, from) == |ps|
    decreases |ps| - from
  {
    if from < |ps| && PlotAccepts(im.height, im.width, ps[from].x, ps[from].y) {
      PlotPathOutcome(Plot(im, c, ps[from].x, ps[from].y).image, c, ps, from + 1);
    }
  }

  /** One pass of an octant loop: a rejected pixel ends the path with plot's
      error, an accepted one is plotted and the rest of the path follows. */
  lemma PlotPathStep(im: Image, c: Color, ps: seq<Pixel>, from: nat)
    requires Valid(im) && from < |ps| && PathDefined(im.height, im.width, ps, from)
    ensures PlotDefined(im.height, im.width, ps[from].x, ps[from].y)
    ensures var first := Plot(im, c, ps[from].x, ps[from].y);
      && (first.outcome.Err? ==> PlotPath(im, c, ps, from) == first)
      && (first.outcome.Ok? ==>
            && PathDefined(im.height, im.width, ps, from + 1)
            && PlotPath(im, c, ps, from) == PlotPath(first.image, c, ps, from + 1))
  {
  }

  /** PlotPath paints every pixel before the stop index and no other cell:
      a line stopped by a rejected pixel keeps the pixels plotted before it. */
  lemma {:induction false} PlotPathCells(im: Image, c: Color, ps: seq<Pixel>, from: nat)
    requires Valid(im) && from <= |ps| && PathDefined(im.height, im.width, ps, from)
    ensures forall k :: from <= k < StopIndex(im.height, im.width, ps, from) ==>
              0 <= ps[k].x < im.height && 0 <= ps[k].y < im.width
    ensures forall k :: from <= k < StopIndex(im.height, im.width, ps, from) ==>
              PlotPath(im, c, ps, from).image.img[ps[k].x][ps[k].y] == c
    ensures forall i, j :: (0 <= i < im.height && 0 <= j < im.width &&
              Pixel(i, j) !in ps[from..StopIndex(im.height, im.width, ps, from)]) ==>
              PlotPath(im, c, ps, from).image.img[i][j] == im.img[i][j]
    decreases |ps| - from
  {
    if from < |ps| && PlotAccepts(im.height, im.width, ps[from].x, ps[from].y) {
      var first := Plot(im, c, ps[from].x, ps[from].y);
      PlotWrites(im, c, ps[from].x, ps[from].y);
      PlotPathCells(first.image, c, ps, from + 1);
      var n := StopIndex(im.height, im.width, ps, from);
      assert ps[from..n] == [ps[from]] + ps[from + 1..n];
    }
  }

  /** The inner loop of fill: plots colour c at (x', y) for x <= x' < height. */
  function FillColumn(im: Image, c: Color, y: int, x: nat): (r: Image)
    requires Valid(im) && 0 <= y < im.width
    ensures Valid(r) && SameShape(r, im)
    ensures forall i, j :: 0 <= i < im.height && 0 <= j < im.width ==>
              r.img[i][j] == (if j == y && i >= x then c else im.img[i][j])
    decreases im.height - x
  {
    if x >= im.height then im
    else FillColumn(Plot(im, c, x, y).image, c, y, x + 1)
  }

  /** The outer loop of fill, over y from `y` up to width. */
  function FillRows(im: Image, c: Color, y: nat): (r: Image)
    requires Valid(im)
    ensures Valid(r) && SameShape(r, im)
    ensures forall i, j :: 0 <= i < im.height && 0 <= j < im.width ==>
              r.img[i][j] == (if j >= y then c else im.img[i][j])
    decreases im.width - y
  {
    if y >= im.width then im
    else FillRows(FillColumn(im, c, y, 0), c, y + 1)
  }

  /** fill: every cell becomes c. */
  function Fill(im: Image, c: Color): (r: Image)
    requires Valid(im)
    ensures Valid(r) && SameShape(r, im)
    ensures forall i, j :: 0 <= i < r.height && 0 <= j < r.width ==> r.img[i][j] == c
  {
    FillRows(im, c, 0)
  }

  function Clear(im: Image): (r: Image)
    requires Valid(im)
    ensures Valid(r) && SameShape(r, im)
    ensures forall i, j :: 0 <= i < r.height && 0 <= j < r.width ==> r.img[i][j] == White
  {
    Fill(im, White)
  }

  /** Filling twice leaves the same buffer as filling once. */
  lemma FillIdempotent(im: Image, c: Color)
    requires Valid(im)
    ensures Fill(Fill(im, c), c) == Fill(im, c)
  {
    var once := Fill(im, c);
    var twice := Fill(once, c);
    assert forall i :: 0 <= i < twice.height ==> twice.img[i] == once.img[i];
  }

  /** MakeImage: `make` fails on a negative length, so a negative height, or
      a negative width when there are rows to allocate, is excluded. */
  function MakeImage(height: int, width: int): (r: Image)
    requires height >= 0 && (height > 0 ==> width >= 0)
    ensures Valid(r) && r.height == height && r.width == width
    ensures forall i, j :: 0 <= i < height && 0 <= j < width ==> r.img[i][j] == White
  {
    var rows := seq(height, _ => seq(if width < 0 then 0 else width, _ => Black));
    Clear(Image(rows, height, width))
  }
}
