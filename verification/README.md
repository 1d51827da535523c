# Wireframe renderer core, modelled in Dafny

This project models the integer raster core of a small Go wireframe renderer. It also models the integer and structural skeleton of the renderer's tessellators. The model covers these parts:

- **Pixel buffer** (image.go).
  - `Color` and `Image` records, with `MakeImage`, `plot`, `fill` and `Clear`.
  - The plain PPM ("P3") text that `SavePPM` builds. `height` is written as the column count and `width` as the row count, and the rows are flipped vertically.
- **Line rasteriser** (draw.go).
  - `DrawLine`: the endpoint range check, the swap that makes x ascend, and the octant choice.
  - The four midpoint decision-variable loops `drawLineOctant1/2/7/8`.
- **Batch drawing** (draw.go).
  - `DrawLines`: one line per column pair.
  - `DrawPolygons`: one triangle per column triple, culled by the sign of a cross product that may fail.
- **Tessellation structure** (draw.go).
  - The twelve triangles of `AddBox`.
  - The integer index stitching of `AddSphere` and `AddTorus`.
  - The "previous point" polyline rule of `AddCircle`, `AddHermite` and `AddBezier`. It uses `-1` as a sentinel, so no edge leaves a sample that has a negative coordinate.

The Go `Image` has value receivers but shares its slice, so every drawing operation mutates the one buffer in place. In the model each operation returns the buffer it leaves behind, wrapped in an `Effect` together with the error it reports. A point list, which the Go code keeps as a `Matrix` with one column per point, is a `seq<Point>`. `AddPoint`, `AddEdge` and `AddPolygon` append to that sequence.

Modules:

- `Raster`: the buffer.
- `Midpoint`: the arithmetic of the octant loops.
- `Line`: the rasteriser.
- `Geometry`: points, truncation and the cross product.
- `Render`: batch drawing.
- `Shapes`: the box.
- `Stitch`: sphere and torus indices.
- `Curves`: the polylines.
- `Ppm`: the text, plus a decoder that serves as its inverse.
- `Wrappers`: `Option` and `Result`.

Some key definitions:

- **Out-of-range index.** `plot` lets `x == height` and `y == width` through its check, and the store then indexes past the end. That is a run-time panic, not an error value. The model therefore makes it a precondition, `Raster.PlotDefined`. Drawing operations carry it as `PathDefined`, `LineDefined` and `AllDefined`. Each of these demands it only of the pixels a loop actually reaches, that is, up to and including the first one `plot` rejects.
- **Midpoint reference.** Each octant loop follows `Midpoint.Walk`, the loops' own recurrence of offset and decision value; `Midpoint.Offset` is the offset it reaches. The independent references are `Midpoint.Nearest`, the nearest integer to `minor * i / major` with ties toward the start point, and the closed form `(2*minor*i + major - 1) div (2*major)`. `Midpoint.OffsetIsNearest` and `Midpoint.OffsetClosedForm` prove that the walk's offset is exactly that.
- **Culling reference.** `Geometry.CrossZ` is the z component of `(b - a) x (c - a)`. The culling test itself is a parameter that may fail, as `CrossProduct` may.
- **Polyline reference.** `Curves.ChainEdges` is the reference for the sentinel loop. The edge into sample i is present exactly when sample i - 1 has both coordinates non-negative.
- **PPM decoder.** `Ppm.Decode` reads PPM text back into a buffer. It is the partner of the serialiser, and the round trip `Decode(Serialize(im)) == Some(im)` is proved.

Some behaviours of the Go code that the model keeps as written:

- `plot` rejects `x > height`, not `x >= height`. This is listed under Findings.
- `DrawLine` checks `x0 < 0`, `y0 < 0`, `x1 > width` and `y1 > height`. It compares x with `width` and y with `height`, while `plot` compares x with `height` and y with `width`.
- `DrawLine` drops an octant loop's `plot` error and reports success.
- A triangle whose first edge fails still gets its other two edges drawn, because `DrawPolygons` ignores what `DrawLine` returns.
- The step count is `int(1/stepSize)`, a truncation, not a rounding.
- A curve or circle emits fewer than `steps` edges once a sample has a negative coordinate.

## Model

| member | source | states |
|---|---|---|
| Raster.Plot | image.go:37-43 | plot fails exactly when x < 0, x > height, y < 0 or y > width, and then leaves the buffer untouched; otherwise it succeeds and the buffer keeps its shape |
| Raster.PlotWrites | image.go:41 | a successful plot(c, x, y) sets cell [x][y] to c and leaves every other cell unchanged |
| Raster.PlotAcceptsPastEnd | image.go:38 | on a 1 by 1 buffer the check accepts (1, 0), a cell outside the buffer, whose store would index out of range |
| Raster.PlotChecked | image.go:37-43 | the strict-bounds plot: it fails exactly when (x, y) is outside the buffer, and otherwise writes exactly cell [x][y] |
| Raster.PlotCheckedAgrees | image.go:38-41 | wherever the as-written plot does not panic, it coincides with the strict-bounds plot |
| Raster.StopIndex | draw.go:69-73 | the index of the first pixel plot rejects: every earlier pixel is accepted, and the pixel at the index is rejected |
| Raster.PlotAccepts | image.go:38 | plot's range check passes exactly when 0 <= x <= height and 0 <= y <= width, so it passes every cell of the buffer |
| Raster.PlotPath | draw.go:66-81 | a loop that plots pixels in order until the first failure keeps the buffer well-formed and its shape, and any error it returns is plot's |
| Raster.PlotPathOutcome | draw.go:66-81 | that loop succeeds exactly when no pixel of the path is rejected, that is, when the stop index is the path's length |
| Raster.PlotPathCells | draw.go:66-81 | every pixel before the stop index lies in the buffer and holds c afterwards, and every cell off that prefix of the path is unchanged (no rollback) |
| Raster.FillColumn | image.go:47-49 | the inner loop of fill paints column y from row x on, and changes no other cell |
| Raster.FillRows | image.go:46-50 | the outer loop of fill paints every column from y on, and changes no other cell |
| Raster.Fill | image.go:45-51 | fill only plots in-range cells and leaves every cell equal to c, keeping the shape |
| Raster.Clear | image.go:53-55 | Clear leaves every cell white (255, 255, 255) |
| Raster.FillIdempotent | image.go:45-55 | filling twice with one colour gives the same buffer as filling once |
| Raster.MakeImage | image.go:23-35 | MakeImage(h, w) gives a well-formed h by w buffer in which every cell is white |
| Midpoint.Decision | draw.go:68-78 | at a nearest offset, the decision value is positive exactly when the next step must advance the minor coordinate to stay nearest |
| Midpoint.Walk | draw.go:67-78 | after i steps the loop's minor coordinate has advanced at most i times |
| Midpoint.WalkDecision | draw.go:68-78 | the decision value the loops carry is always the closed-form distance of the ideal line from the midpoint at the offset reached |
| Midpoint.DecisionUpdate | draw.go:74-78 | the loop's increments (2*lA, and 2*lB when the minor coordinate advances) are the change of the closed-form decision value |
| Midpoint.NearestNext | draw.go:74-78 | the sign test on the decision value keeps the offset nearest to the ideal line from one step to the next |
| Midpoint.OffsetNearest | draw.go:66-132 | after i driving steps the loop's offset is within half a pixel of minor*i/major, with ties toward the start |
| Midpoint.NearestUnique | draw.go:66-132 | at most one offset is nearest in that sense, so the loops' choice is forced |
| Midpoint.OffsetIsNearest | draw.go:66-132 | an offset is nearest to the ideal line exactly when it is the one the loop computes |
| Midpoint.OffsetClosedForm | draw.go:66-132 | the loop's offset equals (2*minor*i + major - 1) div (2*major) |
| Midpoint.OffsetStep | draw.go:74-77 | each step moves the offset by 0 or 1 |
| Midpoint.OffsetEnd | draw.go:69 | after major steps the offset is exactly minor, so the loop ends on the far endpoint |
| Midpoint.OffsetBounds | draw.go:66-132 | the offset never passes minor within the loop's range |
| Midpoint.OffsetFlat | draw.go:83-115 | for a zero minor extent the offset never moves |
| Midpoint.OffsetProfile | draw.go:66-132 | the offset starts at 0, ends at minor, stays at most minor and rises by 0 or 1 per step |
| Midpoint.OffsetNearestAll | draw.go:66-132 | every offset the loop reaches is the nearest one |
| Line.InRange | draw.go:40 | DrawLine's range check passes exactly when x0 >= 0, y0 >= 0, x1 <= width and y1 <= height, tested before the swap; when x0 <= x1 (no swap) both x values lie in [0, width], while a swapped segment may start at a negative x |
| Line.Classify | draw.go:48-62 | for x0 <= x1 the dispatch picks octant 1 exactly when 0 <= dy <= dx, octant 2 exactly when dy > dx >= 0, octant 7 exactly when -dy > dx >= 0, and octant 8 exactly when 0 < -dy <= dx |
| Line.Octant1Pixels | draw.go:66-81 | octant 1's path has one pixel per x from x0 to x1 |
| Line.Octant2Pixels | draw.go:83-98 | octant 2's path has one pixel per y from y0 to y1 |
| Line.Octant7Pixels | draw.go:100-115 | octant 7's path has one pixel per y from y0 down to y1 |
| Line.Octant8Pixels | draw.go:117-132 | octant 8's path has one pixel per x from x0 to x1 |
| Line.LinePixels | draw.go:48-62 | the dispatched path has one pixel per step along the longer axis, max(dx, \|dy\|) + 1 in all |
| Line.Normalize | draw.go:43-46 | the swap gives x0 <= x1 and is either the original segment or the segment reversed |
| Line.LineEffect | draw.go:39-64 | DrawLine fails exactly when x0 < 0, y0 < 0, x1 > width or y1 > height (before the swap), leaving the buffer untouched; otherwise it reports success |
| Line.DrawLine | draw.go:39-64 | the method (range check, swap, octant dispatch by the signs and sizes of dx and dy) computes LineEffect |
| Line.DrawLineOctant1 | draw.go:66-81 | the octant 1 loop plots, in order and stopping at the first failure, the pixel path whose y is the midpoint offset |
| Line.DrawLineOctant2 | draw.go:83-98 | the octant 2 loop plots, in order and stopping at the first failure, the pixel path whose x is the midpoint offset |
| Line.DrawLineOctant7 | draw.go:100-115 | the octant 7 loop plots, in order and stopping at the first failure, the downward pixel path whose x is the midpoint offset |
| Line.DrawLineOctant8 | draw.go:117-132 | the octant 8 loop plots, in order and stopping at the first failure, the pixel path whose y falls by the midpoint offset |
| Line.Octant1Shape | draw.go:66-81 | octant 1 plots x1-x0+1 pixels, one per x in order, from (x0, y0) to (x1, y1), with y within [y0, y1] and rising by 0 or 1 per step |
| Line.Octant2Shape | draw.go:83-98 | octant 2 plots y1-y0+1 pixels, one per y upward, from (x0, y0) to (x1, y1), with x within [x0, x1] and rising by 0 or 1 per step |
| Line.Octant7Shape | draw.go:100-115 | octant 7 plots y0-y1+1 pixels, one per y downward, from (x0, y0) to (x1, y1), with x within [x0, x1] and rising by 0 or 1 per step |
| Line.Octant8Shape | draw.go:117-132 | octant 8 plots x1-x0+1 pixels, one per x in order, from (x0, y0) to (x1, y1), with y within [y1, y0] and falling by 0 or 1 per step |
| Line.Octant1Nearest | draw.go:66-81 | every octant 1 pixel is the one nearest to the ideal line at its x |
| Line.Octant2Nearest | draw.go:83-98 | every octant 2 pixel is the one nearest to the ideal line at its y |
| Line.Octant7Nearest | draw.go:100-115 | every octant 7 pixel is the one nearest to the ideal line at its y |
| Line.Octant8Nearest | draw.go:117-132 | every octant 8 pixel is the one nearest to the ideal line at its x |
| Line.Octant1Chain | draw.go:66-81 | octant 1's path is a connected chain of max(\|dx\|, \|dy\|) + 1 pixels from endpoint to endpoint inside the bounding box |
| Line.Octant2Chain | draw.go:83-98 | octant 2's path is such a chain |
| Line.Octant7Chain | draw.go:100-115 | octant 7's path is such a chain |
| Line.Octant8Chain | draw.go:117-132 | octant 8's path is such a chain |
| Line.LineShape | draw.go:48-62 | whichever octant the dispatch picks, its path is a connected chain from the first endpoint to the second |
| Line.DrawnChain | draw.go:43-62 | for every segment, the path after the swap is a connected chain between the two endpoints |
| Line.SwapSameLine | draw.go:40-46 | for x0 != x1, when both argument orders pass the range check, drawing either order has the same effect on the buffer |
| Line.VerticalUp | draw.go:83-98 | a vertical upward segment plots (x0, y0 + j) for j = 0 .. y1-y0 |
| Line.VerticalDown | draw.go:100-115 | a vertical downward segment plots (x0, y0 - j) for j = 0 .. y0-y1 |
| Line.VerticalReversed | draw.go:83-115 | for x0 == x1, octants 2 and 7 plot the same pixels in opposite orders |
| Line.LineCells | draw.go:39-81 | after a DrawLine that passes the range check, every pixel before the first rejected one holds c, every other cell is unchanged, and the result is success |
| Line.SwallowedError | draw.go:52-63 | on a 10 by 10 buffer, the segment (5,5)-(-3,2) makes the octant loop fail, yet DrawLine reports success and leaves the buffer unchanged |
| Geometry.Trunc | draw.go:25-27 | int(f) truncates toward zero: the result lies within 1 of f, on the side of 0 |
| Geometry.AddPoint | draw.go:306 | AddPoint appends exactly the one point and keeps what was there |
| Geometry.AddEdge | draw.go:146 | AddEdge appends exactly the two endpoints, in order, and keeps what was there |
| Geometry.AddPolygon | draw.go:242 | AddPolygon appends exactly the three vertices, in order, and keeps what was there |
| Geometry.CrossZSwap | draw.go:17-24 | reversing a triangle's winding negates the z component of the cross product, so at most one of the two windings passes the culling test |
| Geometry.CrossZRotate | draw.go:17-24 | rotating the vertices of a triangle keeps its cross product, so the culling test does not depend on which vertex comes first |
| Render.DrawSegments | draw.go:32-37 | drawing a list of segments with their errors dropped keeps the buffer well-formed and its shape |
| Render.DrawSegmentsStep | draw.go:34-36 | drawing a list draws its first segment, then the rest |
| Render.DrawSegmentsAppend | draw.go:14-37 | drawing a concatenation draws the first list, then the second |
| Render.DrawSegmentsCells | draw.go:14-37 | every cell the batch changes holds the drawing colour and lies on the pixel path of one of the segments |
| Render.EdgeSegments | draw.go:34-35 | DrawLines' segments are one per pair (2k, 2k+1) of points, truncated to ints; an odd last point is dropped |
| Render.DrawLinesAt | draw.go:34-35 | one pass of the DrawLines loop draws segment k and leaves exactly segments k+1 onward of the reference to draw |
| Render.DrawLines | draw.go:32-37 | the loop over i = 0, 2, 4, ... while i < cols-1 draws exactly those segments in order |
| Render.Visible | draw.go:19-24 | a triangle is visible only when its cross product succeeds, and then exactly when the z component is positive |
| Render.VisibleCrossZ | draw.go:17-24 | with the geometric cross product, a triangle is visible exactly when CrossZ > 0, never in both windings, and the verdict does not change when the vertices are rotated |
| Render.VisibleSegments | draw.go:16-28 | no triangle is drawn once fewer than three points remain |
| Render.VisibleStep | draw.go:19-28 | a triangle whose cross product succeeds with z > 0 draws v0-v1, v1-v2, v2-v0 before the remaining triangles; one whose cross product fails or has z <= 0 draws nothing |
| Render.DrawTriangle | draw.go:25-27 | the three DrawLine calls draw the three edges v0-v1, v1-v2, v2-v0 in that order, each error ignored |
| Render.DrawPolygonAt | draw.go:17-28 | one iteration of the loop body advances the reference by exactly one triangle |
| Render.DrawPolygons | draw.go:14-30 | the loop over i = 0, 3, 6, ... while i < cols-2 draws exactly the edges of the visible triangles, in order |
| Shapes.AddBox | draw.go:236-263 | AddBox appends exactly 36 points (12 triangles) and keeps what was there |
| Shapes.AddBoxAppends | draw.go:236-263 | triangle k of the box sits at points 3k .. 3k+2 after the old content |
| Shapes.BoxFaces | draw.go:241-263 | both triangles of each face share that face's fixed coordinate: z, z - depth, y, y - height, x or x + width |
| Shapes.BoxOutward | draw.go:241-263 | for a box of positive extent every triangle's normal points out of its face |
| Shapes.BoxCulling | draw.go:236-263 | with the geometric cross product, a box of positive extent passes the culling test for exactly its two front triangles |
| Stitch.Filter | draw.go:280-290 | the sphere's filter keeps exactly the cells whose triangle is not at a pole, and never more cells than it was given |
| Stitch.FilterAppend | draw.go:276-291 | filtering distributes over concatenation, so the kept cells keep their order |
| Stitch.FilterCell | draw.go:280-290 | for one cell the sphere skips the first triangle at lon == 0 and the second at lon == s-1 |
| Stitch.SphereRowFilters | draw.go:276-291 | one sphere row emits the torus row's triangles minus the pole ones |
| Stitch.SphereIsFilteredTorus | draw.go:273-292 | the sphere emits exactly the torus's triangle sequence with the pole triangles removed, in the same order |
| Stitch.Lat2 | draw.go:274-275 | lat2 is always a valid column index, and it is (lat+1)(s+1) whenever that is below cols |
| Stitch.CellTri | draw.go:276-289 | a cell's triangle takes its indices from index, index+1, indexLat2 and indexLat2+1, and always uses index+1 and indexLat2 |
| Stitch.TorusRow | draw.go:322-334 | a torus row from lon covers only cells of its latitude with lon <= c.lon < s |
| Stitch.TorusRows | draw.go:319-335 | the torus from latitude lat covers only cells with lat <= c.lat < s and c.lon < s |
| Stitch.SphereRow | draw.go:276-291 | a sphere row from lon covers only non-pole cells of its latitude with lon <= c.lon < s |
| Stitch.SphereRows | draw.go:273-292 | the sphere from latitude lat covers only non-pole cells with lat <= c.lat < s and c.lon < s |
| Stitch.SphereRowFull | draw.go:276-291 | a whole sphere row emits 2s - 2 triangles, two per cell less one at each pole |
| Stitch.TorusRowCount | draw.go:322-334 | a torus row from lon emits 2(s - lon) triangles |
| Stitch.TorusRowCells | draw.go:322-334 | a torus row from lon covers exactly the cells of its latitude with lon <= c.lon < s |
| Stitch.TorusCount | draw.go:319-335 | from latitude lat the torus emits 2s(s - lat) triangles, so 2s² in all |
| Stitch.TorusCells | draw.go:319-335 | the torus emits exactly the cells with lat <= c.lat < s and c.lon < s |
| Stitch.SphereRowCount | draw.go:276-291 | a sphere row from lon > 0 emits 2(s - lon) - 1 triangles, or none at lon == s |
| Stitch.SphereCount | draw.go:273-292 | from latitude lat the sphere emits (2s - 2)(s - lat) triangles, so 2s² - 2s in all |
| Stitch.NoWrap | draw.go:274-278 | with cols >= (s+1)², the % in lat2 never wraps, and all three indices of each triangle are below cols |
| Stitch.TorusInRange | draw.go:319-335 | with cols >= (s+1)², every index the torus reads is in range |
| Stitch.SphereCells | draw.go:273-292 | the sphere's cells all lie in the s by s grid |
| Stitch.SphereInRange | draw.go:273-292 | with cols >= (s+1)², every index the sphere reads is in range |
| Stitch.Emit | draw.go:326-333 | each cell contributes the three grid points (index, index+1, indexLat2) or (index+1, indexLat2+1, indexLat2), in order |
| Stitch.AddTorus | draw.go:312-336 | AddTorus appends 2s² triangles and keeps what was there |
| Stitch.AddSphere | draw.go:266-293 | AddSphere appends 2s² - 2s triangles and keeps what was there |
| Curves.ChainEdges | draw.go:175-189 | no edge for fewer than two samples, and at most one edge per later sample |
| Curves.ChainEdgesCount | draw.go:181-186 | the number of edges is the number of anchoring samples (both coordinates >= 0) among all but the last |
| Curves.AnchoredAll | draw.go:181 | every sample among the first n anchors exactly when all n are counted |
| Curves.CompleteIff | draw.go:181-186 | n samples give the full n-1 edges exactly when each of the first n-1 has both coordinates non-negative |
| Curves.ChainEdgesLinked | draw.go:181-188 | when all those samples anchor, edge k runs from sample k to sample k+1, so each edge ends where the next starts |
| Curves.EmitPolyline | draw.go:175-189 | the sentinel loop (old point (-1, -1), skip while the old point is negative) appends exactly the reference chain of edges |
| Curves.CircleSamples | draw.go:137-140 | AddCircle takes 101 samples |
| Curves.AddCircle | draw.go:134-150 | AddCircle appends the chain of its 101 samples at height cz: at most 100 edges, keeping what was there |
| Curves.CircleEdges | draw.go:137-149 | the circle has all 100 edges exactly when its first 100 samples have non-negative coordinates |
| Curves.CircleInQuadrant | draw.go:139-146 | a circle lying wholly in the non-negative quadrant gets 100 edges, chained sample to sample |
| Curves.CurveSamples | draw.go:176-180 | steps+1 samples for steps >= 0 and none for negative steps |
| Curves.AddParametric | draw.go:165-191 | a failing x coefficient product returns its error with nothing appended; then a failing y product the same; otherwise the chain of the curve's samples at z = 0 is appended |
| Curves.AddHermite | draw.go:165-191 | AddHermite fails exactly when a Hermite coefficient product fails, appending nothing; otherwise it appends the chain of its samples |
| Curves.AddBezier | draw.go:208-234 | AddBezier fails exactly when a Bezier coefficient product fails, appending nothing; otherwise it appends the chain of its samples |
| Curves.FewSteps | draw.go:176-177 | a step size above 1 or below 0 gives a step count of 0 or less, so no edges |
| Curves.CurveEnds | draw.go:177-178 | the first sample is the curve at t = 0 and the last at t = 1 |
| Curves.HermiteInterpolates | draw.go:152-163 | if the product is the basis matrix times the geometry column, the cubic passes through p0 and p1 with slopes r0 and r1 |
| Curves.BezierBernstein | draw.go:193-204 | if the product is the basis matrix times the geometry column, the cubic is the Bernstein form of the four control values |
| Ppm.IntToString | image.go:65-70 | %d of an int: never empty, starting with "-" exactly when the value is negative, and otherwise all decimal digits (digits after the sign for a negative value) |
| Ppm.NatToString | image.go:65 | %d of a natural number is a non-empty string of digits |
| Ppm.IntRoundTrip | image.go:65-70 | reading back the %d text of an integer gives the integer |
| Ppm.IntWord | image.go:70 | the %d text of an integer is one word with no separators |
| Ppm.Rows | image.go:67-70 | the body has width lines of height colours, and colour x of line y is img[x][width-1-y] (vertical flip) |
| Ppm.Header | image.go:65 | the header is a non-empty line ending in a newline |
| Ppm.HeaderText | image.go:65 | the header is "P3 ", height, " ", width, " 255" and a newline |
| Ppm.Triple | image.go:70 | a colour's text is at least six characters and ends in a space |
| Ppm.Lines | image.go:67-73 | the body is empty exactly when there are no lines, and otherwise ends in a newline |
| Ppm.Serialize | image.go:63-73 | the text starts with the header and ends in a newline |
| Ppm.TriplesSnoc | image.go:68-71 | each pass of the inner loop appends one "r g b " triple |
| Ppm.LinesSnoc | image.go:67-73 | each pass of the outer loop appends one line |
| Ppm.AppendTriple | image.go:68-71 | one pass of the inner loop extends the text of the first x colours of line y to that of the first x + 1 |
| Ppm.LineText | image.go:68-71 | the inner loop builds the triples of line y in order |
| Ppm.SavePPMText | image.go:63-73 | the buffer SavePPM writes is exactly the header followed by the flipped lines |
| Ppm.HeaderPrefix | image.go:65 | the text starts with "P3 " + height + " " + width + " 255\n" |
| Ppm.LinesNewlines | image.go:72 | each line contributes exactly one newline |
| Ppm.BodyLines | image.go:67-73 | the body has exactly width newlines, and the whole text width + 1 |
| Ppm.TokensHeader | image.go:65 | the header reads back as the words P3, height, width, 255 |
| Ppm.TokensTriple | image.go:70 | a triple reads back as the three channel values |
| Ppm.SerializeTokens | image.go:63-73 | the text reads back as the header words followed by the channel values line by line |
| Ppm.Decode | image.go:63-73 | the decoder, the inverse of the text, only ever produces a well-formed buffer |
| Ppm.ParseRowsTokens | image.go:67-73 | the channel values of the lines parse back into those lines |
| Ppm.UnflipRows | image.go:69 | undoing the vertical flip of the lines gives back the buffer |
| Ppm.RoundTrip | image.go:63-73 | decoding the text of a well-formed buffer gives back that buffer |
| Ppm.SerializeInjective | image.go:63-73 | two well-formed buffers with the same text are equal |

## Left out

- `Display` (image.go:80-87) runs an external viewer on a temporary file. It is process and file plumbing and is not modelled.
- The file handling of `SavePPM` (image.go:58-61, 75-77) is not modelled. That covers the `OpenFile` without truncation and the ignored write and close errors. Only the text it builds is modelled, by `Ppm.SavePPMText`.
- The `Matrix` and vector library is not part of this model. That covers `MakeMatrix`, `AddCol`, `Mult`, `MakeVector` and `CrossProduct`.
  - A point list is a sequence of 3-D points. The homogeneous fourth coordinate is dropped, because nothing in the core reads it.
  - The cross product is a parameter returning `Option<real>`.
  - `Mult` is a parameter returning `Result`.
- Floating point is modelled with mathematical reals, so there is no rounding, no NaN and no infinity.
  - `math.Cos` and `math.Sin` become the `unit` parameter of `Curves.AddCircle`.
  - The `math.Pow(t, 3.0)` and `math.Pow(t, 2.0)` terms of a cubic become products of reals (`Curves.Eval`).
- The float-accumulating grid loops of `generateSpherePoints` and `generateTorusPoints` (draw.go:295-356) are not modelled. Their point count depends on rounding. The stitching takes the grid as a sequence `p` and the step count `s` as a parameter, and it reads `cols` as `|p|`.
- `Stitch.AddTorus`: requires, for `s >= 1`, a non-empty grid and `IndicesIn`: every index a triangle reads is below `cols`. An empty grid makes the `%` divide by zero and a read at or past `cols` indexes out of range, both Go panics, so this is exactly the condition under which the Go code does not panic. `Stitch.NoWrap` and `Stitch.TorusInRange` show that `cols >= (s+1)²` is enough. That bound is not necessary. At `cols = s² + s`, the `%` wraps the last latitude's `lat2` to row 0 and every read stays in range. The torus panics when `cols < s² + s`, or when `s² + s < cols < (s+1)²`.
- `Stitch.AddSphere`: has the same kind of precondition as AddTorus, over the sphere's triangles. `Stitch.SphereInRange` shows that `cols >= (s+1)²` is enough. The sphere skips the second triangle at `lon == s-1`, so for `s >= 2` it panics when `cols < s² + s`, or when `s² + s < cols < s² + 2s`. For `s == 1` it emits no triangle and reads no grid point.
- `Stitch.AddTorus`: the step count is a parameter `s`. The constant `int(1 / (1.0/20))` at draw.go:315 is not evaluated, because it depends on float division.
- `Curves.AddParametric`: requires `stepSize != 0.0`. In Go, `int(1/0.0)` converts +Inf to an int, which is implementation-defined.
- `Curves.AddHermite`: has the same stepSize precondition as AddParametric.
- `Curves.AddBezier`: has the same stepSize precondition as AddParametric.
- `Curves.CurveSamples`: when the step count is 0, Go evaluates `t = 0/0`, a NaN. The model takes `t = 0` there. The sentinel test `NaN < 0` is false in Go, so the edge count is unaffected: one sample gives no edge either way.
- `Curves.HermiteInterpolates`: is stated only under the hypothesis `ColumnProduct`, that `Mult` multiplies the basis matrix by the geometry column. `Mult`'s convention is not part of this model.
- `Curves.BezierBernstein`: has the same `ColumnProduct` hypothesis as HermiteInterpolates.
- `Raster.Plot`: requires `PlotDefined`. The coordinates `x == height` or `y == width` pass the check and then panic, and a panic is not modelled as a return value. `Raster.PlotAcceptsPastEnd` exhibits such a coordinate.
- `Line.DrawLine`: requires `LineDefined`, which is PlotDefined for every pixel the chosen loop reaches.
- `Render.DrawLines`: requires `AllDefined`, which is LineDefined for every segment.
- `Render.DrawPolygons`: has the same `AllDefined` precondition as DrawLines.
- `Raster.MakeImage`: requires a non-negative height, and a non-negative width when there are rows. Go's `make` panics on a negative length.
- `math.Abs(float64(n))` in `DrawLine` (draw.go:51, 57) rounds once `|n| > 2^53`. The model's `Line.Abs` takes the exact absolute value, so the octant choice can differ only for such coordinates.
- Go's 64-bit `int` wrap-around is not modelled. Coordinates, decision values and colour channels are unbounded integers. The loops' values stay within a small multiple of the coordinates, so this matters only for coordinates near 2^62.
- The `fmt.Println` of a failed cross product (draw.go:21) only logs. The model skips the triangle, as the code does.

## Findings

| source | as written | input that shows it | evidently intended | confidence | as-written member | corrected member |
|---|---|---|---|---|---|---|
| image.go:38 | plot rejects only `x > height` or `y > width`, so `x == height` or `y == width` passes the check and `image.img[x][y]` then indexes out of range | a 1 by 1 buffer and plot(c, 1, 0) | reject `x >= height` and `y >= width`, so every coordinate outside the buffer gets the error value | high (not executed) | Raster.PlotAcceptsPastEnd | Raster.PlotChecked |

The corrected `Raster.PlotChecked` needs no precondition beyond a well-formed buffer. It fails exactly outside the buffer. `Raster.PlotCheckedAgrees` shows that it coincides with the as-written `Raster.Plot` wherever the latter does not panic. The rest of the model keeps the as-written `Plot`, under the `PlotDefined` precondition, so every drawing result is the one the corrected check would give.
