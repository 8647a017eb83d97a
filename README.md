# python-opengl: the logic beneath the demos, in Dafny

The demos of the book *Python & OpenGL for Scientific Visualization* are mostly
window, shader and draw-call plumbing. Beneath that plumbing sit small,
self-contained pieces of logic: index buffers, sample tables, vertex-buffer
layouts, signed-distance algebra, an OpenGL API selector, an SVG path
converter and a reStructuredText extension. This project models that logic over
mathematical integers and reals and proves what each piece promises.

| file | module(s) | models |
|---|---|---|
| `registry.dfy`, `pydict.dfy` | `GlRegistry`, `PyDict` | code/chapter-02/registry.py: the Khronos registry read into name-keyed tables (insertion-ordered Python dictionaries), `match`, `get_extension` and the tagging state machine of `get_api`, as a class whose methods update the `required` flags in place |
| `svg.dfy` | `SvgPath` | code/chapter-10/svg.py: `convert` (a token-driven loop over M/m, L/l, C/c, Q/q and Z/z of SVG 1.1 section 8.3) and `tesselate` (the curve-run walker) |
| `rst_media.dfy`, `rst_figures.dfy`, `rst_html.dfy` | `RstMedia`, `RstFigures`, `RstHtml` | rst2html.py: the `media` dispatch by extension, the `figure` directive, the `fig` role, the `FigureReferences` numbering transform over the nodes in place, and the HTML writer's figure-reference and video handlers as a class with a `body` and a `context` stack |
| `polyline.dfy` | `Polyline`, `LineStrip`, `VaryingThickness`, `DottedLine`, `Line3D` | the chapter 9 `bake` builders, which fill an (n+2)-row array in place, plus `star`, the varying-thickness width factor, the dotted-line discard rule and the 3-D miter clamp |
| `surface.dfy` | `ParamGrid`, `Boy`, `BoyTesselation` | `surface` of code/chapter-11/boy.py and boy-tesselation.py: the parameter grid and the index loops |
| `cube.dfy` | `CubeMesh` | the 24-vertex, 36-index cube that code/chapter-03/texture-cube.py and code/textured-cube.py build with the same `cube()` |
| `quads.dfy`, `concave.dfy`, `winding.dfy`, `ndarray.dfy` | `QuadIndex`, `AggSegments`, `Ellipses`, `Boxes`, `ConcavePolygon`, `Winding`, `Ndarray` | the vectorised quad index buffers, the segment-thickness mapping and fragment alphas, the fake box SDF, the closed boundary loop of the concave polygon, the nested-square winding table and its stencil count, and the numpy `ravel`/`linspace` they share |
| `ssaa.dfy` | `SamplePatterns`, `TriangleSsaa`, `SsaaSdf` | the supersampling grids and pattern table, the per-pass blend weight and scene shift, and the comparison figure's layout, marker sizes and file names |
| `signals.dfy`, `spiral.dfy` | `Signals`, `SdfMarkerSpiral` | the in-place scroll of the signal buffer and its layout and cell mapping; the marker-spiral record dtype, parameter loop and index buffer |
| `csg.dfy`, `real_facts.dfy` | `SdfCoverage`, `CircleAA`, `CsgExclusion`, `CsgAaUnion`, `CsgMerge`, `QuadGrid`, `RealFacts` | the distance-field algebra of the shaders: coverage ramps, CSG union, intersection, difference and exclusion, the polynomial smooth merge and the modular grid distance, with GLSL's `mod`, `clamp` and `mix` |

Conventions:

- Operations that can fail in the source return a `Result`. Its error names what Python raises (KeyError, IndexError, AttributeError) or why the loop would never end.
- `exp`, `cos`, `sin`, the segment length, `bezier.quadratic`/`bezier.cubic`, the `boy` formula, the `supported` pattern match and the random samples are parameters. Each member requires only the facts about them that its property needs, for example `exp(x) > 0` or `cos` in [-1, 1].
- Where the source updates state step by step, the model is a `method` with loop invariants or a `class` with `modifies` clauses. Such a method is proved equal to a specification function, and the properties are lemmas about that function.
- The `bake` functions of code/chapter-09/bezier.py:156-174 and code/chapter-09/linestrip-varying-thickness.py:89-107 are line for line those of code/chapter-09/linestrip.py:96-114. All three are modelled by `Polyline.Bake`.
- code/chapter-11/boy-tesselation.py:55-80 writes only the positions that code/chapter-11/boy.py:53-80 writes, so both files share `ParamGrid`.

## Model

| member | source | states |
|---|---|---|
| QuadIndex.QuadIndices | code/chapter-09/agg-segments.py:90-93 | the flattened n×6 buffer has 6n entries and entry k is pattern[k mod 6] + 4·(k div 6) |
| QuadIndex.QuadIndicesBounded | code/chapter-08/sdf-marker-spiral.py:113-115 | with a pattern below 4, every index is < 4n and entry k lies in quad k div 6, i.e. within vertices 4(k div 6) .. 4(k div 6)+3 |
| AggSegments.ThicknessAlpha | code/chapter-09/agg-segments.py:22-28 | thickness ≥ 1, alpha in [0, 1], thickness·alpha = abs(t); abs(t) < 1 gives thickness 1, otherwise alpha 1 |
| AggSegments.CornerSign | code/chapter-09/agg-segments.py:32-33 | uv component 0 maps to -1, 1 maps to +1, and the map is inverted by (s+1)/2 |
| AggSegments.FragmentAlpha | code/chapter-09/agg-segments.py:63-71 | d < 0 gives v_alpha, 0 ≤ d < antialias gives exp(-d²)·v_alpha, d ≥ antialias gives 0, and for a nonnegative v_alpha the alpha always lies in [0, v_alpha] |
| AggSegments.Indices | code/chapter-09/agg-segments.py:90-93 | 6n indices, all < 4n, each in the four vertices of its own quad |
| Ellipses.Corners | code/chapter-07/ellipses.py:54-60 | four corners of the box enlarged by aa, walked so that consecutive corners share a coordinate |
| Ellipses.BandAlpha | code/chapter-07/ellipses.py:41-45 | within the band (abs(d) < 1) alpha is exp(-d²)/4, inside beyond it 1/16, outside beyond it exp(-d²)/16; alpha is always in (0, 1/4], and outside beyond the band it stays below 1/16 |
| Ellipses.Angles | code/chapter-07/ellipses.py:67 | n angles in [0, 2π) spaced by 2π/n (linspace without endpoint) |
| Ellipses.Indices | code/chapter-07/ellipses.py:73-77 | 6n indices, all < 4n, both triangles of quad i share the diagonal 4i – 4i+2 |
| Boxes.FakeBox | code/boxes.py:34-37 | the box distance is negative exactly inside, zero exactly on the boundary and positive exactly outside |
| Boxes.FakeBoxMirror | code/boxes.py:34-37 | the distance is symmetric in both axes |
| Boxes.OutlineAlpha | code/boxes.py:43-47 | alpha is exp(-abs(d+1)²) off the curve d = -1 and 1 on it; it is 1 exactly on the curve and lies in (0, 1] |
| Boxes.OutlineSymmetric | code/boxes.py:43-47 | the outline fades alike on both sides of the curve d = -1 |
| Boxes.QuadHalfExtent | code/boxes.py:55-61 | every point whose box distance is below aa lies strictly inside the quad drawn for it |
| Boxes.Indices | code/boxes.py:76-80 | 6n indices, all < 4n |
| ConcavePolygon.Segments | code/chapter-10/concave-polygon.py:48-50 | the boundary of n vertices has 2n segment entries (n segments) |
| ConcavePolygon.SegmentsLoop | code/chapter-10/concave-polygon.py:48-50 | segment k runs from vertex k to vertex (k+1) mod n and every index is < n |
| ConcavePolygon.SegmentPair | code/chapter-10/concave-polygon.py:50 | the two entries of segment k are k and (k+1) mod n |
| ConcavePolygon.EachVertexTwice | code/chapter-10/concave-polygon.py:50 | vertex v occurs exactly twice: at 2v and at the end of the previous segment, so the boundary is one closed loop |
| ConcavePolygon.VertexAt | code/chapter-10/concave-polygon.py:50 | entry i is v exactly when i is 2v or the end of the segment before v |
| ConcavePolygon.SegmentEnd | code/chapter-10/concave-polygon.py:50 | the last segment closes back to vertex 0 |
| ConcavePolygon.Outline | code/chapter-10/concave-polygon.py:58 | the outline buffer O has 2·len(P) entries, all valid point indices |
| ConcavePolygon.Star | code/chapter-10/concave-polygon.py:40-46 | 2n points, even ones at the inner radius and odd ones at the outer radius, the first at angle -π/2 |
| CubeMesh.Filled | code/chapter-03/texture-cube.py:31-33 | the 36 indices are the quad pattern [0,1,2,0,2,3] offset by 4 per face; all are < 24 and face f's two triangles use only vertices 4f..4f+3 |
| CubeMesh.Cube | code/chapter-03/texture-cube.py:11-38 | 24 vertices, vertex k has position p[faces_p[k]] and texcoord t[faces_t[k]], and each of the 36 indices names a vertex of the face its triangle belongs to; code/textured-cube.py:11-39 builds the same tables |
| CubeMesh.FaceCorner | code/chapter-03/texture-cube.py:22-23 | every faces_p entry is a valid index into the 8 corner positions |
| CubeMesh.FacesAreCubeFaces | code/chapter-03/texture-cube.py:16-23 | each block of four faces_p entries has one coordinate fixed at +1 or -1, and the six blocks lie on six distinct planes |
| CubeMesh.FaceOnPlane | code/chapter-03/texture-cube.py:16-23 | the four corners of face f share face f's fixed coordinate |
| CubeMesh.CornerOnPlane | code/chapter-03/texture-cube.py:16-23 | corner j of face f has face f's fixed coordinate |
| CubeMesh.FaceTexturesArePermutations | code/chapter-03/texture-cube.py:24-25 | every face uses all four texture corners, each once |
| CubeMesh.TexCornerAt | code/chapter-03/texture-cube.py:24-25 | faces_t is 0,1,2,3 on every face except face 3, where it runs 3,2,1,0 |
| Winding.NestedSquares | code/chapter-10/winding.py:72-74 | the twelve points are three centred squares of half-size 0.75, 0.5 and 0.25 |
| Winding.IndicesBounded | code/chapter-10/winding.py:78-80 | 18 indices, all naming one of the 12 points |
| Winding.Orientations | code/chapter-10/winding.py:78-80 | the outer and inner squares' triangles are counter-clockwise and the middle square's are clockwise |
| Winding.StencilOp | code/chapter-10/winding.py:35-36 | a front face increments and a back face decrements the 8-bit stencil, saturating at 255 and 0 |
| Winding.Stencil | code/chapter-10/winding.py:33-38 | the stencil value after the first k triangles stays within 8 bits |
| Winding.CoversRegion | code/chapter-10/winding.py:72-80 | each triangle covers exactly one half of its square, on one side of the diagonal y = x |
| Winding.StencilCounts | code/chapter-10/winding.py:33-38 | off the edges, the count is 1 in the inner square, 0 in the middle ring, 1 in the outer ring and 0 outside |
| Winding.OddRuleFills | code/chapter-10/winding.py:55 | the odd test fills exactly the inner square and the outer ring |
| SamplePatterns.OddInterior | code/triangle-ssaa.py:35 | the slice [1:-1:2] of a sequence keeps (len - 1) div 2 entries |
| SamplePatterns.SubCentres | code/triangle-ssaa.py:35-37 | N4 and N8 are the m sub-cell centres (2k+1)/(2m) |
| SamplePatterns.SubCentresInside | code/triangle-ssaa.py:35-37 | every sub-cell centre lies strictly inside (0, 1), and distinct indices give distinct centres |
| SamplePatterns.SubCentreBounds | code/triangle-ssaa.py:35-37 | every sub-cell centre lies strictly inside (0, 1) |
| SamplePatterns.Grid | code/triangle-ssaa.py:36-38 | G4 and G8 hold m·m offsets |
| SamplePatterns.Mesh | code/triangle-ssaa.py:36 | the meshgrid is m rows of m points |
| SamplePatterns.GridEntry | code/triangle-ssaa.py:36-38 | grid entry g is (N[g mod m], N[g div m]) |
| SamplePatterns.Select | code/triangle-ssaa.py:44-49 | fancy indexing G[[...]] keeps one offset per listed cell |
| SamplePatterns.Offsets | code/triangle-ssaa.py:39-50 | the table holds the 11 named patterns |
| SamplePatterns.RgssPattern | code/triangle-ssaa.py:44 | "2x2 RGSS" has 4 samples |
| SamplePatterns.Checker4Pattern | code/triangle-ssaa.py:45 | "4x4 checker" has 8 samples |
| SamplePatterns.RooksPattern | code/triangle-ssaa.py:46 | "8 rooks" has 8 samples |
| SamplePatterns.Checker8Pattern | code/triangle-ssaa.py:48-49 | "8x8 checker" has 32 samples |
| SamplePatterns.RookCellsNonAttacking | code/triangle-ssaa.py:44-46 | the cells of "8 rooks" and of "2x2 RGSS" share no column and no row |
| SamplePatterns.DistinctRowsAndColumns | code/triangle-ssaa.py:44-46 | cells that share no row or column give samples with pairwise distinct dx and pairwise distinct dy |
| SamplePatterns.DistinctCells | code/triangle-ssaa.py:36-38 | two grid cells in different columns and rows have different dx and different dy |
| SamplePatterns.GridCoordinates | code/triangle-ssaa.py:36-38 | grid entry g sits in column g mod m and row g div m |
| SamplePatterns.RooksSamples | code/triangle-ssaa.py:46 | the 8 samples of "8 rooks" have pairwise distinct x and pairwise distinct y |
| SamplePatterns.RgssSamples | code/triangle-ssaa.py:44 | the 4 samples of "2x2 RGSS" have pairwise distinct x and pairwise distinct y |
| SamplePatterns.Checker4Exact | code/triangle-ssaa.py:45 | "4x4 checker" lists, in increasing order, exactly the 8 of 16 cells whose column+row is even |
| SamplePatterns.Checker8Exact | code/triangle-ssaa.py:48-49 | "8x8 checker" lists, in increasing order, exactly the 32 of 64 cells whose column+row is even |
| SamplePatterns.Checker8Covers | code/triangle-ssaa.py:48-49 | every even-parity cell of the 8×8 grid is listed in "8x8 checker" |
| SamplePatterns.Checker8At | code/triangle-ssaa.py:48-49 | entry 4r+j of the "8x8 checker" list is cell 8r + (r mod 2) + 2j |
| SamplePatterns.Checker8Light | code/triangle-ssaa.py:48-49 | cell 8r + (r mod 2) + 2j is an even-parity cell of the 8×8 grid |
| SamplePatterns.Checker8Listed | code/triangle-ssaa.py:48-49 | the "8x8 checker" list is strictly increasing and holds only even-parity cells |
| SamplePatterns.Checker8Entry | code/triangle-ssaa.py:48-49 | each "8x8 checker" entry is an even-parity cell greater than the entry before it |
| SamplePatterns.GridInside | code/triangle-ssaa.py:36-38 | every grid offset lies in the unit pixel [0, 1]² |
| SamplePatterns.GridPointInside | code/triangle-ssaa.py:36-38 | one grid offset lies in the unit pixel |
| SamplePatterns.OffsetsInsidePixel | code/triangle-ssaa.py:39-50 | every sample offset of every pattern lies in [0, 1]² |
| SamplePatterns.LiteralOffsetsInside | code/triangle-ssaa.py:39-43 | the five literal patterns lie in [0, 1]² |
| SamplePatterns.Grid4OffsetsInside | code/triangle-ssaa.py:44-47 | the patterns taken from G4 lie in [0, 1]² |
| SamplePatterns.Grid8OffsetsInside | code/triangle-ssaa.py:46-50 | the patterns taken from G8 lie in [0, 1]² |
| SamplePatterns.RooksInside | code/triangle-ssaa.py:46 | the "8 rooks" samples lie in [0, 1]² |
| SamplePatterns.Checker8Inside | code/triangle-ssaa.py:48-49 | the "8x8 checker" samples lie in [0, 1]² |
| SamplePatterns.SelectPointInside | code/triangle-ssaa.py:44-49 | a sample selected from a grid lies in [0, 1]² |
| TriangleSsaa.NdcShift | code/triangle-ssaa.py:96 | the offset (2d-1)/size moves the scene by d - ½ pixel, at most half a pixel either way |
| TriangleSsaa.SceneShift | code/triangle-ssaa.py:96 | the scene offset for a sample moves it by (dx - ½, dy - ½) pixels at 32×16 |
| TriangleSsaa.SumSnoc | code/triangle-ssaa.py:93-105 | summing one more pass adds its value |
| TriangleSsaa.Accumulate | code/triangle-ssaa.py:89-107 | blending the k passes with constant alpha 1/k onto the cleared buffer leaves their average |
| TriangleSsaa.SumConstant | code/triangle-ssaa.py:104 | k equal passes sum to k times their value |
| TriangleSsaa.AverageOfConstant | code/triangle-ssaa.py:104 | the k weights 1/k sum to one: equal passes resolve to their value |
| TriangleSsaa.SumBounds | code/triangle-ssaa.py:93-105 | k pass values in [0, 1] sum to a value in [0, k] |
| TriangleSsaa.AverageBounds | code/triangle-ssaa.py:93-105 | pass values in [0, 1] resolve to a value in [0, 1] |
| TriangleSsaa.FilledFilename | code/triangle-ssaa.py:117 | the file name embeds the pattern name after the 21-character prefix and adds 25 characters |
| SsaaSdf.Table | code/ssaa-sdf.py:10-22 | the table is the eleven triangle-ssaa patterns followed by "SDF", a single centre sample |
| SsaaSdf.TableKeysDistinct | code/ssaa-sdf.py:10-22 | the twelve pattern names are distinct, so no dictionary entry is overwritten |
| SsaaSdf.MarkerSize | code/ssaa-sdf.py:40 | the marker size for 1..64 samples lies in [25, 50) |
| SsaaSdf.MarkerSizeDecreasing | code/ssaa-sdf.py:40 | more samples never give a larger marker |
| SsaaSdf.PanelsFor | code/ssaa-sdf.py:29-32 | entry i goes to row i mod 4 and column 3·(i div 4) |
| SsaaSdf.Figure | code/ssaa-sdf.py:29-72 | the figure has one panel group per table entry |
| SsaaSdf.FigureLayout | code/ssaa-sdf.py:27-32 | all 12 groups fit the 4×9 axes (row < 4, col + 2 < 9) and no two share a first panel |
| SsaaSdf.FigureFiles | code/ssaa-sdf.py:38-69 | every non-SDF entry reads the file triangle-ssaa.py wrote for it and gets a marker size in [25, 50); "SDF" reads the fixed sdf files and has no marker |
| Signals.ScrollOnce | code/chapter-09/signals.py:52-53 | one frame: the buffer keeps its size, sample k takes the old sample k+1 and the last slot holds the fresh sample |
| Signals.ScrollAll | code/chapter-09/signals.py:51-53 | any number of frames keeps the buffer size |
| Signals.ScrollWindow | code/chapter-09/signals.py:51-53 | after a stream of frames the buffer is the last size entries of old buffer followed by the stream |
| Signals.ScrollForgets | code/chapter-09/signals.py:51-53 | once at least size frames have passed the buffer holds only the latest size samples |
| Signals.Signal | code/chapter-09/signals.py:35 | signal (r, c) of the rows×cols×size array has size samples |
| Signals.Scroll | code/chapter-09/signals.py:51-53 | the in-place update of ydata scrolls every signal by one frame with its own fresh sample |
| Signals.ScrollSignal | code/chapter-09/signals.py:52-53 | scrolling one signal in place changes that signal only |
| Signals.XData | code/chapter-09/signals.py:36-37 | xdata.ravel() has rows·cols·size entries |
| Signals.XRows | code/chapter-09/signals.py:36-37 | every row of xdata is linspace(0, 1, size) |
| Signals.IndexData | code/chapter-09/signals.py:38-39 | index.ravel() has rows·cols·size entries |
| Signals.IndexRows | code/chapter-09/signals.py:38-39 | row s of the index array holds size copies of s |
| Signals.VertexAttributes | code/chapter-09/signals.py:36-44 | vertex s·size+k carries index s and x = k/(size-1), which is in [0, 1], 0 at the first sample and 1 at the last |
| Signals.CellOfIndex | code/chapter-09/signals.py:17-18 | the shader's cell of signal index is (index mod cols, index div cols) |
| Signals.CellRow | code/chapter-09/signals.py:18 | index/cols - fract(index/cols) is the integer quotient |
| Signals.CellColumn | code/chapter-09/signals.py:17 | mod(index, cols) is the integer remainder |
| Signals.QuotientSplit | code/chapter-09/signals.py:17-18 | index/cols splits into its integer quotient and a fractional part in [0, 1) |
| Signals.PlaceInCell | code/chapter-09/signals.py:19-20 | data in [0, 1] is placed inside its cell with a 0.025-cell margin, and inside (-1, 1) when the cell exists |
| Signals.InsideViewport | code/chapter-09/signals.py:19-20 | the margins of the last cell stay strictly inside the viewport |
| Signals.SignalPlacement | code/chapter-09/signals.py:15-20 | signal s < rows·cols is drawn in column s mod cols and row s div cols < rows, and its vertices lie strictly inside [-1, 1]² |
| SdfMarkerSpiral.RecordDtype | code/chapter-08/sdf-marker-spiral.py:77-81 | a record dtype is accepted exactly when its field names are distinct; a rejection names a duplicated field |
| SdfMarkerSpiral.MarkerDtypeAsWrittenRejected | code/chapter-08/sdf-marker-spiral.py:77-81 | the dtype as written is rejected for its duplicated field "size" |
| SdfMarkerSpiral.DuplicateInTail | code/chapter-08/sdf-marker-spiral.py:77-81 | a first field whose name is unique does not change the verdict on the others |
| SdfMarkerSpiral.MarkerDtypeAccepted | code/chapter-08/sdf-marker-spiral.py:77-81 | with the duplicate removed the dtype is accepted, with four fields of 6 components in all |
| SdfMarkerSpiral.MarkerAt | code/chapter-08/sdf-marker-spiral.py:83-92 | marker i has orientation π + (i+1)·10° and size 2·(20.1 - 0.12 i) |
| SdfMarkerSpiral.FillSpiral | code/chapter-08/sdf-marker-spiral.py:83-93 | the loop fills every marker with its closed-form position, size and orientation |
| SdfMarkerSpiral.SpiralBounds | code/chapter-08/sdf-marker-spiral.py:76-92 | over the 150 markers the size strictly decreases and stays positive, and so does the spiral radius |
| SdfMarkerSpiral.SpiralTurn | code/chapter-08/sdf-marker-spiral.py:83-85 | consecutive markers turn by exactly 10° |
| SdfMarkerSpiral.Indices | code/chapter-08/sdf-marker-spiral.py:113-116 | 6n indices, all < 4n, each in the four vertices of its own quad |
| SdfCoverage.Coverage | code/csg-aa-union.py:17-23 | fully opaque inside the stroke core (d below width/2 - antialias), then the Gaussian falloff exp(-((d - (width/2 - antialias))/antialias)^2); always in (0, 1], and exactly 1 precisely up to the core's edge; `alpha` of code/circle-aa.py:18-25 and `compute_alpha` of code/chapter-03/quad-grid.py:30-36 are the same ramp |
| SdfCoverage.CoverageNonincreasing | code/csg-aa-union.py:17-23 | coverage never increases with distance |
| CircleAA.CsgUnion | code/circle-aa.py:34-37 | inside the union exactly when inside either shape; the field is the smaller of the two |
| CircleAA.CsgIntersection | code/circle-aa.py:40-43 | inside the intersection exactly when inside both; the field is the larger of the two |
| CircleAA.CsgDifference | code/circle-aa.py:46-49 | inside the difference exactly when inside A and outside B |
| CircleAA.CsgExclusion | code/circle-aa.py:52-55 | inside the exclusion exactly when inside one shape and outside the other |
| CircleAA.UnionCommutativeIdempotent | code/circle-aa.py:34-37 | union is commutative and idempotent |
| CircleAA.ExclusionSymmetric | code/circle-aa.py:52-55 | exclusion is symmetric in its operands |
| CsgExclusion.Exclusion | code/csg-exclusion.py:15-18 | inside exactly when inside one shape and outside the other; never inside where both agree |
| CsgExclusion.ExclusionSymmetric | code/csg-exclusion.py:15-18 | exclusion is symmetric in its operands |
| CsgExclusion.ExclusionFormsAgree | code/csg-exclusion.py:15-18 | the min/max form equals the nested-max form of circle-aa.py for every pair of distances |
| CsgAaUnion.Shade | code/csg-aa-union.py:42-44 | the grey level always lies strictly between white and black |
| CsgAaUnion.ShadeSymmetric | code/csg-aa-union.py:42-44 | the stroke is symmetric about the union's boundary |
| CsgAaUnion.UnionLaws | code/csg-aa-union.py:26-29 | union is commutative, associative and idempotent |
| CsgMerge.BlendFactor | code/csg-merge.py:17 | h lies in [0, 1]; it is 1 when d1 leads by at least k and 0 when d2 does |
| CsgMerge.Merge | code/csg-merge.py:15-19 | far from the seam the merge is exactly the nearer shape's distance |
| CsgMerge.MergeBelowMin | code/csg-merge.py:15-19 | the smooth merge never exceeds the plain union min(d1, d2) |
| CsgMerge.MergeSymmetric | code/csg-merge.py:15-19 | swapping the operands turns h into 1 - h and leaves the merge unchanged |
| QuadGrid.GridShade | code/chapter-03/quad-grid.py:38-57 | the fragment's grey level is in [0, 1), and it is black exactly within 0.25 of a major grid line (a minor line never reaches full coverage) |
| QuadGrid.GridDistance | code/chapter-03/quad-grid.py:45-46 | the distance to the nearest grid line lies in [0, s/2] |
| QuadGrid.ModReflect | code/chapter-03/quad-grid.py:45-46 | mod(s - v, s) is the reflection of mod(v, s) |
| QuadGrid.GridDistanceZero | code/chapter-03/quad-grid.py:45-46 | the distance is 0 exactly on a grid line (a multiple of s) |
| QuadGrid.GridDistancePeriodic | code/chapter-03/quad-grid.py:45-46 | the distance repeats with period s |
| QuadGrid.Scales | code/chapter-03/quad-grid.py:70-75 | the major scale stays in [128, 640] and the minor scale is always a tenth of it |
| Polyline.ClosePath | code/chapter-09/linestrip.py:97-102 | the first point is appended exactly when closing was asked for and the end-to-start squared distance exceeds epsilon; the points are otherwise kept, and a closed path then ends where it starts (within epsilon) |
| Polyline.ArcLength | code/chapter-09/linestrip.py:108 | a path of at most one point has length 0 |
| Polyline.CumulativeFrom | code/chapter-09/linestrip.py:108-109 | one running length per point, starting at the given offset |
| Polyline.Cumulative | code/chapter-09/linestrip.py:108-109 | one running length per point, 0 at the first point |
| Polyline.CumulativeFromStep | code/chapter-09/linestrip.py:108 | each running length adds the next segment's length to the one before |
| Polyline.CumulativeStep | code/chapter-09/linestrip.py:108 | column 3 grows by exactly one segment length per point |
| Polyline.CumulativeFromLast | code/chapter-09/linestrip.py:108 | the last running length is the offset plus the path length |
| Polyline.CumulativeLast | code/chapter-09/linestrip.py:108-114 | the last running length, the returned L[-1], is the path length |
| Polyline.CumulativeMonotone | code/chapter-09/linestrip.py:108-109 | with nonnegative segment lengths the running length is nonnegative and nondecreasing |
| Polyline.Layout | code/chapter-09/linestrip.py:103-113 | n+2 rows; row k+1 is point k doubled with sides +1/-1 and its running length; the padding wraps (closed) or copies the end rows (open) |
| Polyline.CurrRows | code/chapter-09/linestrip.py:105-109 | row k of V_curr is point k doubled with its running length |
| Polyline.ShiftedViews | code/chapter-09/linestrip.py:104 | prev, curr and next have n rows each, prev[i] = curr[i-1] and next[i] = curr[i+1] |
| Polyline.OpenPadding | code/chapter-09/linestrip.py:112-113 | open path: prev equals curr exactly at the first point and next equals curr exactly at the last point |
| Polyline.ClosedPadding | code/chapter-09/linestrip.py:110-111 | closed path: prev of the first point is the second-to-last point and next of the last point is the second point, so both ends see the same neighbours |
| Polyline.Bake | code/chapter-09/linestrip.py:96-114 | bake succeeds exactly when the (possibly closed) path has at least two points, and then the buffer is Layout of that path and the returned length is its last running length |
| Polyline.LayoutFromRows | code/chapter-09/linestrip.py:103-113 | a buffer with the curr rows and the padding rows of Layout is Layout |
| Polyline.FillCurr | code/chapter-09/linestrip.py:105-109 | the fill loop writes every curr row with its running length, leaves the padding rows alone and returns the total length |
| LineStrip.StarFrom | code/chapter-09/linestrip.py:88-94 | 2n points alternating the inner radius (even index) and the outer radius (odd index) |
| LineStrip.Star | code/chapter-09/linestrip.py:88-94 | star() returns 2n points, even ones at the inner radius and odd ones at the outer radius, the first at angle 0 |
| LineStrip.PolarRadius | code/chapter-09/linestrip.py:92-93 | the point (r cos t, r sin t) lies at distance r from the origin |
| VaryingThickness.WidthFactor | code/chapter-09/linestrip-varying-thickness.py:54 | the modulation factor lies in [0.5, 1] |
| VaryingThickness.HalfWidthBounded | code/chapter-09/linestrip-varying-thickness.py:54-56 | the modulated half-width never exceeds the unmodulated one and never falls below half of it |
| DottedLine.Bake | code/chapter-09/linestrip-dotted.py:91-101 | the open-only bake: succeeds exactly with at least two points, end rows copied, total length returned |
| DottedLine.DotCenter | code/chapter-09/linestrip-dotted.py:60-61 | dot centres lie on the lattice of multiples of 1.5·thickness shifted by the phase, and x is within half a spacing of its dot's centre |
| DottedLine.ModLattice | code/chapter-09/linestrip-dotted.py:61 | v - mod(v, s) is a multiple of s |
| DottedLine.KeptDotsInside | code/chapter-09/linestrip-dotted.py:62-67 | a fragment is kept exactly when its dot centre is at least thickness/2 from both ends of the line |
| Line3D.Layout3 | code/chapter-09/linestrip-3d-better.py:128-140 | n+2 rows of doubled 3-D points; padding wraps when closed and copies the end rows when open |
| Line3D.UVLayout | code/chapter-09/linestrip-3d-better.py:129-136 | n rows; row k holds the running length with side +1 and -1 |
| Line3D.Bake | code/chapter-09/linestrip-3d-better.py:121-141 | succeeds exactly when the (possibly closed) path has at least two points; V and UV are then the layouts and the returned length is the last running length |
| Line3D.Layout3FromRows | code/chapter-09/linestrip-3d-better.py:128-140 | a buffer with the curr rows and padding rows of Layout3 is Layout3 |
| Line3D.FillCurr | code/chapter-09/linestrip-3d-better.py:131-136 | the fill loop writes every curr row and every UV row, leaves the padding alone and returns the total length |
| Line3D.MiterOffset | code/chapter-09/linestrip-3d-better.py:56-57 | the clamped miter offset is never longer than the half-width w, and is exactly w/dot when dot ≥ 1 |
| ParamGrid.UColumn | code/chapter-11/boy.py:61-63 | U has one entry per vertex, ucount·vcount |
| ParamGrid.VColumn | code/chapter-11/boy.py:62-64 | V has one entry per vertex, ucount·vcount |
| ParamGrid.VertexParameters | code/chapter-11/boy.py:61-64 | vertex r·vcount+c is evaluated at (umin + r/(ucount-1)·(umax-umin), vmin + c/(vcount-1)·(vmax-vmin)): U by row, V by column |
| ParamGrid.ParametersIncludeEnds | code/chapter-11/boy.py:61-64 | both ranges are inclusive: the first vertex is at (umin, vmin) and the last at (umax, vmax) |
| ParamGrid.ParametersWithinRanges | code/chapter-11/boy.py:61-64 | every vertex parameter lies within [umin, umax] × [vmin, vmax] |
| ParamGrid.Between | code/chapter-11/boy.py:63-64 | interpolating with a factor in [0, 1] stays between the two ends |
| ParamGrid.Cell | code/chapter-11/boy.py:73-78 | each cell emits 6 indices |
| ParamGrid.CellSharesDiagonal | code/chapter-11/boy.py:73-78 | the two triangles of cell a use exactly its four corners and share the diagonal a – a+vcount+1 |
| ParamGrid.CellRows | code/chapter-11/boy.py:71-78 | (ucount-1)·(vcount-1) cells, in row-major order |
| ParamGrid.GridIndices | code/chapter-11/boy.py:70-79 | 6·(ucount-1)·(vcount-1) indices (none when a count is below 2) |
| ParamGrid.CellNumber | code/chapter-11/boy.py:71-78 | cell (i, j) is the (i·(vcount-1)+j)-th cell and has origin i·vcount+j |
| ParamGrid.GridCell | code/chapter-11/boy.py:71-78 | index 6·(i·(vcount-1)+j)+r is entry r of cell (i, j) |
| ParamGrid.CellInRange | code/chapter-11/boy.py:60 | a cell (i, j) inside the grid names a vertex below rows·cols |
| ParamGrid.GridIndicesBounded | code/chapter-11/boy.py:60-78 | every index is below n = ucount·vcount |
| ParamGrid.CellOriginBounded | code/chapter-11/boy.py:73-78 | the far corner a+vcount+1 of every cell is below n |
| ParamGrid.BuildIndices | code/chapter-11/boy.py:70-79 | the nested append loops build exactly GridIndices |
| ParamGrid.GridStep | code/chapter-11/boy.py:71-78 | one pass of the inner loop appends exactly cell (i, j)'s six indices |
| Boy.Surface | code/chapter-11/boy.py:53-80 | ucount·vcount vertices (counts incremented), vertex i holds func(U[i], V[i]) and uv = (U[i], V[i]), and the indices are GridIndices |
| BoyTesselation.Surface | code/chapter-11/boy-tesselation.py:55-80 | ucount·vcount positions, position i is func(U[i], V[i]), and the indices are GridIndices |
| PyDict.KeySet | code/chapter-02/registry.py:89-94 | the keys of a table are exactly the keys of its entries |
| PyDict.Values | code/chapter-02/registry.py:55-60 | `values()` yields one value per entry, in insertion order |
| PyDict.Get | code/chapter-02/registry.py:185 | `d[k]` finds a value exactly when k is a key, and the value is the one stored under k |
| PyDict.PutSpec | code/chapter-02/registry.py:94 | `d[k] = v` reads back v under k, leaves every other key alone, keeps keys unique, keeps an existing key in place and appends a new one |
| PyDict.PutKeySet | code/chapter-02/registry.py:94 | assignment adds k to the keys and nothing else |
| PyDict.PutShape | code/chapter-02/registry.py:94 | an existing key keeps its position; a new key is appended |
| PyDict.PutGet | code/chapter-02/registry.py:94 | assignment reads back under its key and changes no other key |
| PyDict.PutUnique | code/chapter-02/registry.py:94 | assignment keeps keys unique |
| PyDict.PutAllKeys | code/chapter-02/registry.py:89-94 | filling a table keeps keys unique and its keys are those of the filled pairs |
| PyDict.KeySetCons | code/chapter-02/registry.py:89-94 | the keys of a table with one more entry in front |
| PyDict.PutAllLast | code/chapter-02/registry.py:89-94 | a key's value after filling is the value of its last assignment |
| PyDict.PutAllUntouched | code/chapter-02/registry.py:89-94 | a key no assignment names keeps its value |
| GlRegistry.KeyOf | code/chapter-02/registry.py:91-93 | the key carries the element's name, and is the (name, api) pair exactly when the element has an api attribute |
| GlRegistry.VersionOrderIsTextual | code/chapter-02/registry.py:163 | version numbers compare as strings: "4.10" ≤ "4.6" and "10.0" ≤ "9.0" |
| GlRegistry.Prefix | code/chapter-02/registry.py:146 | "GL_%s_" % vendor starts with GL_ and ends with _ around the vendor text |
| GlRegistry.EnumPairs | code/chapter-02/registry.py:90-94 | one (key, element) pair per `enums/enum`, in document order |
| GlRegistry.CommandPairs | code/chapter-02/registry.py:99-105 | one pair per command, named by its name attribute or else by proto/name |
| GlRegistry.FeaturePairs | code/chapter-02/registry.py:110-123 | one pair per feature or extension, in document order |
| GlRegistry.ParseKeys | code/chapter-02/registry.py:89-94 | an enum with an api attribute is found under (name, api), any other under its bare name, unless a later element takes the same key |
| GlRegistry.MatchIff | code/chapter-02/registry.py:125-134 | match is false exactly when the element names another api or another profile; an element naming neither always matches |
| GlRegistry.SelectCoreExact | code/chapter-02/registry.py:160-164 | a feature is selected exactly when its api is the requested one and its number is ≤ the version as a string; selection raises only for a feature of that api without a number |
| GlRegistry.VendorExtensionsExact | code/chapter-02/registry.py:146-153 | the result holds exactly the extensions whose name starts with "GL_<vendor>_" and whose supported pattern matches the api at its start |
| GlRegistry.Selected | code/chapter-02/registry.py:160-173 | the processed features are the selected core features followed by the vendor extensions |
| GlRegistry.Tags | code/chapter-02/registry.py:183-189 | one assignment per listed name, in order, with the block's value |
| GlRegistry.Step | code/chapter-02/registry.py:185 | an assignment that succeeds never adds or removes a key |
| GlRegistry.Run | code/chapter-02/registry.py:176-203 | running the assignments never adds or removes a key |
| GlRegistry.RunAppend | code/chapter-02/registry.py:176-203 | running two lists of assignments is running the first, then, unless it raised, the second |
| GlRegistry.LastValueAppend | code/chapter-02/registry.py:176-203 | the last assignment to a name over two lists is the second list's, falling back to the first's |
| GlRegistry.RunLast | code/chapter-02/registry.py:176-203 | when nothing raises, a bare-name flag ends at its last assigned value, and a flag keyed by (name, api) is never touched |
| GlRegistry.RunRaises | code/chapter-02/registry.py:183-203 | the tagging raises exactly when an assignment names a bare key its table lacks, and then it is the KeyError of the first such assignment |
| GlRegistry.StepKeepsPresence | code/chapter-02/registry.py:185 | a successful assignment changes no later lookup's outcome |
| GlRegistry.RunSucceeds | code/chapter-02/registry.py:183-203 | the tagging completes exactly when every assignment names a bare key of its table |
| GlRegistry.RunFirstError | code/chapter-02/registry.py:183-203 | a raising run raises the KeyError of its first missing key |
| GlRegistry.RemovesClear | code/chapter-02/registry.py:192-203 | every assignment of a `<remove>` block clears the flag |
| GlRegistry.LastValueAllClear | code/chapter-02/registry.py:192-203 | within assignments that all clear, a name assigned anywhere ends cleared |
| GlRegistry.LastValueFalse | code/chapter-02/registry.py:192-203 | assignments that all clear leave a cleared flag cleared |
| GlRegistry.BlocksListEnum | code/chapter-02/registry.py:179-185 | an enum listed in a matching block is assigned |
| GlRegistry.RemoveWinsWithinFeature | code/chapter-02/registry.py:176-203 | an enum required and removed by matching blocks of the same feature ends unrequired |
| GlRegistry.FeaturesActionsAppend | code/chapter-02/registry.py:176 | the assignments of two feature lists are those of each list in turn |
| GlRegistry.LaterFeaturesDecide | code/chapter-02/registry.py:166-203 | vendor extensions are processed after the core features, so their assignments decide |
| GlRegistry.AllClear | code/chapter-02/registry.py:48-60 | reset leaves one flag per table key, every one cleared |
| GlRegistry.FilteredExact | code/chapter-02/registry.py:205-215 | the returned table holds exactly the entries whose flag is set, with their keys |
| GlRegistry.GetApiSpec | code/chapter-02/registry.py:155-217 | get_api leaves one flag per enum and per command key |
| GlRegistry.TableFlags | code/chapter-02/registry.py:176-203 | from cleared flags, a run without KeyError sets the flag of an enum or command exactly when it is keyed by a bare name whose last assignment in that table requires it |
| GlRegistry.GetApiResult | code/chapter-02/registry.py:155-217 | when get_api returns, its enums and its commands are each exactly the bare-name entries whose last assignment over the selected features requires them; an entry keyed by (name, api) is never returned |
| GlRegistry.RunFeaturesStep | code/chapter-02/registry.py:176-203 | tagging the features from i on is tagging feature i, then, unless it raised, the rest |
| GlRegistry.RunBlocksStep | code/chapter-02/registry.py:179-203 | tagging the blocks from i on is tagging block i, then, unless it raised, the rest |
| GlRegistry.VendorText | code/chapter-02/registry.py:146 | the vendor prints as its text, or as "None" when absent |
| GlRegistry.ThenEmpty | code/chapter-02/registry.py:160-164 | an empty partial result adds nothing |
| GlRegistry.ThenAssoc | code/chapter-02/registry.py:160-164 | appending to a partial result is associative |
| GlRegistry.Fill | code/chapter-02/registry.py:89-94 | the parse loop fills the table as repeated assignment does, with unique keys |
| GlRegistry.Cleared | code/chapter-02/registry.py:55-60 | the reset loop clears every flag of the table |
| GlRegistry.KeepRequired | code/chapter-02/registry.py:205-215 | the retrieval loop keeps exactly the flagged entries, in table order |
| GlRegistry.FilteredStep | code/chapter-02/registry.py:207-209 | the retrieval of entries from i on is entry i if flagged, then the rest |
| GlRegistry.Registry.Load | code/chapter-02/registry.py:42-123 | load keys every table as parsing does, and every node starts unrequired |
| GlRegistry.Registry.Reset | code/chapter-02/registry.py:48-60 | reset clears every enum, command and feature flag and keeps the tables |
| GlRegistry.Registry.TagItems | code/chapter-02/registry.py:183-189 | the loop over a block's names performs its assignments, stopping at the first KeyError |
| GlRegistry.Registry.TagBlock | code/chapter-02/registry.py:179-189 | a block's assignments: its enums, then its commands, none if it does not match |
| GlRegistry.Registry.TagBlocks | code/chapter-02/registry.py:179-203 | the blocks' assignments in order |
| GlRegistry.Registry.TagFeature | code/chapter-02/registry.py:176-203 | a feature's `<require>` blocks, then its `<remove>` blocks |
| GlRegistry.Registry.TagFeatures | code/chapter-02/registry.py:176-203 | the features' assignments in order |
| GlRegistry.Registry.CoreFeatures | code/chapter-02/registry.py:160-164 | the feature loop computes SelectCore |
| GlRegistry.Registry.CollectVendor | code/chapter-02/registry.py:146-153 | the extension loop computes VendorExtensions |
| GlRegistry.Registry.GetExtension | code/chapter-02/registry.py:136-153 | get_extension returns the vendor's extensions supported for the api |
| GlRegistry.Registry.VendorFeatures | code/chapter-02/registry.py:166-173 | the vendor loop appends every vendor's extensions in vendor order |
| GlRegistry.Registry.GetApi | code/chapter-02/registry.py:155-217 | the flags and the result are those of GetApiSpec whatever an earlier call left behind, and the feature flags end cleared |
| SvgPath.Lookup | code/chapter-10/svg.py:77-96 | exactly the letters M, L, C, Q, Z in either case are in the command table; every group size is even, and it is zero exactly for Z/z |
| SvgPath.Group | code/chapter-10/svg.py:109-111 | a group of n numbers becomes n/2 points, the k-th made of numbers 2k and 2k+1 shifted by the offset (the current point for a lower-case command, the origin otherwise) |
| SvgPath.Repeat | code/chapter-10/svg.py:113 | one copy of the command's code per point of the group |
| SvgPath.Rewrite | code/chapter-10/svg.py:122-125 | after an M or m iteration the remembered command becomes L or l with the LINETO code; any other command and all other loop variables are left as they were |
| SvgPath.Dispatch | code/chapter-10/svg.py:104-107 | a letter is looked up and consumed, failing with KeyError exactly when it is not in the table; a number reuses the last command, failing exactly when no command has been seen |
| SvgPath.Emit | code/chapter-10/svg.py:108-118 | a successful iteration always advances the position, and it adds as many vertices as codes |
| SvgPath.Step | code/chapter-10/svg.py:100-125 | one iteration of the loop advances the position and keeps vertices and codes parallel |
| SvgPath.RunFrom | code/chapter-10/svg.py:100-127 | the loop from a state with parallel lists ends with parallel lists |
| SvgPath.Convert | code/chapter-10/svg.py:97-127 | a converted path has one code per vertex |
| SvgPath.ConvertSvg | code/chapter-10/svg.py:97-127 | the corrected conversion also has one code per vertex |
| SvgPath.RunCodes | code/chapter-10/svg.py:100-125 | from a state whose codes are all path codes, every code the loop emits is one of MOVETO, LINETO, CURVE4, CURVE3, CLOSE |
| SvgPath.EmitCodes | code/chapter-10/svg.py:108-125 | an iteration keeps the codes emitted before, appends at least one code, all equal to the command's code, and leaves either that code or LINETO as the remembered one |
| SvgPath.ConvertCodes | code/chapter-10/svg.py:97-127 | every code of a converted path is one of the five path codes |
| SvgPath.GroupStep | code/chapter-10/svg.py:104-115 | for a well-formed group the iteration succeeds, moves past the group, appends the group's points and n/2 copies of the code, and leaves the current point at the last point appended |
| SvgPath.ReuseCommand | code/chapter-10/svg.py:102-105 | a number in command position repeats the last command's code, and a command other than M/m stays the remembered one |
| SvgPath.MovetoThenLineto | code/chapter-10/svg.py:120-125 | an M or m group emits MOVETO and leaves LINETO with L or l as the command for the pairs that follow |
| SvgPath.CloseStep | code/chapter-10/svg.py:116-118 | Z/z appends the current point with the CLOSE code and consumes only the letter; the as-written loop keeps the current point, the corrected one returns it to the subpath's start |
| SvgPath.UnsupportedLetters | code/chapter-10/svg.py:81-94 | H, V, S, T and A in either case stop the conversion with an unknown-command error |
| SvgPath.ConvertErrors | code/chapter-10/svg.py:104-118 | a path starting with a number fails for want of a command, and a number right after Z/z is never consumed, so the loop does not terminate |
| SvgPath.ImplicitLineto | code/chapter-10/svg.py:120-125 | `M x1 y1 x2 y2` converts to a MOVETO to the first point and a LINETO to the second |
| SvgPath.PairStep | code/chapter-10/svg.py:104-125 | an absolute M or L pair appends that point with the command's code and leaves L/LINETO remembered and the point current |
| SvgPath.AfterLine | code/chapter-10/svg.py:100-125 | the first six tokens of `M x0 y0 L x1 y1 z m dx dy` yield the MOVETO and LINETO vertices with the second point current |
| SvgPath.CloseThenMove | code/chapter-10/svg.py:116-118 | after `z m dx dy` the relative move is taken from the current point as written, from the subpath start when corrected |
| SvgPath.CloseKeepsLastVertex | code/chapter-10/svg.py:116-118 | as written, `M x0 y0 L x1 y1 z m dx dy` puts the moveto at (x1+dx, y1+dy) |
| SvgPath.CloseReturnsToSubpathStart | code/chapter-10/svg.py:116-118 | corrected, the same path puts the moveto at (x0+dx, y0+dy), the subpath's initial point plus the offset |
| SvgPath.MovetoSetsStart | code/chapter-10/svg.py:120-125 | in the corrected conversion a moveto group's first point becomes the subpath's initial point |
| SvgPath.ConvertLoop | code/chapter-10/svg.py:97-127 | the loop over the tokens, updating its variables in place, returns exactly the conversion (or its error) |
| SvgPath.Iteration | code/chapter-10/svg.py:100-125 | the loop body on the loop's variables computes exactly one step of the conversion |
| SvgPath.CurveRun | code/chapter-10/svg.py:155-157 | a curve contributes its samples after the first, all with the LINETO code |
| SvgPath.TesselateFrom | code/chapter-10/svg.py:147-170 | a successful tesselation has one code per vertex and only MOVETO and LINETO codes |
| SvgPath.Tesselate | code/chapter-10/svg.py:130-173 | the tesselated path has one code per vertex and only MOVETO and LINETO codes |
| SvgPath.NoCurvesKeepsStraight | code/chapter-10/svg.py:147-169 | without curves the result is exactly the MOVETO and LINETO entries, unchanged and in order; CLOSE and unknown codes are dropped |
| SvgPath.CurveAtStart | code/chapter-10/svg.py:152-161 | a curve code in first position has no previous vertex, so unpacking its control points fails |
| SvgPath.CurveStep | code/chapter-10/svg.py:152-165 | CURVE3 samples the quadratic through the previous vertex and the next two and skips two entries; CURVE4 samples the cubic through the previous vertex and the next three and skips three |
| SvgPath.TesselateLoop | code/chapter-10/svg.py:130-173 | the loop appending to the output lists returns exactly the tesselation (or its error) |
| RstMedia.SplitOn | rst2html.py:79 | splitting on a separator always yields at least one part |
| RstMedia.SplitJoin | rst2html.py:79 | joining the parts with the separator gives back the string, and no part contains the separator |
| RstMedia.SplitNone | rst2html.py:79 | a string without the separator splits into itself alone |
| RstMedia.SplitLastAfter | rst2html.py:79 | the last part of a split depends only on what follows the last separator |
| RstMedia.ExtensionAfterLastDot | rst2html.py:79 | `uri.split('.')[-1]` is the text after the last dot, or the whole URI when there is no dot |
| RstMedia.MediaRun | rst2html.py:77-82 | the media directive renders the URI it was given, as a video or as an image |
| RstMedia.MediaByExtension | rst2html.py:79-82 | a URI is a video exactly when the text after its last dot is ogg, mpg, mp4, avi, mpeg or webm, compared case-sensitively |
| RstMedia.MediaWithoutDot | rst2html.py:79-82 | a URI without a dot is a video exactly when the whole URI is one of the six extensions |
| RstFigures.Decimal | rst2html.py:40 | `%d` of a natural number is a non-empty run of decimal digits with no leading zero except for 0 itself |
| RstFigures.DecimalRoundTrip | rst2html.py:40 | reading back the decimal text gives the number |
| RstFigures.RefTextDistinct | rst2html.py:40-41 | a resolved reference never shows the "(?)" placeholder, and distinct figure numbers give distinct texts |
| RstFigures.LabelledCount | rst2html.py:29-31 | the count of labelled figures is at most the number of nodes |
| RstFigures.NumberFrom | rst2html.py:29-35 | the numbering pass keeps one node per node |
| RstFigures.Applied | rst2html.py:25-41 | the transform keeps one node per node |
| RstFigures.NumberAt | rst2html.py:29-35 | the i-th node is numbered from the count of labelled figures before it |
| RstFigures.LabelledCountCons | rst2html.py:29-31 | a node in front adds one to the count exactly when it is a labelled figure |
| RstFigures.FiguresNumbered | rst2html.py:29-35 | labelled figures are numbered 1, 2, 3 in document order; unlabelled figures get no number; other nodes are untouched |
| RstFigures.NumbersLast | rst2html.py:29-33 | the number recorded for a label is that of the last figure carrying it |
| RstFigures.NumbersUntouched | rst2html.py:29-33 | a label no figure carries keeps whatever number the map had for it, or stays absent |
| RstFigures.ReferenceResolved | rst2html.py:37-41 | a reference to a label shows "(n)", where n is the number of the last figure with that label |
| RstFigures.ReferenceUnknown | rst2html.py:37-39 | a reference to a label no figure carries is left unchanged |
| RstFigures.Apply | rst2html.py:25-41 | the two passes over the nodes, in place, leave exactly the transformed document |
| RstFigures.NumberFigures | rst2html.py:26-35 | the first loop numbers the figures in place and returns the label-to-number map |
| RstFigures.NumberStep | rst2html.py:29-35 | numbering a sequence numbers its head and continues with the counter advanced only for a labelled figure |
| RstFigures.ResolveReferences | rst2html.py:37-41 | the second loop resolves each node in place against the map |
| RstFigures.ApplyAsWritten | rst2html.py:25-41 | as written the transform raises KeyError('label') exactly when some figure has no label attribute, and otherwise gives the transformed document |
| RstFigures.FigRole | rst2html.py:166-171 | the fig role makes a reference to its text that shows "(?)" |
| RstFigures.DanglingReferenceShowsPlaceholder | rst2html.py:37-39 | a fig reference to a label no figure carries still shows "(?)" after the transform |
| RstFigures.LinkPointsAtTarget | rst2html.py:155 | the link written for a reference points at the id `figure-<label>` of the target a labelled figure gets |
| RstFigures.AsDocumentNode | rst2html.py:148-151 | the node the transform sees carries the figure's label attribute and no number |
| RstFigures.FigureLabelAndTarget | rst2html.py:104-158 | a figure with an acceptable caption is labelled by its label option, or by its URI when the option is empty; a `figure-<label>` target precedes it exactly when that label is not empty; its classes default to ["right"]; its media is chosen by extension |
| RstFigures.CaptionErrorLeavesLabelMissing | rst2html.py:129-143 | a caption that is neither a paragraph nor an empty comment returns the figure and an error, with no label attribute set |
| RstFigures.CaptionErrorBreaksTransform | rst2html.py:139-143 | one such figure makes the as-written transform raise KeyError; read as unlabelled, it is simply left unnumbered |
| RstFigures.DirectiveFiguresNumbered | rst2html.py:148-153 | every figure the directive completes is labelled, so the transform numbers it after the labelled figures before it |
| RstFigures.FigwidthImageAsWritten | rst2html.py:112-116 | as written, `figwidth: image` with file insertion enabled raises AttributeError from `PIL.open` |
| RstFigures.FigwidthImage | rst2html.py:112-122 | with the image opened the figure's width is the image's pixel width; an I/O failure leaves it unset; without file insertion the outcome of opening does not matter |
| RstHtml.BaseAttsLengths | rst2html.py:193-196 | width and height are copied as attributes exactly when the node has them |
| RstHtml.StyleParts | rst2html.py:197-204 | the style holds at most the width and the height declarations |
| RstHtml.Sources | rst2html.py:230-232 | two output entries per source file |
| RstHtml.DepartVideo | rst2html.py:234-236 | leaving a video fails exactly when the context stack is empty |
| RstHtml.SourcesAppend | rst2html.py:230-232 | one more file appends one more source element at the end |
| RstHtml.Translator.VisitFigref | rst2html.py:177-178 | appends the opening link to `#figure-<target>` and leaves the stack alone |
| RstHtml.Translator.DepartFigref | rst2html.py:179-180 | appends `</a>` and leaves the stack alone |
| RstHtml.Translator.VisitVideo | rst2html.py:185-232 | appends the optional centring div, the video tag and the source elements, and pushes the closing text |
| RstHtml.Translator.ApplyAlignment | rst2html.py:214-228 | centre alignment opens a div, pushes its closing tag and drops the suffix; another alignment sets the align and class attributes and pushes nothing to close |
| RstHtml.Translator.EmitSources | rst2html.py:230-232 | the loop appends exactly one source element per file, in order |
| RstHtml.Translator.StyleAttributes | rst2html.py:186-206 | the flags and lengths of the node, with the lengths moved into one style attribute |
| RstHtml.Translator.MoveToStyle | rst2html.py:197-204 | the loop over width and height removes both attributes and collects one declaration for each present length, width first |
| RstHtml.Translator.DepartVideoStep | rst2html.py:234-236 | appends `</video>` and pops the stack onto the body; on an empty stack only `</video>` is appended and IndexError is reported |
| RstHtml.StyleRule | rst2html.py:193-206 | the video tag never carries width or height; it has a style exactly when a length was given, the width's declaration first |
| RstHtml.PixelsRule | rst2html.py:200-202 | a length of digits and dots gets "px"; a length with a unit keeps it |
| RstHtml.SuffixRule | rst2html.py:207-213 | no text after `<video>` under a text element or a reference, whatever the reference's own parent (a reference is itself a text element, so the test's second half never decides), none in a centring div, and a newline exactly for a block parent without centring |
| RstHtml.AlignmentRule | rst2html.py:214-228 | an align-center class means centring; centring wraps the tag in a div and sets only the class; another alignment sets align and class; no alignment sets neither |
| RstHtml.SourcePerUri | rst2html.py:229-232 | the tag is followed by one source element per comma-separated URI, in order, and the URIs rejoined give the node's URI |
| RstHtml.SourcesAt | rst2html.py:230-232 | the k-th file gives the k-th source element |
| RstHtml.VisitDepartBalanced | rst2html.py:185-236 | visiting then leaving a video restores the context stack and closes with `</video>` then the pushed text, the closing div when centred |

## Left out

- Windowing, GPU and file plumbing: `app.Window`, `gloo` programs and buffers, draw calls, event callbacks, `glReadPixels`, PNG output and matplotlib plotting. These are I/O against libraries outside this model. Only the numbers these demos compute and hand to the GPU are modelled.
- Floating point: every coordinate, distance and weight is a mathematical real. float32 rounding is not modelled, and neither is uint32 index storage; no index in these buffers comes near 2^32.
- Transcendental functions: `exp`, `cos`, `sin` and π are parameters, and nothing is known of them beyond the facts a member requires (positivity and monotonicity of `exp`, cos² + sin² = 1, `cos` in [-1, 1]). Members state values in terms of these parameters where the source's formula has them: the Gaussian terms of `SdfCoverage.Coverage`, `Ellipses.BandAlpha`, `Boxes.OutlineAlpha` and `AggSegments.FragmentAlpha`, with `CsgAaUnion.Shade` and `QuadGrid.GridShade` building on `SdfCoverage.Coverage`; and the polar points of `LineStrip.StarFrom`, `LineStrip.Star`, `ConcavePolygon.Star` and `SdfMarkerSpiral.MarkerAt`. No member states a concrete number such as exp(-1) or cos(π/3).
- The `bezier` module, which holds `quadratic` and `cubic`, is not part of this model. Its samplers are opaque parameters, so `SvgPath.Tesselate` says nothing about where the samples lie.
- The `boy` formula is an opaque parameter of `Boy.Surface`. Only the grid and the indices are modelled.
- SVG lexing is not modelled: the regular expressions that split the path text into letters and numbers (code/chapter-10/svg.py:64-73) are replaced by a token sequence. `svg.get`/`svg.path`, which read the file, are left out.
- SvgPath.Convert: a number right after Z/z makes the source loop forever (code/chapter-10/svg.py:100-118). The model returns `Err(Diverges)` there instead of not terminating.
- SvgPath.Convert: a coordinate group that is cut short or holds a letter returns `Err(Malformed)`. The source behaves in three ways there, none of them modelled:
  - a group cut short by the end of the tokens fails in `reshape` (code/chapter-10/svg.py:109);
  - a full group holding a letter after a lower-case command fails in `vertices += last_vertice` (code/chapter-10/svg.py:110-111);
  - a full group holding a letter after an upper-case command, as in `L 1 Z`, becomes a string array that passes `reshape`, skips the `+=` and is emitted as a vertex; the letter is swallowed as a coordinate and the source carries on without raising.
- SvgPath.Convert: a Z/z before the first coordinate group appends the source's initial `last_vertice`, the nested `[[0, 0]]` (code/chapter-10/svg.py:99, 118). `np.array(verts)` (code/chapter-10/svg.py:127) then fails, or on old numpy gives an object array, as soon as another vertex follows; a path of Z/z alone gives an array of shape (k, 1, 2). The model appends the point (0, 0) and returns `Ok` in every such case.
- lxml parsing of gl.xml is not modelled. `GlRegistry.Registry.Load` starts from the elements as records holding the attributes and children the parser reads.
- The `supported` regular expression is not interpreted: `re.match` is an opaque predicate parameter of `GlRegistry.Registry.GetExtension`.
- RstFigures.Applied: docutils runs `FigureReferences` only when `fig_role` has queued it (rst2html.py:169-170), so a document without a `:fig:` reference is never transformed. The model applies the transform to every document.
- docutils internals are not modelled:
  - `directives.uri` normalisation; the URI arrives normalised.
  - `nested_parse`; the directive content arrives parsed.
  - `utils.unescape`; the role text arrives unescaped.
  - `note_explicit_target`, `note_pending`, option validation, directive registration and `publish_cmdline`.
  - `starttag`'s attribute quoting and ordering, and the node's `classes` and `ids`, which it merges into the `class` and `id` attributes of every tag it writes for the node. Because rst2html.py:231 passes the video node, each `<source>` tag carries them too; the model's tags hold only the attributes the writer passes.
- A document is flattened to its nodes in traversal order. Nesting is not modelled, nor where a replaced reference text sits among the node's children.
- `html_visit_video` writes `node['align'] = 'center'` back into the node (rst2html.py:214-215). The model derives the alignment from the node without that write; nothing later in the writer reads it.
- PIL image loading (rst2html.py:113-122) becomes an outcome parameter: opened with a width, an I/O failure, or no such function. `record_dependencies` is left out.
- The constrained triangulation of code/chapter-10/concave-polygon.py, done by the `triangle` library, is left out. Only the segment lists handed to it are modelled.
- Per-frame animation counters in `on_draw` callbacks are left out. What the callbacks compute from them is modelled in three places: the sample-pass weight of code/triangle-ssaa.py:93-105, the scroll of code/chapter-09/signals.py:51-53 and the grid scales of code/chapter-03/quad-grid.py:72-75 (`QuadGrid.Scales`, with the time as a parameter).
- The random samples of code/chapter-09/signals.py come from `np.random.uniform` in the source (lines 35 and 53). Here they are parameters.

## Findings

| source | as written | input that shows it | evidently intended | confidence | as-written member | corrected member |
|---|---|---|---|---|---|---|
| code/chapter-08/sdf-marker-spiral.py:77-81 | the record dtype declares the field `size` twice, which numpy rejects, so the vertex buffer is never built | the dtype as written: position(2), size(1), size(1), orientation(1), texcoord(2) | one `size` field, giving four fields of 6 components | not executed | SdfMarkerSpiral.MarkerDtypeAsWrittenRejected | SdfMarkerSpiral.MarkerDtypeAccepted |
| code/chapter-10/svg.py:116-118 | Z/z leaves the current point at the last vertex, so a relative moveto after it is taken from the wrong point | `M x0 y0 L x1 y1 z m dx dy` puts the moveto at (x1+dx, y1+dy) | after closepath the current point is the subpath's initial point (SVG 1.1 section 8.3.3), giving (x0+dx, y0+dy) | not executed | SvgPath.CloseKeepsLastVertex | SvgPath.CloseReturnsToSubpathStart |
| rst2html.py:139-143 | a figure whose caption is neither a paragraph nor an empty comment is returned before it gets a `label` attribute, and `FigureReferences.apply` then raises KeyError on `node['label']` for the whole document | any document holding one figure whose content starts with, say, a bullet list, and at least one `:fig:` reference | the figure is reported and left unnumbered, and the rest of the document is numbered | not executed | RstFigures.CaptionErrorBreaksTransform | RstFigures.FiguresNumbered |
| rst2html.py:116 | `PIL.open` does not exist: the PIL package exposes `Image.open`, so `figwidth: image` with file insertion enabled raises AttributeError, which the `except (IOError, UnicodeError)` does not catch | a figure with the option `:figwidth: image` | the figure takes the image's pixel width | not executed | RstFigures.FigwidthImageAsWritten | RstFigures.FigwidthImage |
