# Hex-grid stencil generator and STL preview, in Dafny

This project models two small Python tools.

The first is the fallback backend of a hex-grid drawing-stencil generator,
`hex_grid_template.py`. It builds a pointy-top hexagonal lattice inside a
plate's working rectangle. It collects the hexagons' sides as canonical
edges without duplicates, and builds the vertex adjacency from them. It
turns each edge into a short dash slot and each in-bounds vertex into one
arm slot per neighbour. Each slot becomes a 12-triangle box, and the boxes
are written as an ASCII STL file.

The second is the README preview renderer, `render_stl_preview.py`. It
reads an ASCII or binary STL file and rotates every triangle by a yaw and a
pitch. It shades each triangle by a fixed light, sorts the triangles back
to front by mean depth (painter's algorithm), and draws one SVG polygon per
triangle.

Modules, one per file:

- `Results`, `Numerics`, `Vectors`, `Collections` and `Text` are shared
  vocabulary.
  - The result and option types.
  - The floating-point operations, taken as parameters.
  - 3-vectors and the cross product.
  - Python dict-key insertion order, as `Dedup`.
  - The parts of Python's `str` the reader uses: `splitlines`, `strip`,
    `split(maxsplit=…)` and `startswith`.
- `Lattice`: `_round_point`, `_canonical_edge`, `_hex_corners` and
  `_collect_grid_geometry`. Each phase of the grid computation is an
  imperative method proved against a specification predicate.
- `Mesh`: `_normal`, `_box_triangles`, `_write_ascii_stl` and
  `build_fallback_stl`.
- `StlReader`: `_parse_ascii_stl`, `_parse_binary_stl` and the format
  dispatch of `load_stl`.
- `Preview`: `rotate`, `shade_for_triangle` and `render_svg`.
- `RoundTrip`: the generator's STL text read back by the preview's ASCII
  parser.

Operations are parameters: the model calls but does not define them.

- `math.sqrt`, `math.cos`, `math.sin`, `math.atan2`, `math.radians`,
  `math.degrees` and `round(x, n)` are bundled in `Numerics.Ops`.
- The `%.8e` number format is `fmt: real -> string`.
- `float(...)` on a word is `parseFloat: string -> Option<real>`, where
  `None` is the `ValueError`.
- The float32 decoding of `struct.unpack_from("<3f")` is
  `f32: seq<Byte> -> real`.
- UTF-8 decoding is `decode: seq<Byte> -> Option<string>`, where `None` is
  the `UnicodeDecodeError`.

Where a proof needs a fact about one of these operations, that fact is a
hypothesis:

- `SqrtSound`: `sqrt` is the non-negative square root.
- `TrigSound`: cos² + sin² = 1.
- `RoundTrip.Rereadable`: each formatted number is one non-empty word that
  reads back as the number rounded by some `q`.

Python exceptions are modelled as `Failure` values:

- The `ZeroDivisionError` when `hex_flat_to_flat` is 0.
- The `ValueError` of a malformed vertex line or a short binary file.
- The `ValueError` of `min()` on an empty mesh.

## Model

| member | source | states |
|---|---|---|
| Lattice.RoundPoint | hex_grid_template.py:60-61 | both coordinates are rounded values, which a stable rounding leaves unchanged |
| Lattice.CanonicalEdge | hex_grid_template.py:60-67 | the edge's first point is lexicographically at most its second, and the two points are the two rounded inputs |
| Lattice.CanonicalEdgeSymmetric | hex_grid_template.py:64-67 | swapping the two points gives the same edge |
| Lattice.CanonicalEdgeUnordered | hex_grid_template.py:64-67 | two point pairs give the same edge key exactly when they round to the same unordered pair, in both directions |
| Lattice.CanonicalEdgeStable | hex_grid_template.py:64-67 | a canonical edge's own endpoints give back the same edge, under a stable rounding |
| Lattice.GridLayout | hex_grid_template.py:82-94 | the row spacing is 1.5 times the hexagon side and is non-zero |
| Lattice.GridOverflows | hex_grid_template.py:93-104 | both spacings are positive; the first column lies one column spacing left of the working rectangle and the last at least one right of it; every column's first centre lies at least half a row below it and its last at least a row above it |
| Lattice.HexCenters | hex_grid_template.py:96-104 | there are exactly cols * rows centres, or none when either count is not positive; centre k sits in column k / rows and row k % rows, and odd columns are raised by half a row |
| Lattice.ColumnOffset | hex_grid_template.py:99-104 | one column to the right moves a centre by dx in x, and by +dy/2 from an even column or -dy/2 from an odd one in y |
| Lattice.HexCorners | hex_grid_template.py:70-78 | six corners, corner i at angle 30 + 60i degrees from the centre |
| Lattice.CornerDistance | hex_grid_template.py:70-78 | every corner lies at distance side from the centre, given cos² + sin² = 1 |
| Lattice.AllHexEdgesMembers | hex_grid_template.py:109-113 | an edge is collected exactly when it is the canonical form of a side of some hexagon |
| Lattice.AddHexEdges | hex_grid_template.py:110-113 | adding one hexagon's six sides to the edge dict keeps each edge once, in first-insertion order |
| Lattice.CollectEdges | hex_grid_template.py:106-113 | the edge dict's keys are the distinct canonical sides of all hexagons, in first-insertion order |
| Lattice.EndpointsMembers | hex_grid_template.py:115-117 | a point is among the listed endpoints exactly when it is an endpoint of some edge |
| Lattice.AddNeighbor | hex_grid_template.py:116-117 | setdefault(p, set()).add(q) adds key p, adds q to p's set, and leaves every other key's set alone |
| Lattice.AddEdgeOrder | hex_grid_template.py:115-117 | the vertex dict's keys follow first appearance: p, then q, for each edge in order |
| Lattice.AddEdgeKeeps | hex_grid_template.py:115-117 | folding one more edge into the adjacency keeps it the adjacency of the longer edge list |
| Lattice.BuildAdjacency | hex_grid_template.py:115-117 | the adjacency holds q in p's set exactly when some edge joins p and q, with keys in first-appearance order |
| Lattice.AdjacencySymmetric | hex_grid_template.py:115-117 | every key is an endpoint of some edge and every endpoint is a key; q in p's set implies p in q's set; keys are distinct |
| Lattice.EdgeDashLength | hex_grid_template.py:119 | the dash length is at least 0.2 and at least side - 2 * gap, and equals one of the two |
| Lattice.DashSegment | hex_grid_template.py:122-128 | a dash has the dash length and is centred on its edge's midpoint |
| Lattice.KeptDashesMembers | hex_grid_template.py:121-128 | a dash is emitted exactly for the edges whose midpoint is in the working rectangle; every dash's centre is inside and its length is the dash length |
| Lattice.EdgeSegments | hex_grid_template.py:121-128 | the loop emits the kept dashes, one per such edge, in edge order |
| Lattice.ArmSegment | hex_grid_template.py:134-138 | an arm's length is vertex_arm_length and, given cos² + sin² = 1, its centre lies half that length from its vertex |
| Lattice.VertexArms | hex_grid_template.py:134-138 | one arm per neighbour, and exactly the arms towards the neighbours |
| Lattice.VertexSegments | hex_grid_template.py:130-138 | the number of arms is the sum of neighbour-set sizes over the in-bounds vertices, and the arms are exactly those of in-bounds vertices towards their neighbours |
| Lattice.CollectGridGeometry | hex_grid_template.py:81-140 | fails exactly when the division by hex_flat_to_flat (or by sqrt 3) is by zero; otherwise every phase's output is what its specification says |
| Lattice.GeometrySlots | hex_grid_template.py:119-138 | edges are distinct, every dash lies in the working rectangle with the dash length, and every arm has vertex_arm_length |
| Numerics.Ceil | hex_grid_template.py:93-94 | math.ceil: the least integer at or above x |
| Numerics.Max | hex_grid_template.py:119 | max of two floats: at least both, and one of them |
| Mesh.Normal | hex_grid_template.py:167-176 | the normal is parallel to the face's cross product, and zero when the cross product is |
| Mesh.NormalDirection | hex_grid_template.py:167-176 | a zero magnitude gives (0, 0, 0); otherwise the normal has unit length, is parallel to the cross product and points the same way |
| Mesh.BoxCorners | hex_grid_template.py:184-199 | eight corners; where each sits is stated by `Mesh.BoxTrianglePlaced` (local corner turned by the slot's angle, moved to its centre, lifted by half the height) and `Mesh.BoxCornerHeights` (z is 0 or the height) |
| Mesh.BoxCornerHeights | hex_grid_template.py:184-199 | every corner's z is 0 or the box height |
| Mesh.FaceTables | hex_grid_template.py:201-208 | both face tables have 12 faces indexing the 8 corners, and the corrected table reverses each written face |
| Mesh.InwardAxesCoverAxes | hex_grid_template.py:201-208 | the six face directions, one per pair of triangles, are +X, −X, +Y, −Y, +Z and −Z, each exactly once |
| Mesh.FacePairCross | hex_grid_template.py:184-208 | both triangles of written pair f have the same cross product, the face's scale times its inward axis |
| Mesh.FacePairCorners | hex_grid_template.py:184-208 | the six indices of written pair f are exactly the box corners lying in the plane of face f |
| Mesh.AsWrittenFacePairs | hex_grid_template.py:184-208 | the written table is two triangles per face: pair f uses exactly the four corners of face f, and both triangles' cross products are the same positive multiple of that face's inward axis |
| Mesh.FacePairs | hex_grid_template.py:184-208 | the corrected table keeps each pair on the same four corners, with cross products a positive multiple of the face's outward axis |
| Mesh.AsWrittenFacesWindInward | hex_grid_template.py:201-210 | with the face table as written, every face's normal points into the box |
| Mesh.FacesWindOutward | hex_grid_template.py:201-210 | with the corrected table, every face's normal points out of the box |
| Mesh.BoxTriangleList | hex_grid_template.py:179-210 | twelve triangles, from the face table as written; `Mesh.AsWrittenFacePairs` with `Mesh.InwardAxesCoverAxes` shows that table is two triangles on each of the six faces, one face per axis direction |
| Mesh.OutwardBoxTriangleList | hex_grid_template.py:201-210 | the corrected box: twelve triangles, each the written one with its last two corners swapped |
| Mesh.BoxTrianglePlaced | hex_grid_template.py:184-210 | triangle n of either box is local face n turned by the slot's angle, moved to the slot's centre and lifted by half the height |
| Mesh.CrossTurn | hex_grid_template.py:196-198 | a turn about the z axis commutes with the cross product, given cos² + sin² = 1 |
| Mesh.PlacedWinding | hex_grid_template.py:195-199 | turning and moving a triangle keeps the sign of its cross product against the box's centre |
| Mesh.BoxWindsInward | hex_grid_template.py:179-210 | for a box of positive size, every triangle of the box as written has its cross product pointing towards the box's centre |
| Mesh.OutwardBoxWindsOutward | hex_grid_template.py:179-210 | every triangle of the corrected box has its cross product pointing away from the box's centre |
| Mesh.BoxNormalsPointInward | hex_grid_template.py:167-210 | the facet normal written for each triangle of the box as written points into the box; that of the corrected box points out of it |
| Mesh.BoxTriangleVertices | hex_grid_template.py:179-210 | every vertex of every triangle is one of the 8 corners, with z equal to 0 or the height |
| Mesh.BoxTriangles | hex_grid_template.py:195-210 | the corner loop and the face comprehension, with the face table as written, give the box's triangle list |
| Mesh.FallbackTriangles | hex_grid_template.py:232-234 | twelve triangles per segment, segment by segment, dashes before arms |
| Mesh.VertexLine | hex_grid_template.py:220-222 | a vertex line holds no line boundary when its three formatted numbers hold none |
| Mesh.FacetLines | hex_grid_template.py:216-224 | seven lines per facet |
| Mesh.AllFacetLines | hex_grid_template.py:216-224 | seven lines per triangle in all |
| Mesh.FacetLinesAt | hex_grid_template.py:215-224 | facet k's lines are lines 7k to 7k + 6 after the header |
| Mesh.WriteLines | hex_grid_template.py:214-225 | each write appends its line and a newline to the file text |
| Mesh.WriteAsciiStl | hex_grid_template.py:213-225 | the file is the header line, seven lines per triangle and the end line, each ended by a newline |
| Mesh.BuildFallbackStl | hex_grid_template.py:228-236 | fails exactly when the grid computation does; otherwise the triangles are the slot boxes, from the face table as written, of all dashes and then all arms, and the text is their STL |
| Text.SplitLines | render_stl_preview.py:20 | no line holds a line boundary, and non-empty text gives at least one line |
| Text.SplitLinesJoinLines | render_stl_preview.py:20 | text written one line per write splits back into the same lines when no line holds a line boundary |
| Text.Strip | render_stl_preview.py:21 | the stripped line is no longer than the line and neither starts nor ends with whitespace |
| Text.LStripRemovesSpaces | render_stl_preview.py:21 | the left strip keeps a suffix of the line and removes only whitespace |
| Text.RStripRemovesSpaces | render_stl_preview.py:21 | the right strip keeps a prefix of the line and removes only whitespace |
| Text.StripRemovesSpaces | render_stl_preview.py:21 | the stripped line is a contiguous part of the line, and what is removed before and after it is whitespace |
| Text.StripIndented | render_stl_preview.py:21 | strip removes exactly the indentation of a line that ends in a non-space character |
| Text.Split | render_stl_preview.py:24 | at most maxsplit + 1 parts, each non-empty and not starting with whitespace, all but the last free of whitespace |
| Text.SplitWord | render_stl_preview.py:24 | split with splits left takes off the leading word |
| StlReader.VertexLinesAppend | render_stl_preview.py:20-23 | the vertex lines of two line lists are those of each, in order |
| StlReader.NonVertexLineIgnored | render_stl_preview.py:21-23 | inserting or removing a line that is not a vertex line after stripping leaves the ASCII parser's result unchanged |
| StlReader.ParseVertex | render_stl_preview.py:24-25 | a vertex is read exactly when the line splits into four parts whose last three parse, and it is those three numbers |
| StlReader.ParseVertices | render_stl_preview.py:24-25 | on success, one vertex per vertex line |
| StlReader.ParseVerticesFailureSticks | render_stl_preview.py:24-25 | a vertex line that does not parse ends the parse with its error, whatever follows |
| StlReader.Group3 | render_stl_preview.py:26-28 | floor(k / 3) triangles from k vertices, triangle i from vertices 3i, 3i + 1 and 3i + 2; a trailing incomplete triple is dropped |
| StlReader.AsciiTriangleCount | render_stl_preview.py:16-30 | a successful parse returns floor(k / 3) triangles for k vertex lines |
| StlReader.BufferedStep | render_stl_preview.py:25-28 | the pending buffer plus the finished triangles always hold exactly the vertices read so far |
| StlReader.ParseAsciiStl | render_stl_preview.py:16-30 | the line scanner with its pending buffer returns the grouped vertex lines, or the first malformed vertex line's error |
| StlReader.U32LE | render_stl_preview.py:37 | four bytes read little-endian give a 32-bit unsigned count |
| StlReader.U32RoundTrip | render_stl_preview.py:37 | the little-endian count decoding is a bijection between four bytes and 32-bit integers |
| StlReader.DecodeBinary | render_stl_preview.py:33-56 | fails with a short header exactly below 84 bytes; fails as truncated exactly when it has 84 bytes or more but fewer than 84 + 50 * count; succeeds exactly otherwise, with count triangles, record i's vertices read at 84 + 50i + 12, + 24 and + 36, all within the data |
| StlReader.ParseBinaryStl | render_stl_preview.py:33-56 | the offset-advancing loop, at offset 84 + 50i before record i, returns what the layout says |
| StlReader.LoadStl | render_stl_preview.py:59-71 | binary unless the first five bytes lowercase to "solid" and the text decodes and parses to at least one triangle; a malformed vertex line is an error |
| StlReader.EmptyLoadIsBinary | render_stl_preview.py:59-71 | an empty result can only come from a binary file whose count is 0 |
| Preview.Rotate | render_stl_preview.py:74-89 | rotation keeps every vector's length, given cos² + sin² = 1 |
| Preview.ShadeNormal | render_stl_preview.py:94-100 | the shading normal is parallel to the face's cross product, and zero when the cross product is (a zero magnitude is divided by 1) |
| Preview.Intensity | render_stl_preview.py:92-105 | the intensity is never negative |
| Preview.Shade | render_stl_preview.py:92-109 | the colour is rgb(c, c + 8, c + 16) with c at least 150 |
| Preview.ShadeBounds | render_stl_preview.py:92-109 | with a true square root the intensity is at most 1, so c stays between 150 and 235 |
| Preview.Depth | render_stl_preview.py:124 | the depth lies between the least and the greatest z of the three vertices |
| Preview.SortByDepth | render_stl_preview.py:141 | the sort is in non-decreasing depth and a permutation of the items |
| Preview.SortByDepthStable | render_stl_preview.py:141 | items of equal depth keep their input order |
| Preview.Span | render_stl_preview.py:132-133 | a zero span becomes 1.0; the span is positive and at least max - min |
| Preview.MinOf | render_stl_preview.py:130 | the minimum is one of the values and at most each |
| Preview.MaxOf | render_stl_preview.py:130-131 | the maximum is one of the values and at least each |
| Preview.MakeFrame | render_stl_preview.py:127-134 | the frame's bounds are among the rotated coordinates and bound every one of them, and the frame keeps the image's size |
| Preview.FrameFits | render_stl_preview.py:132-134 | the scale fits both spans into 86% of the image |
| Preview.Project | render_stl_preview.py:136-139 | the bounding box's centre goes to the image's centre, and with a positive scale a point above the centre in y is drawn above it, as SVG's y grows downwards |
| Preview.ProjectInside | render_stl_preview.py:134-139 | a point within the bounding box projects into the central 86% of the image |
| Preview.DrawnInside | render_stl_preview.py:127-148 | every corner of every drawn polygon lies in the central 86% of the image |
| Preview.PolygonsInside | render_stl_preview.py:127-149 | drawing any rearrangement of the items in their frame keeps every corner in the central 86% of the image |
| Preview.DrawAll | render_stl_preview.py:147-149 | one polygon per item, in painting order, each the item's projected corners and colour |
| Preview.Items | render_stl_preview.py:120-125 | one rotated, shaded item per input triangle |
| Preview.RenderSvg | render_stl_preview.py:112-150 | an empty mesh is an error; otherwise one polygon per triangle, in non-decreasing depth order, the items a permutation of the rotated triangles, each polygon the projected item, and, for an image of positive size, every corner inside its central 86% |
| RoundTrip.SplitVertexWords | render_stl_preview.py:24 | a written vertex line splits into the keyword and its three numbers |
| RoundTrip.FacetVertexLines | hex_grid_template.py:216-224 | of a facet's seven lines exactly the three vertex lines reach the parser, stripped |
| RoundTrip.StlVertexLines | hex_grid_template.py:213-225 | the vertex lines of the whole file are three per triangle, in order |
| RoundTrip.ParseWritten | hex_grid_template.py:220-222 | every written vertex line parses to its vertex with each coordinate reread |
| RoundTrip.GroupCorners | render_stl_preview.py:26-28 | grouping a triangle list's corners in threes gives the list back |
| RoundTrip.StlBreakless | hex_grid_template.py:213-225 | no written line holds a line boundary |
| RoundTrip.WriteThenRead | hex_grid_template.py:213-225 | the preview's ASCII parser reads the generator's STL text back as the written triangles, in order, each coordinate passed once through the number format |

## Left out

- The build123d backend and `build_hex_grid_template` (hex_grid_template.py:143-164): they are a foreign CAD library behind an optional import.
- `main`, `parse_args`, the `print` calls, `mkdir`, and opening, reading and writing files: the writer returns its text and the loader takes the file's bytes.
- The floating-point library (`sqrt`, `cos`, `sin`, `atan2`, `radians`, `degrees`, `round`), float32 decoding, `%.8e` formatting, `float(...)` and UTF-8 decoding: they are parameters, and reals stand for floats throughout, without rounding.
- The SVG text (`svg` and `rect` elements, the `%.2f` point format, stroke attributes): the model keeps each polygon's projected points and colour, in drawing order.
- The order of a vertex's arms: Python iterates a set, whose order the model leaves open, so `VertexSegments` fixes only which arms there are and how many.
- Preview.Shade: requires sqrt(0.995) != 0, which the source does not state; any true square root meets it (`ShadeBounds`).
- Preview.RenderSvg: requires sqrt(0.995) != 0 for the same reason.
- StlReader.VertexLines: its own contract is only a length bound; what it keeps is stated by `VertexLinesAppend`, `NonVertexLineIgnored` and `ParseAsciiStl`.
- Preview.Shade: `int(...)` truncates toward zero and the model floors; they agree because the value is at least 150.

## Findings

| source | as written | input that shows it | evidently intended | confidence | as-written member | corrected member |
|---|---|---|---|---|---|---|
| hex_grid_template.py:201-208 | every face of the 12-triangle box is wound clockwise seen from outside, so its right-hand normal (the one `_normal` writes) points into the box | any box with positive length, width and height, e.g. the bottom face (0, 1, 2) of a unit cube has normal (0, 0, 1), pointing up into the cube | STL facets wind counter-clockwise seen from outside, with outward normals: each face's last two indices swapped | not executed | Mesh.BoxWindsInward | Mesh.OutwardBoxWindsOutward |

The fallback builder follows the program and writes the box from the face table as written, so `Mesh.BuildFallbackStl` produces the inward-wound box. `Mesh.OutwardBoxTriangleList` is the corrected box beside it: the same triangles with their last two corners swapped, which `Mesh.OutwardBoxWindsOutward` and `Mesh.BoxNormalsPointInward` prove point outwards. `Mesh.AsWrittenFacesWindInward` and `Mesh.FacesWindOutward` show the same for the unplaced box.
