# Tessellation: spatial grid, plane distance and mesh loading, in Dafny

This project models the computational core of the Tessellation mesh viewer:

- **The uniform spatial grid** (`SpatialGrid`). It splits a box-shaped domain into 2^(ceil(extent)+2) cells per axis and keeps them in one flat array. Each cell holds the points filed under it and the triangles filed by their centroid. The grid answers:
  - which cell holds a position;
  - how coordinates and cell ids convert into each other;
  - where a point sits in a cell;
  - which non-empty cells surround a cell.
- **The value types of the grid:** `Volume`, `Dimension`, `Point`, `GridPolygon` and `GridCell`.
- **`GeometryTools::getDistance`:** the signed distance of a point to a triangle's plane, in units of the triangle's un-normalised normal. It is modelled over the reals, together with the foot point `p + d·n` that the commented-out tail of the function builds.
- **The pure logic inside the mesh loaders:**
  - parsing an OBJ face token (`OBJVertex`) and comparing two tokens;
  - expanding a face line into corner entries, where a quad becomes two triangles;
  - the PLY face filter;
  - the de-indexing loop that flattens indexed corners into per-corner streams;
  - `addVertex`, `isQuads` and `isTriangles`.
- **`ScenePlayer`:** the frame counter of the animation player.

## How the model is built

| file | module | models |
|---|---|---|
| `wrappers.dfy` | `Wrappers` | `Option`, used for every `.at()` past the end: `std::vector::at` throws `std::out_of_range`, and `QList::at` fails an assertion or is undefined behaviour |
| `vectors.dfy` | `Vectors` | `glm::vec3` / `vec2` over `real`, with dot and cross products |
| `geometry_tools.dfy` | `GeometryTools` | `getDistance` and its foot point |
| `grid_indexing.dfy` | `GridIndexing` | the grid arithmetic: resolution, per-axis cell, the two index formulas, cell position |
| `grid_types.dfy` | `GridTypes` | `Volume`, `Dimension`, `Point`, `GridPolygon`, `GridCell` |
| `spatial_grid.dfy` | `SpatialGrids` | `class SpatialGrid`, whose fields are updated in place |
| `obj_vertex.dfy` | `ObjVertices` | `QString::split`, `QString::toInt`, `OBJVertex(const QString&)` and its `operator==` |
| `geometry_loading.dfy` | `GeometryLoading` | face expansion, PLY faces, de-indexing, `class Geometry` |
| `scene_player.dfy` | `ScenePlayers` | `class ScenePlayer` |

**Numbers.**
- Floats are `real`; cell coordinates and ids are `int`/`nat`.
- `uint32_t` results are written out explicitly: `(uint32_t) k` is `k % 2^32`, and `(uint32_t) -1` is the sentinel `0xFFFFFFFF`.
- `QString::toInt` trims white space (the characters `QChar::isSpace` accepts: ASCII tab to carriage return, the space, U+0085, and the Unicode space, line and paragraph separators) and reads an optional sign and decimal digits. Anything else, and any value outside the 32-bit `int` range, reads as 0.
- `QString::split` keeps empty parts.

**Cell indices: two formulas, modelled as written.**
- `initialize` and `getCellId` number cell (x, y, z) as `y·W·D + z·W + x` (`LinearId`).
- Both `getCellIndex` overloads use `x + y·W·D + z·D` (`CellIndex`).
- The model keeps both formulas and proves exactly when they meet:
  - they agree on every in-grid coordinate iff W = D (`CellIndexAgreesIffSquare`);
  - `getCellIndex` stays inside the cell array for every in-grid coordinate iff D ≤ W (`CellIndexInBoundsIffNotDeeper`).
- Accordingly, `SpatialGrid.CellIndexOf` promises an in-bounds index only when `Depth() <= Width()`, and the right cell only when `Width() == Depth()`. `InsertPoint` and `InsertPolygon` require the index to be in bounds, because `_grid[cellIndex]` does not check it.

**Where the code departs from what its names suggest, the model follows the code:**
- `getDistance` is signed, and the sign is against the normal. Take the triangle (0,0,0), (1,0,0), (0,1,0), whose normal is n = (0,0,1), and the point (0,0,5), which lies 5 units from the plane on the side n points to. A distance in the usual sense would be +5. The code's formula `-n·(p - v0) / (n·n)` gives −5 (`GeometryTools.WorkedExample`). The foot point `p + d·n` is still the origin.
- `getCellIndex` does not always name the cell that holds a position. Take a domain of width 1, height 1 and depth 2, so W = H = 8 and D = 16:
  - a position whose per-axis cells are (0, 0, 7) gets index 7·16 = 112, and cell 112 of the array sits at (0, 0, 14);
  - a position whose per-axis cells are (0, 7, 15) gets index 7·128 + 15·16 = 1136, past the 1024 cells of the array.
  
  The index is the cell's own only when W = D, and it is in bounds for every in-grid coordinate only when D ≤ W (see above).
- `isQuads` tests `size % 3 == 0` and `isTriangles` tests `size % 4 == 0`, as the code has them. So a geometry with a single triangle (3 indices) has `isQuads` true and `isTriangles` false. On the triangle lists the loaders produce, `isTriangles` tests whether the triangle count is divisible by four (`GeometryLoading.TriangleTestOnTriangles`).

**Loaders.** The loaders appear in the model only through what they compute:
- An OBJ file arrives as a sequence of `ObjLine`s. `v`, `vn` and `vt` lines carry their already-parsed numbers; `f` lines carry their words.
- A PLY face section arrives as its text lines.
- The `Mesh` class of `include/mesh.h` is a near-verbatim copy of `OBJVertex`, `addVertex`, `isQuads` and `isTriangles` in `include/geometry.h`. One model serves both; rows below cite whichever file a member was checked against.

## Model

| member | source | states |
|---|---|---|
| GridIndexing.Ceil | src/spatialGrid.cpp:25-27 | `ceil(e)` is the integer c with c − 1 < e ≤ c |
| GridIndexing.AxisResolution | src/spatialGrid.cpp:25-27 | 2^(ceil(e)+2) cells per axis: at least 4, and more than 4·e |
| SpatialGrids.ResolutionOf | src/spatialGrid.cpp:25-28 | the resolution `Volume` has every axis ≥ 4 and greater than four times the domain's extent |
| SpatialGrids.SpatialGrid.constructor | src/spatialGrid.cpp:12-15 | `SpatialGrid(domain)` leaves the same state as `initialize(domain)` |
| SpatialGrids.SpatialGrid.Initialize | src/spatialGrid.cpp:22-42 | the domain is stored and the resolution derived from it; the old cells are gone; there are exactly W·H·D cells; cell i has id i, is empty, and sits at `CellPosition(i)`, the coordinates whose `y·W·D + z·W + x` is i |
| SpatialGrids.CreateRow | src/spatialGrid.cpp:35-39 | the innermost loop appends W cells and keeps the numbering invariant |
| SpatialGrids.CreateStep | src/spatialGrid.cpp:37-38 | pushing the cell for (x, y, z) with id `y·W·D + z·W + x` keeps cell i numbered i and moves to the id of (x+1, y, z) |
| SpatialGrids.CreatedAll | src/spatialGrid.cpp:30-41 | once the loops finish, the grid has W·H·D cells and cell i is `NewCell(CellPosition(i), i)` |
| SpatialGrids.SpatialGrid.Size | include/spatialGrid.h:144 | `getSize` is the number of cells, which is W·H·D |
| SpatialGrids.SpatialGrid.InsertPoint | src/spatialGrid.cpp:44-49 | exactly one `Point(id, position)` is appended to the points of cell `getCellIndex(position)`; no other cell, list or field changes; no deduplication |
| SpatialGrids.CentroidInDomain | src/spatialGrid.cpp:53-59 | the centroid of a triangle with its corners in the domain lies in the domain |
| SpatialGrids.Centroid | src/spatialGrid.cpp:53-57 | the mean position: on each axis, three times it is the sum of the three corners |
| SpatialGrids.SpatialGrid.InsertPolygon | src/spatialGrid.cpp:51-63 | exactly one `GridPolygon(id, vertices)` is appended to the polygons of the cell of the centroid; nothing else changes |
| SpatialGrids.SpatialGrid.GetCell | src/spatialGrid.cpp:65-68 | `.at`: the cell with that id, at `CellPosition(index)`, or nothing past the end |
| GridIndexing.CellQuotient | src/spatialGrid.cpp:73-83 | pos / (extent / res) lies in [0, res] and equals res exactly at the upper edge |
| GridIndexing.TruncatedQuotient | src/spatialGrid.cpp:81-83 | the truncated quotient lies in [0, res], is res only at the upper edge, and otherwise names the cell interval holding pos |
| GridIndexing.AxisCell | src/spatialGrid.cpp:81-90 | the per-axis cell is always < res; below the upper edge it is the interval holding pos; at the upper edge it is res − 1 |
| SpatialGrids.SpatialGrid.CellCoordOf | src/spatialGrid.cpp:72-90 | the clamped per-axis cells of a position in the domain are inside the grid |
| SpatialGrids.SpatialGrid.CellIndexOf | src/spatialGrid.cpp:70-95 | `x + y·W·D + z·D` over those cells: an in-bounds index when D ≤ W, and the index of the cell at those coordinates when W = D |
| SpatialGrids.SpatialGrid.CellIndexAt | src/spatialGrid.cpp:97-103 | the same formula on given coordinates, with the same two guarantees for in-grid coordinates |
| SpatialGrids.CellIndexLands | src/spatialGrid.cpp:92 | in a numbered grid, `CellIndex` is non-negative, in bounds when D ≤ W, and lands on the cell at the coordinate when W = D |
| GridIndexing.CellIndex | src/spatialGrid.cpp:97-103 | the `getCellIndex` formula `x + y·W·D + z·D` is non-negative on non-negative coordinates |
| GridIndexing.LinearId | src/spatialGrid.cpp:37 | for x in [0, W) and z in [0, D), the id `y·W·D + z·W + x` lies in layer y's block [y·W·D, y·W·D + W·D) |
| GridIndexing.CellIndexAgreesIffSquare | src/spatialGrid.cpp:92 | `x + y·W·D + z·D` equals `y·W·D + z·W + x` on every in-grid coordinate iff W = D (for D ≥ 2) |
| GridIndexing.CellIndexBounds | src/spatialGrid.cpp:102 | when D ≤ W, `getCellIndex` of an in-grid coordinate is in [0, W·H·D) |
| GridIndexing.CellIndexInBoundsIffNotDeeper | src/spatialGrid.cpp:92 | `getCellIndex` is in bounds for every in-grid coordinate iff D ≤ W |
| GridIndexing.LinearIdBounds | src/spatialGrid.cpp:37 | the id of an in-grid coordinate lies in [0, W·H·D) |
| GridIndexing.LinearIdInjective | src/spatialGrid.cpp:37 | no two in-grid coordinates share an id |
| GridIndexing.LinearIdOrdered | src/spatialGrid.cpp:31-37 | coordinates earlier in (y, z, x) loop order have smaller ids |
| GridIndexing.CellId | src/spatialGrid.cpp:130-142 | −1 exactly when a coordinate is outside [0, res) on its axis, otherwise an id < W·H·D |
| GridIndexing.CellPosition | src/spatialGrid.cpp:105-116 | y = i / (W·D), then x and z from the remainder; x and z are in range, and the id of the result is i |
| GridIndexing.CellPositionOfId | src/spatialGrid.cpp:105-116 | `getCellPosition(getCellId(x, y, z)) = (x, y, z)` for in-grid coordinates |
| SpatialGrids.SpatialGrid.CellPositionOf | src/spatialGrid.cpp:105-116 | the coordinates of cell `index` are the ones stored in that cell, and are in the grid |
| SpatialGrids.CellAtLinearId | src/spatialGrid.cpp:139 | in a grid built by `initialize`, the cell with the id of a coordinate sits at that coordinate |
| SpatialGrids.SpatialGrid.CellIdAt | src/spatialGrid.cpp:130-142 | −1 iff outside the grid; otherwise the id of the cell at those coordinates |
| SpatialGrids.SpatialGrid.GetPointIndex | src/spatialGrid.cpp:118-128 | the smallest i whose point equals the position exactly, −1 if none, or nothing for a cell past the end |
| SpatialGrids.ScanOffsetRange | src/spatialGrid.cpp:150-154 | the 27 offsets are visited at positions 0..26 |
| SpatialGrids.ScanOffsetOrder | src/spatialGrid.cpp:150-154 | the offset loops visit neighbours in (y, z, x) order, each once |
| SpatialGrids.CollectStep | src/spatialGrid.cpp:156-161 | one visit keeps the list complete, increasing and exactly the non-empty existing neighbours seen so far |
| SpatialGrids.SpatialGrid.ScanRow | src/spatialGrid.cpp:154-163 | the x-offset loop extends the list over one row of three neighbours |
| SpatialGrids.CollectDone | src/spatialGrid.cpp:150-167 | after all 27 visits the list has at most 27 ids, is strictly increasing, and is exactly the non-empty neighbours |
| SpatialGrids.SpatialGrid.GetNeighborCells | src/spatialGrid.cpp:144-168 | at most 27 strictly increasing ids; j is listed iff cell j is within one step of the cell on every axis and has points; the cell itself is listed iff it has points; nothing past the end |
| GridTypes.Volume.SetWidth | include/spatialGrid.h:43 | only the width changes |
| GridTypes.Volume.SetHeight | include/spatialGrid.h:44 | only the height changes |
| GridTypes.Volume.SetDepth | include/spatialGrid.h:45 | only the depth changes |
| GridTypes.Volume.Dimension | include/spatialGrid.h:41 | `getDimension` = width·height·depth is zero iff some side is zero, and positive when every side is |
| GridTypes.MakeDimension | include/spatialGrid.h:19-23 | min and max are stored; length = \|min\| + \|max\|, which is ≥ 0 and ≥ max − min |
| GridTypes.Point.Equals | include/spatialGrid.h:63-69 | true iff all three coordinates are exactly equal |
| GridTypes.NewCell | include/spatialGrid.h:108-112 | a cell records its coordinates and id and starts with no points and no polygons |
| GridTypes.GridCell.IsEmpty | include/spatialGrid.h:120 | true iff the cell holds no point |
| GridTypes.EmptinessIgnoresPolygons | include/spatialGrid.h:120 | `isEmpty` holds iff the point list is empty, whatever the polygon list holds |
| Vectors.CrossOrthogonal | src/geometry.cpp:418-421 | the normal `(v1−v0)×(v2−v0)` is orthogonal to both edges |
| Vectors.DotSelfNonNegative | src/geometry.cpp:424 | `n·n` ≥ 0 |
| GeometryTools.Normal | src/geometry.cpp:418-421 | n = (v1 − v0)×(v2 − v0) is orthogonal to both edges leaving v0 |
| GeometryTools.Distance | src/geometry.cpp:423-427 | d solves the plane equation n·(p − v0) + d·(n·n) = 0 |
| GeometryTools.DistanceSign | src/geometry.cpp:423-425 | d = 0 iff the point lies on the plane; d > 0 iff it lies on the side opposite to n |
| GeometryTools.VerticesOnPlane | src/geometry.cpp:417-425 | each vertex of the triangle gets distance 0 |
| GeometryTools.Foot | src/geometry.cpp:429-436 | `p + d·n` lies on the triangle's plane |
| GeometryTools.FootUnique | src/geometry.cpp:423-436 | d is the only step along n that reaches the plane |
| GeometryTools.SwapLastTwoNegates | src/geometry.cpp:418-425 | swapping v1 and v2 negates d |
| GeometryTools.SwapFirstTwoNegates | src/geometry.cpp:417-425 | swapping v0 and v1 also negates d |
| GeometryTools.WorkedExample | src/geometry.cpp:417-425 | triangle (0,0,0), (1,0,0), (0,1,0) and p = (0,0,5): n = (0,0,1), d = −5 and `p + d·n` = origin |
| ObjVertices.Split | include/geometry.h:29 | `split("/")` yields at least one part and no part contains the separator |
| ObjVertices.SplitJoin | include/geometry.h:29 | splitting the join of separator-free parts gives the parts back |
| ObjVertices.JoinSplit | include/geometry.h:29 | joining the parts of a split gives the string back |
| ObjVertices.ToInt | include/geometry.h:32 | `toInt` always yields a 32-bit `int` |
| ObjVertices.DecimalToInt | include/geometry.h:32 | `toInt` reads back the decimal spelling of any non-negative `int` |
| ObjVertices.Wrap | include/geometry.h:32 | `(uint32_t)` lands in [0, 2^32) and is congruent to its argument |
| ObjVertices.Field | include/geometry.h:32 | `(uint) toInt − 1` is a `uint32_t` value; `FieldValues` states which |
| ObjVertices.OptionalField | include/geometry.h:36-41 | a field read only from a non-empty token is a `uint32_t` value; `FieldValues` states which |
| ObjVertices.FieldValues | include/geometry.h:27-41 | a token reading as a positive index a gives a − 1; a token reading as 0 (no number, or "0") gives `0xFFFFFFFF`; an empty optional token gives `0xFFFFFFFF` |
| ObjVertices.FieldOfDecimal | include/geometry.h:32 | the field read from the decimal spelling of a 1-based index a is a − 1, and that spelling contains no `/` |
| ObjVertices.ParseVertex | include/geometry.h:27-44 | p is read from token 0; n and uv stay at `0xFFFFFFFF` unless there are exactly three tokens; every field is a `uint32_t` |
| ObjVertices.ParseThreeTokens | include/geometry.h:34-41 | with three tokens, uv comes from the second and n from the third, each only when its token is non-empty |
| ObjVertices.ParseTwoTokens | include/geometry.h:34 | two tokens leave uv and n at the sentinel |
| ObjVertices.ParseIndexOnly | include/geometry.h:27-32 | `"a"` gives p = a − 1 and the sentinel in uv and n |
| ObjVertices.ParseEmpty | include/geometry.h:28-32 | an empty token gives the sentinel in all three fields |
| ObjVertices.ParseZeroWraps | include/geometry.h:32 | `"0"` wraps round to p = `0xFFFFFFFF` |
| ObjVertices.ParseFull | include/geometry.h:34-41 | `"a/b/c"` gives p = a − 1, uv = b − 1, n = c − 1 |
| ObjVertices.ParseWithoutTexture | include/mesh.h:26-33 | `"a//c"` gives n = c − 1 and leaves uv at the sentinel |
| ObjVertices.ParsePair | include/mesh.h:19-26 | `"a/b"` gives p = a − 1 and leaves uv and n at the sentinel |
| ObjVertices.SameVertex | include/geometry.h:46-48 | `operator==` holds iff p, n and uv are all equal (hence reflexive and symmetric) |
| GeometryLoading.CornerEntry | include/geometry.h:79-80 | `IndicePolygon(v.p, v.uv, v.n)` stores its three arguments unchanged |
| GeometryLoading.Geometry.constructor | src/geometry.cpp:15-25 | a new geometry has every list empty; the model also starts both counts at 0, which the source leaves uninitialised |
| GeometryLoading.Geometry.AddVertex | include/geometry.h:114-120 | one element is appended to each of positions, normals, texture coordinates and vertices; equal-length lists stay equal-length; nothing else changes |
| GeometryLoading.Geometry.IsQuads | include/geometry.h:143 | true iff the index count is divisible by 3 |
| GeometryLoading.Geometry.IsTriangles | include/mesh.h:134 | true iff the index count is divisible by 4 |
| GeometryLoading.TriangleTestOnTriangles | include/geometry.h:144 | on a list of whole triangles, `isTriangles` holds iff the triangle count is divisible by 4 |
| GeometryLoading.FaceCorners | src/geometry.cpp:294-310 | a face yields 3 corners, or 6 when a fourth word is present; the first three are the parsed words v1, v2, v3 |
| GeometryLoading.QuadSplit | src/geometry.cpp:304-310 | a quad's corners 4–6 are v4, v1, v3, and all four words are used |
| GeometryLoading.Entries | src/geometry.cpp:312-322 | one entry per corner, in corner order |
| GeometryLoading.PushCorners | src/geometry.cpp:312-322 | the corner loop appends `Entries(tri)` whether a corner is new or not; the vertex map and list stay in agreement and gain every corner |
| GeometryLoading.AddFace | src/geometry.cpp:293-323 | a face line appends the entries of its 3 or 6 corners; every corner is in the vertex map, and the vertex list never holds the same vertex twice |
| GeometryLoading.IndexedAppend | src/geometry.cpp:315-318 | recording a new vertex at the end of the list keeps map and list in agreement |
| GeometryLoading.IndexedIsDistinct | src/geometry.cpp:314-318 | the vertex list holds no duplicate |
| GeometryLoading.ReadLine | src/geometry.cpp:280-323 | a `v`/`vn`/`vt` line appends to its list, a face line appends its corner entries, any other line changes nothing |
| GeometryLoading.ReadStep | src/geometry.cpp:278-324 | reading line i extends what was collected from the earlier lines by that line's contribution |
| GeometryLoading.Geometry.ReadLines | src/geometry.cpp:278-324 | the line loop leaves positions, normals and texture coordinates in file order, and appends all corner entries of the file; the streams, vertices and both counts are untouched |
| GeometryLoading.LineEntriesAreTriangles | src/geometry.cpp:296-310 | every line contributes a multiple of three entries |
| GeometryLoading.ObjEntries | src/geometry.cpp:293-326 | a whole file yields a multiple of three corner entries |
| GeometryLoading.Flatten | src/geometry.cpp:332-340 | each flat stream has one entry per corner (uv and normal streams only when their source is non-empty), and reading a stream through index i gives back corner i's attribute |
| GeometryLoading.Geometry.Deindex | src/geometry.cpp:332-340 | succeeds iff every corner's indices are in range; then index i and the corner's position, uv and normal are appended for each corner, in order |
| GeometryLoading.Geometry.LoadWavefront | src/geometry.cpp:278-344 | the corner entries are the file's; triangleCount = entries / 3; vertexCount = the number of positions; de-indexing succeeds iff every corner is in range; a fresh geometry then satisfies `isQuads` with 3·triangleCount indices |
| GeometryLoading.PlyCorner | src/geometry.cpp:228 | one index is used for vertex, uv and normal alike |
| GeometryLoading.PlyFace | src/geometry.cpp:224-228 | a face line is kept only when its leading count is 3, as three corners from words 1–3; other counts add nothing; nothing when a count-3 line has fewer than four words, where `QList::at` past the end fails an assertion or is undefined behaviour |
| GeometryLoading.PlyEntries | src/geometry.cpp:219-231 | the face section yields a multiple of three entries when it succeeds |
| GeometryLoading.PlyEntriesFail | src/geometry.cpp:225-228 | one short count-3 line makes the whole face section fail |
| GeometryLoading.Geometry.AddPlyFaces | src/geometry.cpp:219-231 | succeeds iff no face line is too short, and then appends exactly the kept corner entries; the streams, vertices and both counts are untouched |
| ScenePlayers.ScenePlayer.constructor | include/scenePlayer.h:7-8 | a new player is not playing and is at frame 1 with the given frame count |
| ScenePlayers.ScenePlayer.Default | include/scenePlayer.h:7-8 | the default frame count is −1 |
| ScenePlayers.ScenePlayer.PlayPause | include/scenePlayer.h:11 | toggles play and nothing else |
| ScenePlayers.ScenePlayer.IsPaused | include/scenePlayer.h:12 | true iff not playing |
| ScenePlayers.PlayPauseTwice | include/scenePlayer.h:11-12 | two presses restore play and `isPaused`, and leave the current frame and the frame count as they were |
| ScenePlayers.Step | include/scenePlayer.h:14-24 | the current frame is returned and incremented, unless it exceeds frameCount; then 1 is returned and the counter restarts at 1 |
| ScenePlayers.ScenePlayer.GetNextFrame | include/scenePlayer.h:14-24 | one `Step`; play and the frame count are untouched; the range [1, frameCount+1] is kept; with frameCount ≥ 1 the frame returned is in [1, frameCount] |
| ScenePlayers.StepInRange | include/scenePlayer.h:16-21 | from [1, frameCount+1] a step returns a frame in [1, frameCount] and stays in [1, frameCount+1] |
| ScenePlayers.FramesInRange | include/scenePlayer.h:14-24 | with frameCount ≥ 1, every frame of any run from a fresh player is in [1, frameCount] |
| ScenePlayers.NoFramesAlwaysOne | include/scenePlayer.h:14-24 | with frameCount ≤ 0 (the default −1 included), every call returns 1 |
| ScenePlayers.CycleFrom | include/scenePlayer.h:16-21 | from frame f the run is f, …, frameCount, 1, leaving the counter at 1 |
| ScenePlayers.Cycle | include/scenePlayer.h:16-21 | a fresh player plays 1, …, frameCount, 1 and is back at 1; frame 1 comes twice in a row across the wrap |
| ScenePlayers.FramesSplit | include/scenePlayer.h:14-24 | a run of j + k calls is a run of j calls followed by a run of k calls |
| ScenePlayers.ThreeFrames | include/scenePlayer.h:16-21 | for frameCount = 3 the frames are 1, 2, 3, 1, 1, 2, 3, 1 |

## Left out

- UI, windowing, OpenGL buffers and drawing, shaders, textures and lights are not modelled; they are plumbing around the core.
- File reading is not modelled: opening files, `QTextStream`/`ifstream` line reading, console output, and `toFloat`/`>>` parsing of numbers. An OBJ file arrives as parsed `ObjLine`s and a PLY face section as text lines.
- The PLY header and vertex section (`element`/`property` lines, `toFloat` of coordinates) and `loadInputPoints` are file parsing of floats and are not modelled.
- IEEE floating-point rounding is not modelled; coordinates are reals. In particular, this affects the float quotient and `floor` in `getCellPosition` and the upper-edge clamp in `getCellIndex`.
- SpatialGrids.ResolutionOf: the resolution is an unbounded power of two, 2^(ceil(e)+2) cells per axis. The 32-bit `uint` arithmetic of the source is not modelled. `static_cast<uint>` of one axis overflows once its ceil(e) ≥ 30. The limits that bite first are on the ids and indices below.
- SpatialGrids.SpatialGrid.Initialize: the id `y·(W·D) + z·W + x` is computed in `float` (src/spatialGrid.cpp:37). It is exact only while W·H·D ≤ 2^24, that is while the three ceilings of the domain's sides sum to at most 18. For a 7×7×7 domain, cell 16777217 gets id 16777216. Once the ceilings sum to 27 or more (a 9×9×9 domain), ids pass 2^32 and no longer fit the `uint`. The model's ids are exact, so its promise that cell i has id i holds for the source only below these bounds.
- SpatialGrids.SpatialGrid.Initialize: requires a domain with no negative side. `initialize` is only meaningful for a domain whose min corner is at the origin, so that its sides are non-negative extents. For a negative side the source still computes `pow(2, ceil(e)+2)`, which gives 4 or 2 cells for a side in (−2, 0), 1 for a side in (−3, −2], and 0 below that. The model does not cover those cases. The same holds for the `SpatialGrid(domain)` constructor.
- SpatialGrids.SpatialGrid.CellIdAt: the same `float` expression (src/spatialGrid.cpp:139) is exact only while W·H·D ≤ 2^24, and its conversion to `int` is undefined past 2^31 − 1. The model's id is exact, so the promise holds for the source only below those bounds.
- SpatialGrids.SpatialGrid.CellIndexOf: `gridWidth*gridDepth` is a 32-bit `uint` product that wraps once ceil(width) + ceil(depth) ≥ 28, and the whole index wraps modulo 2^32. The model does not wrap. The same holds for `CellIndexAt`.
- SpatialGrids.SpatialGrid.CellIdAt: takes signed coordinates. The out-of-range result for `c.x - 1 < 0` stands for what the unsigned conversion does in the source, where the `x < 0` tests are vacuous.
- SpatialGrids.SpatialGrid.InsertPoint: requires an in-bounds `getCellIndex`, because `_grid[cellIndex]` is unchecked and an out-of-bounds index is undefined behaviour. The same holds for `InsertPolygon`.
- The default constructors `SpatialGrid()`, `Dimension()`, `Volume()`, `Point()`, `GridPolygon()`, `GridCell()` and `OBJVertex()` leave fields uninitialised and are not modelled.
- `OBJVertexHash` is not modelled: it relies on `boost::hash_combine`. The vertex map is a Dafny `map`, and its contents never affect the entries pushed.
- `GeometryTools::getNormal`, `getProjection`, `getDisplacement` and `Geometry::setDisplacement` are declared but not defined in the source files of this model, so they are not modelled. `getDistance` is modelled on three vertices.
- GeometryLoading.Geometry.constructor: `Geometry()` (src/geometry.cpp:15-25) leaves `_triangleCount` and `_vertexCount` uninitialised. The model starts both at 0; that part of the contract is a choice of the model, not a promise of the source.
- GeometryLoading.PlyFace: the source has no error path for a count-3 line with fewer than four words. `values.at(c+1)` is `QList::at`, which past the end fails an assertion in a debug build and is undefined behaviour otherwise. The model's clean failure (`None`) stands in for that. The same holds for `GeometryLoading.Geometry.AddPlyFaces`, whose `false` result stands for the same undefined behaviour.
- GeometryLoading.Geometry.Deindex: on `std::out_of_range`, the index, position, texture and normal lists may already hold the entries of the earlier corners. The contract gives the result flag and what stays untouched, but not that partial state.
- GeometryLoading.Geometry.AddPlyFaces: when a count-3 line is too short, the corner entries of the earlier lines have already been appended. The contract gives the result flag, but not the entry list after a failure.
- GeometryLoading.Geometry.LoadWavefront: when de-indexing fails, the index, position, texture and normal lists are left partly extended, as for `Deindex`. The contract does not describe them then.
- ScenePlayers.ScenePlayer.GetNextFrame: the 32-bit `int` overflow of `_currentFrame++` is not modelled.
- src/mesh.cpp's own copies of the quad-split and de-indexing loops are not modelled separately; they are the loops modelled from src/geometry.cpp.
- `Geometry(Geometry*)`, `setMVP`, `setPosition`, the transform setters and the tessellation-level setters are not modelled; they are rendering state.
