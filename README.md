# venture core, modelled in Dafny

venture is a build tool and level editor for Odin games. This project models its core and
proves properties of the model:

- **BSP collision trees** (`bsp/bsp.go`). The builder turns a level's collision polygons into a
  flat array of nodes. A node is either a leaf (solid or empty) or a split line with the indices
  of its children. The array supports a point-in-solid query and a line trace.
- **Convex partitioning** (`bsp/cgal/partition.cpp`). This is the C entry point that checks a
  polygon and splits it into convex pieces. It allocates the result with `malloc` and frees it
  later.
- **The level editor** (`level/editor*.go`). Tile painting, editing of collision polygons, pan and
  zoom, the close dialog, and the collision-test tool, which builds a BSP from the current
  polygons.
- **The build command** (`cmd/build.go`). It converts every level YAML file into its
  protobuf/BSP form.
- **The supporting packages**:
  - the import linter;
  - protobuf regeneration;
  - the Windows SDL DLL cache;
  - Steamworks library fetching;
  - compiling the clay C glue;
  - platform detection;
  - the Odin compiler invocation;
  - finding the project root and loading its config;
  - the packager's directory-walk rules.

Each source file is modelled in its own module:

- `BspGeometry`
- `BspTree`
- `BspBuild`
- `BspBuilder`
- `CgalPartition`
- `LevelTypes`
- `LevelEdits`
- `LevelEditor`
- `BuildLevels`
- `Linter`
- `Protobuf`
- `LibrariesWindows`
- `Steamworks`
- `Clay`
- `Platform`
- `Odin`
- `Project`
- `Packager`

`Wrappers` (Option/Result) and `Strs` (prefix, suffix and path helpers) are shared.

The model follows the source's form:

- **Pure computations are functions.** Geometry, the tree walk and the per-entry rules are
  pure, and `BspBuild` states the builder as functions over the node sequence.
- **Objects that update fields are classes.** These are `BspBuilder.BSPBuilder`,
  `LevelEditor.Editor` and `LevelTypes.Level`, plus the C result structure and a `malloc` heap in
  `CgalPartition`. Each method is proved against the functional specification: for example,
  `BSPBuilder.Build` leaves exactly `BspBuild.BuildLevel`'s node array.
- **Loops are `while` loops** with invariants.
- **I/O becomes parameters.** File systems, subprocesses, hashing, downloads and the CGAL
  algorithms are passed in as values or functions: directory listings, `Result`s, and
  oracles for a command's or a call's outcome.

Floating-point values (float32/float64 in the source) are modelled as `real`. Integer widths
are unbounded.

One place where the editor source does not match the BSP package it calls:

- The editor code is written against an older nested-node API. It calls `PointInBSP` with two
  arguments and walks `Front`/`Back` child links in `lineTraceBSPNode` (`level/editor.go:247-338`).
- But its `collisionTestBSP` is assigned the flat `*pb.LevelData` that `BSPBuilder.Build`
  returns.
- The model resolves this by routing the editor through the flat tree. It uses
  `BspTree.PointInBSP` and the corrected `BspTree.LineTrace` on the built `LevelData`.

## Model

| member | source | states |
|---|---|---|
| BspGeometry.ClassifyPoint | bsp/bsp.go:52-61 | 1 exactly when the point is more than epsilon in front of the line, -1 exactly when more than epsilon behind, 0 within epsilon |
| BspGeometry.SignedArea | bsp/bsp.go:200-213 | the loop's shoelace sum (halved) equals the polygon's signed area |
| BspGeometry.AreaOfReverse | bsp/bsp.go:200-233 | reversing the vertex order negates the signed area |
| BspGeometry.ShoelaceClosed | bsp/bsp.go:200-213 | the closing-edge form of the shoelace sum agrees with the cyclic one |
| BspGeometry.Reverse | bsp/bsp.go:229-233 | the result has the same length, and position i holds vertex n-1-i |
| BspGeometry.IsCCW | bsp/bsp.go:216-218 | true exactly when the signed area is positive |
| BspGeometry.EnsureCCW | bsp/bsp.go:223-239 | the result is the counter-clockwise form of the polygon |
| BspGeometry.CCWProperties | bsp/bsp.go:223-239 | the CCW form has the same vertex count and solidity, an area of the same magnitude, and a nonnegative area |
| BspGeometry.EdgeSideIsCross | bsp/bsp.go:243-285 | the side test against an edge's line is the negated cross product of the edge and the point, so a point is on the back side exactly when it is left of or on the edge |
| BspGeometry.SelectSplitLine | bsp/bsp.go:357-378 | with a first polygon of two or more vertices, the line passes through its first two vertices and its side test is that edge's cross product; otherwise it is the default line with normal (0, 1) through the origin |
| BspGeometry.ClassifyPolygon | bsp/bsp.go:326-352 | the loop's front/back counts and verdict equal the specification's classification |
| BspGeometry.ClassificationMeaning | bsp/bsp.go:326-352 | Spanning exactly when some vertex is more than epsilon in front and some more than epsilon behind; Front exactly when only the first holds; Back exactly when only the second; Coplanar exactly when neither |
| BspGeometry.FrontCountPositive | bsp/bsp.go:326-352 | a positive front count means some vertex is in front of the line |
| BspGeometry.BackCountPositive | bsp/bsp.go:326-352 | a positive back count means some vertex is behind the line |
| BspGeometry.ClassifySingleVertex | bsp/bsp.go:326-352 | a one-vertex polygon is classified by that vertex's side |
| BspGeometry.SplitPolygon | bsp/bsp.go:382-431 | the loop's two vertex lists equal the specification's front and back parts |
| BspGeometry.SplitProperties | bsp/bsp.go:382-431 | fewer than 3 vertices give no split; each side produced has at least 3 vertices, keeps solidity and lies on its side of the line (within epsilon); an input vertex is in the front list exactly when it is not more than epsilon behind, and in the back list exactly when not more than epsilon in front |
| BspGeometry.FrontVertsSide | bsp/bsp.go:382-431 | every vertex of the front list is no more than epsilon behind the line |
| BspGeometry.BackVertsSide | bsp/bsp.go:382-431 | every vertex of the back list is no more than epsilon in front of the line |
| BspGeometry.VertsGrow | bsp/bsp.go:382-431 | every input vertex already visited that is not more than epsilon behind the line is in the front list, and every one not more than epsilon in front is in the back list |
| BspGeometry.IntersectionOnLine | bsp/bsp.go:382-431 | the intersection computed for a spanning edge lies on the split line |
| BspTree.PointInBSP | bsp/bsp.go:434-470 | a solid answer comes from a solid leaf stored at or before the starting node, where every walk ends |
| BspTree.PointInBSPCases | bsp/bsp.go:434-470 | an out-of-range or missing node is empty; a leaf answers its solidity; a split defers to front when the point is strictly in front, else to back |
| BspTree.PointInBSPPrefix | bsp/bsp.go:434-470 | appending nodes to the array never changes the answer of a node already stored |
| BspTree.LineTraceCases | bsp/bsp.go:475-556 | the walk: leaves hit at the range start when solid; a split with both ends in front or both behind goes to one child; otherwise the near child is traced to the crossing, then the far child from it |
| BspTree.LineTrace | bsp/bsp.go:475-556 | a miss is the canonical NoHit |
| BspTree.LineTraceHitOnSegment | bsp/bsp.go:475-556 | every reported hit is the segment's point at some parameter within the traced range |
| BspTree.PointSideAlongSegment | bsp/bsp.go:45-49 | a point's side of a line is affine along a segment, so the crossing parameter -d0/(d1-d0) between sides d0 and d1 lands on the line |
| BspTree.LineTraceBSPNode | bsp/bsp.go:475-556 | the trace as written: a miss is the canonical no-hit, and a hit comes from a solid leaf stored at or before the starting node |
| BspTree.LineTraceBSPNodeCrossing | bsp/bsp.go:528-543 | the trace as written, with the unclamped crossing parameter -d0/(d1-d0) |
| BspTree.LineTraceBeyondSegment | bsp/bsp.go:528-552 | as written, the trace from (0.0002,0) to (0.00005,0) reports a hit at (0,0), a point the segment never reaches |
| BspBuild.AddLeaf | bsp/bsp.go:561-574 | the leaf is appended and its index is the old length; the build invariant is kept |
| BspBuild.AddSplit | bsp/bsp.go:577-592 | the split is appended and its index is the old length; with children already stored, the invariant is kept |
| BspBuild.EdgeTest | bsp/bsp.go:243-285 | the edge chain extends the array with 2(n-k)+1 nodes, returns the last one, and keeps the invariant |
| BspBuild.EdgeTestChildrenBefore | bsp/bsp.go:243-285 | every new split points only at new nodes stored before it |
| BspBuild.EdgeTestSolid | bsp/bsp.go:243-285 | the chain's root is solid exactly at points on the back side of every remaining edge |
| BspBuild.ConvexPolygonTree | bsp/bsp.go:185-196 | the polygon's tree extends the array, is rooted at its last node and keeps the invariant |
| BspBuild.ConvexTreeSolid | bsp/bsp.go:185-196 | the tree is solid exactly inside every edge of the CCW polygon; a polygon under 3 vertices gives one empty leaf |
| BspBuild.SplitTree | bsp/bsp.go:168-181 | both halves are the tree itself, as the source's placeholder split returns |
| BspBuild.MergePair | bsp/bsp.go:135-164 | merging two trees extends the array, keeps the invariant and returns a valid root |
| BspBuild.MergePairSolid | bsp/bsp.go:135-181 | the merged tree is solid exactly where either input tree is (union) |
| BspBuild.MergeTrees | bsp/bsp.go:117-132 | merging a list of trees extends the array, keeps the invariant and returns a valid root |
| BspBuild.MergeTreesSolid | bsp/bsp.go:117-164 | the merged tree is solid exactly where some listed tree is |
| BspBuild.SolidPieces | bsp/bsp.go:92-97 | only solid pieces with at least 3 vertices get a tree |
| BspBuild.Trees | bsp/bsp.go:89-97 | one tree per such piece, all valid indices into an extended, well-formed array |
| BspBuild.TreesSolid | bsp/bsp.go:89-97 | tree j is solid exactly inside solid piece j |
| BspBuild.RootSolid | bsp/bsp.go:99-107 | the chosen root is solid exactly where some solid piece is |
| BspBuild.Root | bsp/bsp.go:99-107 | the root is a valid index into a well-formed extension of the forest's nodes |
| BspBuild.BuildLevel | bsp/bsp.go:78-113 | the built level is a well-formed extension with a valid root |
| BspBuild.BuildSolid | bsp/bsp.go:78-113 | the built tree answers "solid" exactly for points inside some convex piece of some solid polygon |
| BspBuild.TreesNoSolid | bsp/bsp.go:99-103 | with no solid piece the forest is empty |
| BspBuild.TreesOneSolid | bsp/bsp.go:99-103 | with one solid piece the forest is that piece's tree |
| BspBuild.BuildFewPieces | bsp/bsp.go:99-103 | no solid piece gives a single empty leaf as root; one piece gives that piece's tree as root |
| BspBuilder.BSPBuilder.constructor | bsp/bsp.go:70-75 | a builder holds the given polygons and no nodes |
| BspBuilder.BSPBuilder.AddLeafNode | bsp/bsp.go:561-574 | the leaf is appended and its index returned |
| BspBuilder.BSPBuilder.AddSplitNode | bsp/bsp.go:577-592 | the split is appended and its index returned |
| BspBuilder.BSPBuilder.SplitTree | bsp/bsp.go:168-181 | agrees with BspBuild.SplitTree and leaves the nodes alone |
| BspBuilder.BSPBuilder.BuildEdgeTest | bsp/bsp.go:243-285 | the node array and index are those of BspBuild.EdgeTest |
| BspBuilder.BSPBuilder.BuildConvexPolygonTree | bsp/bsp.go:185-196 | the node array and index are those of BspBuild.ConvexPolygonTree |
| BspBuilder.BSPBuilder.MergeTreePair | bsp/bsp.go:135-164 | the node array and index are those of BspBuild.MergePair |
| BspBuilder.BSPBuilder.MergeTrees | bsp/bsp.go:117-132 | the node array and index are those of BspBuild.MergeTrees |
| BspBuilder.BSPBuilder.Build | bsp/bsp.go:78-113 | the returned level is BspBuild.BuildLevel of the builder's polygons, so BuildSolid applies to it |
| CgalPartition.Heap.Malloc | bsp/cgal/partition.cpp:58-60 | each call either fails with NULL and allocates nothing, or returns a fresh block of the requested size that becomes live |
| CgalPartition.Heap.Free | bsp/cgal/partition.cpp:141-162 | the block stops being live |
| CgalPartition.AllocError | bsp/cgal/partition.cpp:18-24 | the error string is a fresh NUL-terminated copy of the message, or NULL when allocation fails |
| CgalPartition.Fail | bsp/cgal/partition.cpp:29-35 | a fresh result that reports the message and owns exactly what was allocated |
| CgalPartition.FailOutOfMemory | bsp/cgal/partition.cpp:58-60 | the result reports out-of-memory and owns exactly what was allocated |
| CgalPartition.OrientedNotClockwise | bsp/cgal/partition.cpp:51-53 | after the orientation step the polygon is not clockwise and has the same length |
| CgalPartition.ExpectedProperties | bsp/cgal/partition.cpp:28-139 | NULL or fewer than 3 points give invalid input; a non-simple polygon is rejected before orientation; a convex polygon comes back as the input points; an empty partition is an error; success has at least one piece |
| CgalPartition.PartitionPolygonConvex | bsp/cgal/partition.cpp:28-139 | the result owns exactly the new allocations, can be freed, and reports the specified error or pieces (else out-of-memory); with no allocation failure it is exactly the specified answer |
| CgalPartition.ConvexResult | bsp/cgal/partition.cpp:56-79 | a convex input is returned as one piece holding the first count points, or as out-of-memory |
| CgalPartition.CopyPoints | bsp/cgal/partition.cpp:74-76 | the block holds the points in order |
| CgalPartition.PackPiece | bsp/cgal/partition.cpp:104-125 | one piece record: count set, and points a fresh copy, or NULL when the allocation fails; earlier records are untouched |
| CgalPartition.FillRecords | bsp/cgal/partition.cpp:102-128 | it succeeds exactly when no allocation fails: then every record holds its piece in a distinct fresh block; otherwise every block, and the array itself, is freed |
| CgalPartition.ReleasePacked | bsp/cgal/partition.cpp:109-115 | the array and the blocks of the records filled so far are freed, and nothing else |
| CgalPartition.PackPieces | bsp/cgal/partition.cpp:93-130 | the result holds the pieces or reports out-of-memory, owning exactly what was allocated |
| CgalPartition.FreePartitionResult | bsp/cgal/partition.cpp:141-162 | everything the result owns is freed, its fields are reset, and a NULL result is a no-op |
| CgalPartition.CPartitionResult.constructor | bsp/cgal/partition.cpp:29 | a zero-initialised result |
| LevelTypes.Level.constructor | level/types.go:11-27 | a level holds the given tiles and collision polygons |
| LevelEditor.Editor.constructor | level/editor.go:98-155 | the editor starts with the defaults: ground tool, zoom 1, no selection, not dirty, no collision BSP (marked dirty) |
| LevelEditor.Editor.HasUnsavedChanges | level/editor.go:164-166 | true exactly when the dirty flag is set; Save clears it only on success and every edit sets it |
| LevelEditor.Editor.ShouldClose | level/editor.go:196-198 | true exactly when the close flag is set; only the close dialog's save and discard buttons set it, and RequestClose reports it while the dialog is showing |
| LevelEditor.Editor.CurrentToolNeedsAssetView | level/editor.go:200-203 | true exactly for the ground tool, and never together with the collision list |
| LevelEditor.Editor.CurrentToolNeedsCollisionList | level/editor.go:205-208 | true exactly for the collision tool |
| LevelEditor.Editor.Save | level/editor.go:169-175 | the write error is returned, and the dirty flag clears exactly when the write succeeded |
| LevelEditor.Editor.RequestClose | level/editor.go:179-193 | a clean editor closes; a dirty one opens the dialog and stays open until the dialog decides |
| LevelEditor.Editor.SelectTool | level/editor.go:201-208 | each tool index selects its tool and its side panel; the test tool clears the test points |
| LevelEditor.Editor.BuildCollisionBSP | level/editor.go:211-237 | the tree is built from the level's polygons with 3 or more points and is solid exactly inside their convex pieces; it is no longer dirty |
| LevelEditor.Editor.MarkCollisionBSPDirty | level/editor.go:240-242 | the tree is marked for rebuilding |
| LevelEditor.Editor.LineTraceBSP | level/editor.go:246-256 | no tree means no hit; a hit is the segment's point at some parameter in [0, 1] |
| LevelEditor.ClampZoom | level/editor_canvas.go:155-165 | the zoom is kept in [0.1, 10] and an in-range zoom is unchanged |
| LevelEditor.ZoomKeepsWorldPoint | level/editor_canvas.go:178-191 | zooming about the mouse keeps the world point under it |
| LevelEditor.Editor.ZoomTo | level/editor_canvas.go:178-191 | the new zoom is set and the world point under the mouse stays put on both axes |
| LevelEditor.Editor.Scroll | level/editor_canvas.go:150-193 | the zoom steps by 10% per wheel notch and is clamped, and the world point under the mouse stays put |
| LevelEditor.Editor.PressSecondary | level/editor_canvas.go:82-86 | panning starts at the press position |
| LevelEditor.Editor.Release | level/editor_canvas.go:120-130 | releasing the secondary button ends panning; releasing the primary ends a point move |
| LevelEditor.Editor.DragPan | level/editor_canvas.go:132-140 | while panning, the view offset moves by the mouse delta; otherwise nothing changes |
| LevelEditor.Editor.PlaceTileAtPosition | level/editor_canvas.go:198-245 | with a texture selected, the ground becomes PlaceTile and the level is dirty exactly if that changed something; with none, nothing changes |
| LevelEdits.FindTile | level/editor_canvas.go:219-244 | the first tile at the cell, or -1 exactly when no tile is there |
| LevelEdits.PlaceTileProperties | level/editor_canvas.go:219-244 | the cell's first tile now has the chosen texture; lookups of every other cell are unchanged and tiles elsewhere are kept; the list grows by one exactly when the cell was empty; unique positions stay unique; a placement that changes nothing leaves the ground as it was |
| LevelEditor.Editor.DeleteTileAtPosition | level/editor_canvas.go:248-274 | the ground becomes DeleteTile, and the level is dirty exactly if a tile was there |
| LevelEdits.DeleteTileProperties | level/editor_canvas.go:264-273 | a miss changes nothing; otherwise exactly the cell's first tile is removed (as a multiset, one tile fewer); with unique positions no tile is left at the cell |
| LevelEdits.SwapRemoveProperties | level/editor_canvas.go:264-273 | swap-remove drops exactly one occurrence, moves the last element into the gap and keeps the others in place |
| LevelEditor.Editor.AddCollisionPoint | level/editor_canvas.go:347-378 | with a polygon selected, the grid-snapped point is appended to its outline and the level and tree are dirty; otherwise nothing changes |
| LevelEdits.SnapToGridProperties | level/editor_canvas.go:381-383 | the snapped value is a whole multiple of the grid, within half a grid step of the input, and snapping it again changes nothing |
| LevelEdits.SnapAgain | level/editor_canvas.go:381-383 | snapping is idempotent |
| LevelEdits.SnapWithinHalf | level/editor_canvas.go:381-383 | snapping moves a value by at most half a grid step |
| LevelEdits.Round | level/editor_canvas.go:381-383 | rounds to the nearest integer, halves away from zero, as math.Round does |
| LevelEditor.Editor.StartMovingPoint | level/editor_canvas.go:386-426 | a hit point of the selected polygon becomes the moving point; otherwise nothing changes |
| LevelEditor.Editor.MovePoint | level/editor_canvas.go:429-456 | the moving point is replaced by the snapped position and the level and tree are dirty; nothing changes without a moving point |
| LevelEditor.Editor.DeleteCollisionPoint | level/editor_canvas.go:459-512 | the hit point is removed in order; a polygon left empty is removed and deselected; nothing changes without a hit |
| LevelEdits.RemoveAtProperties | level/editor_canvas.go:499-503 | removal keeps order: elements before the index stay, elements after shift down by one, and exactly that element is gone |
| LevelEditor.Editor.SelectPolygonAtPosition | level/editor_canvas.go:655-676 | the topmost polygon containing the point is selected; a miss keeps the selection |
| LevelEditor.Editor.FindTopmost | level/editor_canvas.go:668-675 | the search loop returns Topmost |
| LevelEdits.Topmost | level/editor_canvas.go:668-675 | the highest-index polygon with at least 3 points containing the point, or -1 exactly when there is none |
| LevelEditor.IsPointInPolygon | level/editor_canvas.go:679-699 | the ray-casting loop's result is the crossing-parity specification |
| LevelEdits.OutsideVerticalExtent | level/editor_canvas.go:679-699 | a point above or below every vertex has no crossings and is outside |
| LevelEditor.Editor.DeletePolygonAtPosition | level/editor_canvas.go:702-726 | the topmost polygon under the point is removed in order and the level is dirty; a miss changes nothing |
| LevelEditor.Editor.HandleCollisionTest | level/editor_canvas.go:729-780 | the tree is rebuilt if dirty; one result is appended with the point test and, from the second click on, the line trace from the previous click |
| LevelEditor.Editor.RefreshCollisionBSP | level/editor_canvas.go:740-743 | a dirty or missing tree is rebuilt from the current polygons; a clean one is kept |
| LevelEdits.SolidOutlines | level/editor.go:211-229 | only polygons with at least 3 points are passed to the builder, all solid |
| LevelEdits.SolidOutlinesMembers | level/editor.go:211-229 | an outline is passed exactly when it comes from a polygon with 3 or more points |
| LevelEdits.SolidOutlinesAll | level/editor.go:211-229 | when every polygon has 3 or more points, all are passed, in order |
| LevelEditor.Editor.KeyX | level/editor_ui.go:34-39 | the delete modifier follows the key |
| LevelEditor.Editor.KeyM | level/editor_ui.go:52-60 | the move modifier follows the key; releasing it ends a point move |
| LevelEditor.Editor.PressEscape | level/editor_ui.go:73-76 | the selection is cleared |
| LevelEditor.Editor.CloseDialogSave | level/editor_ui.go:81-89 | saves (dirty kept only on a write error), hides the dialog and closes |
| LevelEditor.Editor.CloseDialogDiscard | level/editor_ui.go:90-93 | hides the dialog and closes without saving |
| LevelEditor.Editor.SyncCollisionButtons | level/editor_ui.go:420-422 | the button list grows to the polygon count and never shrinks |
| LevelEditor.Editor.ClickPolygonButton | level/editor_ui.go:427-429 | the clicked polygon is selected |
| LevelEditor.Editor.NewPolygon | level/editor_ui.go:452-463 | an empty polygon is appended and selected, and the level and tree are dirty |
| BuildLevels.AllOutlines | cmd/build.go:166-176 | every collision polygon becomes a solid builder polygon with the same points |
| BuildLevels.ProtoGround | cmd/build.go:183-192 | every tile is carried over with its position and texture |
| BuildLevels.ConvertLevelToProto | cmd/build.go:160-201 | a nil level is an error; otherwise the ground is copied and the BSP is the builder's result on all outlines |
| BuildLevels.AllOutlinesPieces | cmd/build.go:166-180 | with a partitioner that rejects degenerate polygons, the build command and the editor's filtered list give the same pieces |
| BuildLevels.BuildMatchesEditor | cmd/build.go:166-180 | under that condition the build command produces the same BSP as the editor's collision-test tree |
| BuildLevels.Matches | cmd/build.go:211-220 | the collected paths are at most the walked entries |
| BuildLevels.MatchesMembers | cmd/build.go:211-220 | a path is collected exactly when it is a non-directory entry ending in ".yaml" |
| BuildLevels.CollectMatches | cmd/build.go:211-220 | the walk callback's list is Matches |
| BuildLevels.PbPath | cmd/build.go:272 | the output path ends in ".pb" and replaces a ".yaml" suffix |
| BuildLevels.PbPathOfLevel | cmd/build.go:272 | "x.yaml" maps to "x.pb" |
| BuildLevels.YieldedProperties | cmd/build.go:228-297 | the i-th yielded pair is the ".pb" path and bytes of the i-th level's successful conversion; nothing at or after the first failed conversion is yielded |
| BuildLevels.YieldedAll | cmd/build.go:228-297 | when every conversion succeeds and the consumer accepts everything, every level is yielded |
| BuildLevels.YieldedCons | cmd/build.go:228-297 | the first level's outcome decides whether the rest is visited |
| BuildLevels.ConvertEach | cmd/build.go:228-297 | the conversion loop yields Yielded |
| BuildLevels.BuildLevelsIterator | cmd/build.go:206-299 | a failed walk yields nothing; otherwise the matching files are converted and yielded in order |
| Linter.ImportPathIsPattern | linter/linter.go:20-23 | the extracted import path is exactly the quoted string of a line of the form `import [alias] "path"` |
| Linter.ImportPathShape | linter/linter.go:23 | an extracted path contains no quote, and a comment line yields no path |
| Linter.LineError | linter/linter.go:88-104 | an error is reported exactly for a forbidden import, with the file, the line number and the path |
| Linter.LineErrorNumbered | linter/linter.go:96-102 | reported errors carry the line number they were given |
| Linter.Collect | linter/linter.go:79-104 | the errors are in strictly increasing line order, with line numbers within the file |
| Linter.CollectSound | linter/linter.go:79-104 | every collected error is the classifier's verdict for its line |
| Linter.CollectComplete | linter/linter.go:79-104 | every line the classifier flags is collected |
| Linter.FileErrors | linter/linter.go:79-106 | a file's errors are in line order, one per line at most |
| Linter.FileErrorsSound | linter/linter.go:79-106 | every reported line holds a forbidden import |
| Linter.FileErrorsComplete | linter/linter.go:79-106 | every line with a forbidden import is reported |
| Linter.CheckFileImports | linter/linter.go:70-113 | a read error is passed on; otherwise the scanning loop's errors are FileErrors |
| Linter.LintOf | linter/linter.go:29-66 | lint passes exactly when both trees walk cleanly and no Odin file has a violation; otherwise it reports the count or the walk error |
| Linter.ScanDir | linter/linter.go:32-58 | the walk loop's result is the total violation count or the first walk error |
| Linter.Lint | linter/linter.go:26-67 | the method computes LintOf |
| Protobuf.Base | protobuf/protobuf.go:192 | like filepath.Base, never empty |
| Protobuf.BaseOfJoin | protobuf/protobuf.go:192 | the base of dir/name is name |
| Protobuf.Sort | protobuf/protobuf.go:182-184 | the sorted list is a permutation of the input |
| Protobuf.SortSorted | protobuf/protobuf.go:182-184 | and it is ordered |
| Protobuf.InsertSorted | protobuf/protobuf.go:182-184 | insertion keeps a list ordered |
| Protobuf.Insert | protobuf/protobuf.go:182-184 | insertion adds exactly the element |
| Protobuf.ComputeProtoHashes | protobuf/protobuf.go:178-196 | the loop over the sorted files computes HashesOf |
| Protobuf.HashesOkIff | protobuf/protobuf.go:178-196 | hashing succeeds exactly when every file's hash does |
| Protobuf.HashesKeys | protobuf/protobuf.go:178-196 | the keys are exactly the base names of the files |
| Protobuf.HashesLast | protobuf/protobuf.go:178-196 | a name maps to the hash of the last file with that base name |
| Protobuf.HashesErrSticks | protobuf/protobuf.go:178-196 | the first hashing error ends the computation |
| Protobuf.UnchangedIsEqual | protobuf/protobuf.go:126-138 | the comparison loop finds the files unchanged exactly when the hash maps are equal |
| Protobuf.NeedsRegeneration | protobuf/protobuf.go:102-139 | no generated files, or no cache, means regenerate; otherwise regenerate exactly when the hashes differ; glob and hash errors are reported; the result is the decision `Decision` that `Generate` is stated with |
| Protobuf.SavedCacheIsUpToDate | protobuf/protobuf.go:142-161 | once the saved cache holds the current files' hashes and generated code exists, the next decision is that the code is up to date |
| Protobuf.PbOdinFiles | protobuf/protobuf.go:242-253 | only files ending in ".pb.odin" are selected |
| Protobuf.PbOdinFilesMembers | protobuf/protobuf.go:242-253 | a file is selected exactly when it is listed and ends in ".pb.odin" |
| Protobuf.Clean | protobuf/protobuf.go:241-262 | the generated ".pb.odin" files are removed in order up to the first failure, which is reported; after all of them the hash cache is removed; a glob error is reported |
| Protobuf.PluginCheck | protobuf/protobuf.go:226-238 | the plugin is missing exactly when it neither runs nor is on the path |
| Protobuf.ProtocRuns | protobuf/protobuf.go:57-72 | protoc runs on a prefix of the files, and all but the last run succeed |
| Protobuf.ProtocErrorProperties | protobuf/protobuf.go:57-72 | there is no error exactly when every file compiles; an error is the first failing file's |
| Protobuf.RunProtoc | protobuf/protobuf.go:57-72 | the loop runs ProtocRuns and reports ProtocError |
| Protobuf.Generate | protobuf/protobuf.go:17-92 | each early exit with its error and no protoc run: the proto glob, no proto files, the output directory, a failed decision ("checking timestamps: "), an up-to-date decision, a missing protoc, a missing plugin; when regeneration is needed and both tools are found, protoc runs over the files in order up to the first failure, whose error is returned, and after all succeed the hashes of the sorted files are the cache saved (none when hashing fails) |
| LibrariesWindows.SDLEntry | packager/libraries_windows.go:29-56 | an SDL entry is well formed, named by its version, and has the release URL |
| LibrariesWindows.GetSDLDLLs | packager/libraries_windows.go:25-59 | the list holds the SDL3, SDL3_ttf and SDL3_image entries, in that order, for exactly the versions that are set |
| LibrariesWindows.RequestedWellFormed | packager/libraries_windows.go:25-59 | every requested DLL entry is well formed |
| LibrariesWindows.RequestedPresence | packager/libraries_windows.go:25-59 | each library is requested exactly when its version is set |
| LibrariesWindows.SDLDownloadURL | packager/libraries_windows.go:104-106 | the URL of an SDL entry is the repository's release download base, "release-" and the version, then the versioned win32-x64 archive name |
| LibrariesWindows.DownloadURL | packager/libraries_windows.go:105-106 | the URL is exactly the base URL, "/release-" and the version, "/", then the archive name: it starts with the first three, ends with the last, and has exactly their combined length |
| LibrariesWindows.VersionedCacheDir | packager/libraries_windows.go:77-83 | the directory lies under the cache and ends in name-version-digest |
| LibrariesWindows.PathsOfKeys | packager/libraries_windows.go:200-220 | the result maps exactly the DLL file names |
| LibrariesWindows.PathsOfDistinct | packager/libraries_windows.go:200-220 | with distinct names, each DLL maps to its own cached path |
| LibrariesWindows.EnsureDLLsDownloaded | packager/libraries_windows.go:188-221 | no DLLs gives the empty map; a cache-directory error is reported; otherwise the loop computes Downloaded |
| LibrariesWindows.DownloadedProperties | packager/libraries_windows.go:202-218 | success exactly when no DLL fails, with every name mapped to its cached path; otherwise the error is the first failing DLL's |
| LibrariesWindows.ExtractDLLFromZip | packager/libraries_windows.go:140-184 | the first archive entry that names the DLL is extracted to the DLL's path in the target directory; an unopenable archive, a missing entry and each extraction failure are reported with their own message |
| Steamworks.Library | steamworks/steamworks.go:70-104 | a library's remote path is the redistributable directory, its sub-directory and file name |
| Steamworks.RuntimeLibraryInfo | steamworks/steamworks.go:67-95 | darwin gets osx/libsteam_api.dylib, linux_amd64 linux64/libsteam_api.so, any other arm64/aarch64 target linuxarm64/libsteam_api.so, and windows_amd64 win64/steam_api64.dll, in that order of precedence; every other target is unsupported |
| Steamworks.WindowsArm64GetsLinuxLibrary | steamworks/steamworks.go:81-86 | windows_arm64 is given the linux arm64 shared library and no link library |
| Steamworks.LinkLibraryInfo | steamworks/steamworks.go:98-107 | only windows_amd64 has a link library, a ".lib" file |
| Steamworks.DownloadURL | steamworks/steamworks.go:122-123 | the URL is the raw-content directory of the pinned repository and commit followed by exactly the remote path |
| Steamworks.DownloadURLInjective | steamworks/steamworks.go:122-123 | distinct remote paths are fetched from distinct URLs |
| Steamworks.EnsureLibraries | steamworks/steamworks.go:25-58 | unsupported targets fail; a runtime download error is reported; on other targets success gives the runtime path and no link library; on windows_amd64 a link download error is reported ("downloading link library: "), and when both downloads succeed the result holds both local paths |
| Clay.CompatibleNamesPlatform | clay/clay.go:106-117 | a compatible target starts with the platform and an underscore, and names one platform only |
| Clay.MapOdinToZigTarget | clay/clay.go:120-137 | a Zig triple exists exactly for the known Odin targets |
| Clay.ZigTargetInjective | clay/clay.go:120-137 | different Odin targets never map to the same Zig triple |
| Clay.NeedsRecompile | clay/clay.go:77-98 | a missing object means recompile; any other stat error of the object, and any stat error of the source or header (missing included), is reported with its own prefix and os.Stat's text; no recompile exactly when the object is at least as new as both the source and the header |
| Clay.Compile | clay/clay.go:14-74 | a stat error is reported and an up-to-date object is returned without a run; otherwise zig is used exactly when cross-compiling with zig asked for, with the arguments `cc -c src -o obj -O2` followed by `-target` and the Zig triple exactly when the target has one, and clang otherwise with `-c src -o obj -O2`; a missing zig or clang gives its fixed message; a compile failure is reported with its output, and success returns the object path |
| Clay.NotTargetFlag | clay/clay.go:47-62 | the fixed part of either compiler's arguments carries no target flag |
| Platform.DetectCurrent | platform/platform.go:10-33 | only darwin, linux and windows are supported; the target is os_amd64 for amd64 (and for darwin on anything but arm64), otherwise darwin_arm64 or os_i386 |
| Platform.DetectedIsCompatible | platform/platform.go:10-33 | the detected target is compatible with its platform and has a Zig triple |
| Platform.GetOutputName | platform/platform.go:36-41 | windows targets get ".exe" appended to the binary name, other targets the name itself |
| Odin.Compile | odin/odin.go:21-50 | the arguments are build, the source directory, -out, -target and the platform collection, then -debug, or else -o:speed for a release; the command fails exactly when odin does, with its message |
| Odin.JoinArgs | odin/odin.go:53-62 | the loop joins the arguments with single spaces |
| Odin.JoinLength | odin/odin.go:53-62 | the joined length is the total length plus one separator between each pair |
| Odin.JoinEnds | odin/odin.go:53-62 | the joined string starts with the first argument and ends with the last |
| Odin.JoinSplit | odin/odin.go:53-62 | joining splits at any argument boundary around one space |
| Project.Chain | project/project.go:28-43 | the walk visits the directory, then each parent, up to the root |
| Project.FindProjectRoot | project/project.go:22-44 | the root is the first directory on the chain holding venture.yaml, and the search fails exactly when none does |
| Project.LoadConfig | project/project.go:47-69 | read and parse errors are reported; a config is accepted exactly when it has a name and a binary name |
| Packager.CopyDirAction | packager/packager.go:80-105 | hidden entries are skipped; every other entry is re-created at the same relative path under the destination, directories with their mode |
| Packager.ZipEntry | packager/packager.go:120-182 | hidden entries and the root get no header; others are named base/rel with "/" separators and a trailing "/" for directories; executable files are stored as 0755, other files keep their mode |
| Packager.ZipEntriesMembers | packager/packager.go:120-182 | the archive holds exactly the headers of the visited entries |
| Packager.HiddenDirectoryContentsKept | packager/packager.go:126-128 | a file inside a "._" directory is still archived |
| Packager.HiddenDirectoryContentsCopied | packager/packager.go:87-89 | copyDir skips creating a "._" directory but still issues copyFile for a file inside it, whose target's parent was never made |

## Left out

- Floating point: float32/float64 arithmetic is modelled as exact `real` arithmetic.
  - Rounding, NaN and infinities are not modelled.
  - `Normalize` and its `sqrt` are dropped. The raw normal keeps the sign of every `PointSide`
    test, but distances are not unit-scaled.
- Integer widths: int32 values (grid cells, indices, counts) are unbounded integers. Overflow is
  not modelled.
- `mergeOR` (bsp/bsp.go:291-313) is not modelled. The merge the builder actually uses is.
- The deprecated constructors `NewLeafNode`, `NewSplitNode` and `NewLevelData` are not modelled.
- The editor's nested-node traversal (`lineTraceBSPNode`, level/editor.go:260-338) is replaced by
  the flat, clamped `BspTree.LineTrace`, the corrected trace of the Findings row. The editor source
  calls an older API, as described above. So on the Findings input `Editor.LineTraceBSP` and
  `Editor.HandleCollisionTest` report a hit at (0.00005, 0), where the editor's trace as written
  reports (0, 0).
- `BspTree.PointInBSP`, `BspTree.LineTraceBSPNode` and `BspTree.LineTrace` require the node array
  to be ordered (every split's children stored before it), as every array the builder returns is.
  The source accepts any array and recurses without end on one with a cycle; that case is not
  modelled.
- The CGAL algorithms are oracle parameters: `is_simple_2` and `approx_convex_partition_2`. An
  exception from `approx_convex_partition_2` is modelled (`Threw`/`ThrewUnknown`, caught at
  bsp/cgal/partition.cpp:132-137). Exceptions from building the CGAL polygon, from `is_simple`,
  the orientation and convexity tests, or from growing the result list are not: those steps are
  assumed not to throw.
- `malloc` is modelled by block identity and size only. The contents of a freshly allocated
  block, and the "%d" formatting of counts, are not modelled.
- The build command converts each level in a goroutine with a 30-second timeout
  (cmd/build.go:227-283). This is modelled as one conversion outcome that may fail. Concurrency
  and the clock are not modelled.
- Editor input is given as already-interpreted values:
  - the nearest-point search is an input index;
  - the screen-to-world conversion and grid flooring are inputs;
  - the primary-press dispatch between tools is not modelled.
- Rendering and the UI layout are not modelled.
- `filepath.Clean`, `Rel` and `Join` are modelled as joined component sequences.
- `cmd.Dir` and the other process set-up are not modelled.
- `Project.Chain`: the parent function is assumed to shorten every path until it reaches a path
  that is its own parent. `filepath.Dir` does this on absolute paths, and `os.Getwd` returns one,
  but not on every string (`Dir("a")` is "."). The model states the assumption for all paths.
- `Strs.ToLower` folds only ASCII letters.
- SHA-256 is a digest parameter.
- Downloads are modelled only as far as their URL and outcome. `downloadFile`'s HTTP I/O and the
  bytes of `downloadAndExtractDLL` are not modelled.
- `CopyDLLsToPackage` (packager/libraries_windows.go:224-240) is not modelled.
- Packager: `Package`, `copyFile` and the per-OS `packagePlatform` are not modelled, nor the
  archive bytes. The per-entry rules of the walks are.
- The missing-tool error messages of the protobuf generator are shortened to their first line.
- Protobuf `Generate`: the `odinfmt` run and failures of marshalling or writing the hash cache
  only print warnings and are not modelled; `saved` is the cache `saveHashCache` hands to the
  write.
- The "\nOutput:" formatting of subprocess errors is collapsed into the error string.
- Go map iteration order does not matter to any modelled result. Results that come from maps are
  stated as maps.
- A nil entry in the node array is modelled as a `Missing` node. The point test treats it as
  empty.

## Findings

| source | as written | input that shows it | evidently intended | confidence | as-written member | corrected member |
|---|---|---|---|---|---|---|
| bsp/bsp.go:528-531 | the crossing parameter t = -d0/(d1-d0) is used unclamped. When d1 is within epsilon but still positive, t exceeds 1, so the far child is traced from a point past the segment's end | nodes [empty leaf, solid leaf, split x=0 with front 0 and back 1], trace from (0.0002, 0) to (0.00005, 0): d0 > epsilon, d1 <= epsilon, t = 4/3, and the solid back child reports a hit at (0, 0), which the segment never reaches | every hit lies on the traced segment, which needs the crossing parameter kept within [0, 1] | not executed | BspTree.LineTraceBeyondSegment | BspTree.LineTraceHitOnSegment |
