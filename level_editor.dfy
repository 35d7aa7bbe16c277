/** The level editor's state and the updates its canvas, keyboard and side bars make to it. Screen
    coordinates are not modelled: each edit receives the grid cell, the world position or the
    index of the point under the mouse that the source computes from them. */
module LevelEditor {
  import opened Wrappers
  import BspGeometry
  import BspTree
  import BspBuild
  import BspBuilder
  import opened LevelTypes
  import opened LevelEdits

  const ToolGround := "ground"
  const ToolCollision := "collision"
  const ToolCollisionTest := "collision_test"

  const MinZoom := 0.1
  const MaxZoom := 10.0

  /** The snapping grid of collision points, in world units. */
  const PointGrid := 0.125

  /** The zoom limits of the scroll handler. */
  function ClampZoom(z: real): (r: real)
    ensures MinZoom <= r <= MaxZoom
    ensures MinZoom <= z <= MaxZoom ==> r == z
  {
    if z < MinZoom then MinZoom else if z > MaxZoom then MaxZoom else z
  }

  /** The world coordinate under a mouse at offset `rel` from the canvas centre. */
  function WorldUnder(rel: real, offset: real, cellSize: real): real
    requires cellSize != 0.0
  {
    (rel - offset) / cellSize
  }

  /** The view offset after scaling it by `ratio` about the mouse. */
  function ZoomAbout(offset: real, rel: real, ratio: real): real {
    (offset - rel) * ratio + rel
  }

  /** Zooming by `z2 / z` about the mouse keeps the world point under the mouse in place. */
  lemma ZoomKeepsWorldPoint(rel: real, offset: real, z: real, z2: real, g: real)
    requires z > 0.0 && z2 > 0.0 && g > 0.0
    ensures WorldUnder(rel, ZoomAbout(offset, rel, z2 / z), g * z2) == WorldUnder(rel, offset, g * z)
  {
    var ratio := z2 / z;
    var off2 := ZoomAbout(offset, rel, ratio);
    var d := rel - offset;
    var q := d / (g * z);
    assert d == q * (g * z);
    assert ratio * z == z2;
    assert rel - off2 == d * ratio;
    assert d * ratio == q * (g * z2) by {
      calc {
        d * ratio;
        q * (g * z) * ratio;
        q * g * (ratio * z);
        q * (g * z2);
      }
    }
  }

  method IsPointInPolygon(x: real, y: real, polygon: seq<Vec2>) returns (inside: bool)
    ensures inside == Inside(x, y, polygon)
  {
    if |polygon| < 3 {
      return false;
    }
    inside := false;
    var j := |polygon| - 1;
    var i := 0;
    while i < |polygon|
      invariant 0 <= i <= |polygon|
      invariant i < |polygon| ==> j == Prev(|polygon|, i)
      invariant inside == (Crossings(x, y, polygon, i) % 2 == 1)
    {
      if Toggles(x, y, polygon[i], polygon[j]) {
        inside := !inside;
      }
      j := i;
      i := i + 1;
    }
  }

  class Editor {
    const levelFilePath: string
    const level: Level

    var selectedTexture: string
    var dirty: bool

    var showCloseDialog: bool
    var shouldClose: bool

    const gridCellSize: real := 64.0
    var viewOffsetX: real
    var viewOffsetY: real
    var zoom: real

    var isPanning: bool
    var lastMouseX: real
    var lastMouseY: real

    var isDeleting: bool
    var isMoving: bool

    var movingPointPolygonIndex: int
    var movingPointIndex: int

    var currentTool: string

    /** How many clickable entries the polygon list holds. */
    var collisionButtons: nat
    var selectedPolygonIndex: int

    var collisionTestPoints: seq<CollisionTestResult>
    var collisionTestBSP: Option<BspTree.LevelData>
    var collisionTestBSPDirty: bool

    /** The zoom stays within its limits and a cached tree is a well-formed node array. */
    ghost predicate Valid()
      reads this
    {
      && MinZoom <= zoom <= MaxZoom
      && (collisionTestBSP.Some? ==>
            BspTree.Built(collisionTestBSP.value.nodes) &&
            0 <= collisionTestBSP.value.rootIndex < |collisionTestBSP.value.nodes|)
    }

    /** `NewEditor`. */
    constructor (levelFilePath: string, level: Level)
      ensures Valid()
      ensures this.levelFilePath == levelFilePath && this.level == level
      ensures selectedTexture == "" && !dirty && !showCloseDialog && !shouldClose
      ensures viewOffsetX == 0.0 && viewOffsetY == 0.0 && zoom == 1.0
      ensures !isPanning && !isDeleting && !isMoving
      ensures currentTool == ToolGround
      ensures movingPointPolygonIndex == -1 && movingPointIndex == -1 && selectedPolygonIndex == -1
      ensures collisionButtons == 0 && collisionTestPoints == [] && collisionTestBSP.None? && collisionTestBSPDirty
    {
      this.levelFilePath := levelFilePath;
      this.level := level;
      selectedTexture := "";
      dirty := false;
      showCloseDialog := false;
      shouldClose := false;
      viewOffsetX := 0.0;
      viewOffsetY := 0.0;
      zoom := 1.0;
      isPanning := false;
      lastMouseX := 0.0;
      lastMouseY := 0.0;
      isDeleting := false;
      isMoving := false;
      movingPointPolygonIndex := -1;
      movingPointIndex := -1;
      currentTool := ToolGround;
      collisionButtons := 0;
      selectedPolygonIndex := -1;
      collisionTestPoints := [];
      collisionTestBSP := None;
      collisionTestBSPDirty := true;
    }

    // -------------------------------------------------------------------------------------
    // editor.go

    /** `HasUnsavedChanges`: the dirty flag, which a successful save clears and every edit sets. */
    predicate HasUnsavedChanges(): (r: bool)
      reads this
      ensures r <==> dirty
    {
      dirty
    }

    /** `ShouldClose`: the flag only the close dialog's buttons set. */
    predicate ShouldClose(): (r: bool)
      reads this
      ensures r <==> shouldClose
    {
      shouldClose
    }

    /** `currentToolNeedsAssetView`: only the ground tool shows the asset view. */
    predicate CurrentToolNeedsAssetView(): (r: bool)
      reads this
      ensures r <==> currentTool == ToolGround
      ensures r ==> !CurrentToolNeedsCollisionList()
    {
      currentTool == ToolGround
    }

    /** `currentToolNeedsCollisionList`: only the collision tool shows the polygon list. */
    predicate CurrentToolNeedsCollisionList(): (r: bool)
      reads this
      ensures r <==> currentTool == ToolCollision
    {
      currentTool == ToolCollision
    }

    /** `Save`. `writeError` is the outcome of writing the level file (None on success). */
    method Save(writeError: Option<string>) returns (err: Option<string>)
      modifies this`dirty
      ensures err == writeError
      ensures dirty == (writeError.Some? && old(dirty))
    {
      if writeError.Some? {
        return writeError;
      }
      dirty := false;
      return None;
    }

    /** `RequestClose`: a clean level closes at once; a dirty one first shows the dialog and then
        closes once the dialog has decided to. */
    method RequestClose() returns (close: bool)
      modifies this`showCloseDialog
      ensures !old(dirty) ==> close && showCloseDialog == old(showCloseDialog)
      ensures old(dirty) && !old(showCloseDialog) ==> !close && showCloseDialog
      ensures old(dirty) && old(showCloseDialog) ==> close == ShouldClose() && showCloseDialog
    {
      if !dirty {
        return true;
      }
      if !showCloseDialog {
        showCloseDialog := true;
        return false;
      }
      return shouldClose;
    }

    /** `buildCollisionBSP`: the outlines of at least three points, in order and solid, go to a
        fresh builder; its level becomes the cached tree, which is then clean. The level is solid
        at a point exactly when a solid convex piece of one of those outlines contains it. */
    method BuildCollisionBSP(partition: BspGeometry.Polygon -> Result<seq<BspGeometry.Polygon>>)
      modifies this`collisionTestBSP, this`collisionTestBSPDirty
      ensures collisionTestBSP == Some(BspBuild.BuildLevel([], SolidOutlines(level.collisions), partition))
      ensures !collisionTestBSPDirty
      ensures old(MinZoom <= zoom <= MaxZoom) ==> Valid()
      ensures var data := collisionTestBSP.value;
        var solid := BspBuild.SolidPieces(BspBuild.Pieces(SolidOutlines(level.collisions), partition));
        forall p :: BspTree.PointInBSP(data.nodes, data.rootIndex, p) <==> BspBuild.InSomePiece(solid, p)
    {
      var collisions := level.collisions;
      var bspPolygons: seq<BspGeometry.Polygon> := [];
      var k := 0;
      while k < |collisions|
        invariant 0 <= k <= |collisions|
        invariant bspPolygons == SolidOutlines(collisions[..k])
      {
        assert collisions[..k + 1][..k] == collisions[..k];
        var outline := collisions[k].outline;
        var vertices: seq<BspGeometry.Point> := [];
        var m := 0;
        while m < |outline|
          invariant 0 <= m <= |outline| && |vertices| == m
          invariant forall i :: 0 <= i < m ==> vertices[i] == ToPoint(outline[i])
        {
          vertices := vertices + [ToPoint(outline[m])];
          m := m + 1;
        }
        if |vertices| >= 3 {
          assert BspGeometry.Polygon(vertices, true) == ToBspPolygon(collisions[k]);
          bspPolygons := bspPolygons + [BspGeometry.Polygon(vertices, true)];
        }
        k := k + 1;
      }
      assert collisions[..|collisions|] == collisions;
      var builder := new BspBuilder.BSPBuilder(bspPolygons);
      var data := builder.Build(partition);
      collisionTestBSP := Some(data);
      collisionTestBSPDirty := false;
      forall p
        ensures var solid := BspBuild.SolidPieces(BspBuild.Pieces(bspPolygons, partition));
          BspTree.PointInBSP(data.nodes, data.rootIndex, p) <==> BspBuild.InSomePiece(solid, p)
      {
        BspBuild.BuildSolid([], bspPolygons, partition, p);
      }
    }

    /** `markCollisionBSPDirty`. */
    method MarkCollisionBSPDirty()
      modifies this`collisionTestBSPDirty
      ensures collisionTestBSPDirty
    {
      collisionTestBSPDirty := true;
    }

    /** `lineTraceBSP`: no tree, no hit; otherwise the trace of the whole segment through the
        cached tree, whose hit is a point of the segment. */
    function LineTraceBSP(from: BspGeometry.Point, to: BspGeometry.Point): (r: BspTree.TraceHit)
      reads this
      requires Valid()
      ensures collisionTestBSP.None? ==> r == BspTree.NoHit
      ensures r.hit ==> (collisionTestBSP.Some? &&
        exists t :: 0.0 <= t <= 1.0 && r == BspTree.HitAt(BspTree.Lerp(from, to, t)))
      ensures !r.hit ==> r == BspTree.NoHit
    {
      match collisionTestBSP
      case None => BspTree.NoHit
      case Some(data) =>
        BspTree.LineTraceHitOnSegment(data.nodes, data.rootIndex, from, to, 0.0, 1.0);
        BspTree.LineTrace(data.nodes, data.rootIndex, from, to, 0.0, 1.0)
    }

    // -------------------------------------------------------------------------------------
    // editor_canvas.go: ground tool

    /** `placeTileAtPosition` on grid cell `cell`. */
    method PlaceTileAtPosition(cell: Vec2i)
      modifies level`ground, this`dirty
      ensures selectedTexture == "" ==> level.ground == old(level.ground) && dirty == old(dirty)
      ensures selectedTexture != "" ==>
        && level.ground == PlaceTile(old(level.ground), cell, selectedTexture)
        && dirty == (old(dirty) || PlaceChanges(old(level.ground), cell, selectedTexture))
    {
      if selectedTexture == "" {
        return;
      }
      var tileIndex := -1;
      var i := 0;
      while i < |level.ground|
        invariant 0 <= i <= |level.ground|
        invariant forall j :: 0 <= j < i ==> level.ground[j].position != cell
      {
        if level.ground[i].position == cell {
          tileIndex := i;
          break;
        }
        i := i + 1;
      }
      assert tileIndex == FindTile(level.ground, cell);
      var newTile := Tile(cell, selectedTexture);
      if tileIndex >= 0 {
        if level.ground[tileIndex].texture != newTile.texture {
          level.ground := level.ground[tileIndex := newTile];
          dirty := true;
        }
      } else {
        level.ground := level.ground + [newTile];
        dirty := true;
      }
    }

    /** `deleteTileAtPosition` on grid cell `cell`. */
    method DeleteTileAtPosition(cell: Vec2i)
      modifies level`ground, this`dirty
      ensures level.ground == DeleteTile(old(level.ground), cell)
      ensures dirty == (old(dirty) || FindTile(old(level.ground), cell) >= 0)
    {
      var i := 0;
      while i < |level.ground|
        invariant 0 <= i <= |level.ground| && level.ground == old(level.ground) && dirty == old(dirty)
        invariant forall j :: 0 <= j < i ==> level.ground[j].position != cell
      {
        if level.ground[i].position == cell {
          assert i == FindTile(level.ground, cell);
          var last := |level.ground| - 1;
          level.ground := level.ground[i := level.ground[last]];
          level.ground := level.ground[..last];
          dirty := true;
          return;
        }
        i := i + 1;
      }
    }

    // -------------------------------------------------------------------------------------
    // editor_canvas.go: collision tool

    /** Whether `selectedPolygonIndex` names a polygon. */
    predicate HasSelection()
      reads this, level
    {
      0 <= selectedPolygonIndex < |level.collisions|
    }

    /** `addCollisionPoint` at world position (worldX, worldY), snapped to the point grid. */
    method AddCollisionPoint(worldX: real, worldY: real)
      modifies level`collisions, this`dirty, this`collisionTestBSPDirty
      ensures !old(HasSelection()) ==>
        level.collisions == old(level.collisions) && dirty == old(dirty) && collisionTestBSPDirty == old(collisionTestBSPDirty)
      ensures old(HasSelection()) ==>
        var s := selectedPolygonIndex;
        && level.collisions == old(level.collisions)[s := Polygon(old(level.collisions)[s].outline +
             [Vec2(SnapToGrid(worldX, PointGrid), SnapToGrid(worldY, PointGrid))])]
        && dirty && collisionTestBSPDirty
    {
      if selectedPolygonIndex < 0 || selectedPolygonIndex >= |level.collisions| {
        return;
      }
      var px := SnapToGrid(worldX, PointGrid);
      var py := SnapToGrid(worldY, PointGrid);
      var point := Vec2(px, py);
      var polygon := level.collisions[selectedPolygonIndex];
      level.collisions := level.collisions[selectedPolygonIndex := Polygon(polygon.outline + [point])];
      dirty := true;
      MarkCollisionBSPDirty();
    }

    /** `startMovingPoint`. `foundPointIndex` is the point of the selected polygon nearest to the
        mouse within the click threshold, or -1. */
    method StartMovingPoint(foundPointIndex: int)
      modifies this`movingPointPolygonIndex, this`movingPointIndex
      ensures old(HasSelection()) && foundPointIndex >= 0 ==>
        movingPointPolygonIndex == selectedPolygonIndex && movingPointIndex == foundPointIndex
      ensures !(old(HasSelection()) && foundPointIndex >= 0) ==>
        movingPointPolygonIndex == old(movingPointPolygonIndex) && movingPointIndex == old(movingPointIndex)
    {
      if selectedPolygonIndex < 0 || selectedPolygonIndex >= |level.collisions| {
        return;
      }
      if foundPointIndex >= 0 {
        movingPointPolygonIndex := selectedPolygonIndex;
        movingPointIndex := foundPointIndex;
      }
    }

    /** Whether the moving indices name a point. */
    predicate HasMovingPoint()
      reads this, level
    {
      && 0 <= movingPointPolygonIndex < |level.collisions|
      && 0 <= movingPointIndex < |level.collisions[movingPointPolygonIndex].outline|
    }

    /** `movePoint` to world position (worldX, worldY), snapped to the point grid: only the moving
        point's slot changes. */
    method MovePoint(worldX: real, worldY: real)
      modifies level`collisions, this`dirty, this`collisionTestBSPDirty
      ensures !old(HasMovingPoint()) ==>
        level.collisions == old(level.collisions) && dirty == old(dirty) && collisionTestBSPDirty == old(collisionTestBSPDirty)
      ensures old(HasMovingPoint()) ==>
        var s, k := movingPointPolygonIndex, movingPointIndex;
        && level.collisions == old(level.collisions)[s := Polygon(old(level.collisions)[s].outline[k :=
             Vec2(SnapToGrid(worldX, PointGrid), SnapToGrid(worldY, PointGrid))])]
        && dirty && collisionTestBSPDirty
    {
      if movingPointPolygonIndex < 0 || movingPointPolygonIndex >= |level.collisions| {
        return;
      }
      if movingPointIndex < 0 || movingPointIndex >= |level.collisions[movingPointPolygonIndex].outline| {
        return;
      }
      var px := SnapToGrid(worldX, PointGrid);
      var py := SnapToGrid(worldY, PointGrid);
      var polygon := level.collisions[movingPointPolygonIndex];
      level.collisions := level.collisions[movingPointPolygonIndex :=
        Polygon(polygon.outline[movingPointIndex := Vec2(px, py)])];
      dirty := true;
      MarkCollisionBSPDirty();
    }

    /** `deleteCollisionPoint`. `foundPointIndex` is the point of the selected polygon nearest to
        the mouse within the click threshold, or -1. The point is removed keeping the outline's
        order; an outline left empty removes its polygon and clears the selection. */
    method DeleteCollisionPoint(foundPointIndex: int)
      requires HasSelection() && foundPointIndex >= 0 ==>
        foundPointIndex < |level.collisions[selectedPolygonIndex].outline|
      modifies level`collisions, this`selectedPolygonIndex, this`dirty, this`collisionTestBSPDirty
      ensures !(old(HasSelection()) && foundPointIndex >= 0) ==>
        && level.collisions == old(level.collisions) && selectedPolygonIndex == old(selectedPolygonIndex)
        && dirty == old(dirty) && collisionTestBSPDirty == old(collisionTestBSPDirty)
      ensures old(HasSelection()) && foundPointIndex >= 0 ==>
        var s := old(selectedPolygonIndex);
        var outline := RemoveAt(old(level.collisions)[s].outline, foundPointIndex);
        && (|outline| == 0 ==> level.collisions == RemoveAt(old(level.collisions), s) && selectedPolygonIndex == -1)
        && (|outline| > 0 ==> level.collisions == old(level.collisions)[s := Polygon(outline)] && selectedPolygonIndex == s)
        && dirty && collisionTestBSPDirty
    {
      if selectedPolygonIndex < 0 || selectedPolygonIndex >= |level.collisions| {
        return;
      }
      if foundPointIndex >= 0 {
        var polygon := level.collisions[selectedPolygonIndex];
        var outline := polygon.outline[..foundPointIndex] + polygon.outline[foundPointIndex + 1..];
        level.collisions := level.collisions[selectedPolygonIndex := Polygon(outline)];
        if |outline| == 0 {
          level.collisions := level.collisions[..selectedPolygonIndex] + level.collisions[selectedPolygonIndex + 1..];
          selectedPolygonIndex := -1;
        }
        dirty := true;
        MarkCollisionBSPDirty();
      }
    }

    /** `selectPolygonAtPosition` at world position (worldX, worldY): the topmost polygon of at
        least three points containing it becomes selected; none, no change. */
    method SelectPolygonAtPosition(worldX: real, worldY: real)
      modifies this`selectedPolygonIndex
      ensures var t := Topmost(level.collisions, worldX, worldY);
        selectedPolygonIndex == if t >= 0 then t else old(selectedPolygonIndex)
    {
      var i := FindTopmost(worldX, worldY);
      if i >= 0 {
        selectedPolygonIndex := i;
      }
    }

    /** The downward search shared by selecting and deleting. */
    method FindTopmost(worldX: real, worldY: real) returns (found: int)
      ensures found == Topmost(level.collisions, worldX, worldY)
    {
      var cs := level.collisions;
      var i := |cs| - 1;
      while i >= 0
        invariant -1 <= i < |cs|
        invariant Topmost(cs, worldX, worldY) == Topmost(cs[..i + 1], worldX, worldY)
      {
        var polygon := cs[i];
        var inside := false;
        if |polygon.outline| >= 3 {
          inside := IsPointInPolygon(worldX, worldY, polygon.outline);
        }
        if inside {
          assert cs[..i + 1][i] == polygon;
          return i;
        }
        assert cs[..i + 1][..i] == cs[..i];
        i := i - 1;
      }
      assert cs[..0] == [];
      return -1;
    }

    /** `deletePolygonAtPosition` at world position (worldX, worldY): the topmost polygon of at
        least three points containing it is removed, and only that one. */
    method DeletePolygonAtPosition(worldX: real, worldY: real)
      modifies level`collisions, this`dirty, this`collisionTestBSPDirty
      ensures Topmost(old(level.collisions), worldX, worldY) < 0 ==>
        level.collisions == old(level.collisions) && dirty == old(dirty) && collisionTestBSPDirty == old(collisionTestBSPDirty)
      ensures Topmost(old(level.collisions), worldX, worldY) >= 0 ==>
        && level.collisions == RemoveAt(old(level.collisions), Topmost(old(level.collisions), worldX, worldY))
        && dirty && collisionTestBSPDirty
    {
      var i := FindTopmost(worldX, worldY);
      if i >= 0 {
        var cs := level.collisions;
        level.collisions := RemoveAt(cs, i);
        dirty := true;
        collisionTestBSPDirty := true;
      }
    }

    // -------------------------------------------------------------------------------------
    // editor_canvas.go: collision-test tool

    /** The first step of `handleCollisionTest`: a dirty or missing tree is rebuilt. */
    method RefreshCollisionBSP(partition: BspGeometry.Polygon -> Result<seq<BspGeometry.Polygon>>)
      requires Valid()
      modifies this`collisionTestBSP, this`collisionTestBSPDirty
      ensures Valid() && collisionTestBSP.Some?
      ensures old(collisionTestBSPDirty) || old(collisionTestBSP).None? ==>
        collisionTestBSP == Some(BspBuild.BuildLevel([], SolidOutlines(level.collisions), partition)) && !collisionTestBSPDirty
      ensures !(old(collisionTestBSPDirty) || old(collisionTestBSP).None?) ==>
        collisionTestBSP == old(collisionTestBSP) && collisionTestBSPDirty == old(collisionTestBSPDirty)
    {
      if collisionTestBSPDirty || collisionTestBSP.None? {
        BuildCollisionBSP(partition);
      }
    }

    /** `handleCollisionTest` at world position (worldX, worldY): rebuild a dirty or missing tree,
        then append one result holding the point test and, when there was an earlier result, the
        trace from it. */
    method HandleCollisionTest(worldX: real, worldY: real,
                               partition: BspGeometry.Polygon -> Result<seq<BspGeometry.Polygon>>)
      requires Valid()
      modifies this`collisionTestBSP, this`collisionTestBSPDirty, this`collisionTestPoints
      ensures Valid() && collisionTestBSP.Some?
      ensures old(collisionTestBSPDirty) || old(collisionTestBSP).None? ==>
        collisionTestBSP == Some(BspBuild.BuildLevel([], SolidOutlines(level.collisions), partition)) && !collisionTestBSPDirty
      ensures !(old(collisionTestBSPDirty) || old(collisionTestBSP).None?) ==>
        collisionTestBSP == old(collisionTestBSP) && collisionTestBSPDirty == old(collisionTestBSPDirty)
      ensures |collisionTestPoints| == |old(collisionTestPoints)| + 1
      ensures collisionTestPoints[..|old(collisionTestPoints)|] == old(collisionTestPoints)
      ensures var r := collisionTestPoints[|old(collisionTestPoints)|];
        var data := collisionTestBSP.value;
        var here := BspGeometry.Point(worldX, worldY);
        && r.worldX == worldX && r.worldY == worldY
        && r.isSolid == BspTree.PointInBSP(data.nodes, data.rootIndex, here)
        && (r.hasPrevious <==> |old(collisionTestPoints)| > 0)
        && (r.hasPrevious ==>
              var prev := old(collisionTestPoints)[|old(collisionTestPoints)| - 1];
              && r.prevWorldX == prev.worldX && r.prevWorldY == prev.worldY
              && BspTree.TraceHit(r.lineHit, r.lineHitX, r.lineHitY) ==
                   LineTraceBSP(BspGeometry.Point(prev.worldX, prev.worldY), here))
        && (!r.hasPrevious ==> !r.lineHit && r.lineHitX == 0.0 && r.lineHitY == 0.0 &&
                               r.prevWorldX == 0.0 && r.prevWorldY == 0.0)
    {
      RefreshCollisionBSP(partition);
      var point := BspGeometry.Point(worldX, worldY);
      var data := collisionTestBSP.value;
      var isSolid := BspTree.PointInBSP(data.nodes, data.rootIndex, point);
      var result := CollisionTestResult(worldX, worldY, isSolid, false, 0.0, 0.0, false, 0.0, 0.0);
      if |collisionTestPoints| > 0 {
        var prev := collisionTestPoints[|collisionTestPoints| - 1];
        var trace := LineTraceBSP(BspGeometry.Point(prev.worldX, prev.worldY), point);
        result := result.(hasPrevious := true, prevWorldX := prev.worldX, prevWorldY := prev.worldY,
                          lineHit := trace.hit, lineHitX := trace.x, lineHitY := trace.y);
      }
      collisionTestPoints := collisionTestPoints + [result];
    }

    // -------------------------------------------------------------------------------------
    // editor_canvas.go: mouse state in handleCanvasInput

    /** A secondary-button press starts panning from the mouse position. */
    method PressSecondary(x: real, y: real)
      modifies this`isPanning, this`lastMouseX, this`lastMouseY
      ensures isPanning && lastMouseX == x && lastMouseY == y
    {
      isPanning := true;
      lastMouseX := x;
      lastMouseY := y;
    }

    /** A release: panning stops unless the secondary button is still held, and any point move
        stops unless the primary button is still held. */
    method Release(secondaryHeld: bool, primaryHeld: bool)
      modifies this`isPanning, this`movingPointPolygonIndex, this`movingPointIndex
      ensures isPanning == (old(isPanning) && secondaryHeld)
      ensures !primaryHeld ==> movingPointPolygonIndex == -1 && movingPointIndex == -1
      ensures primaryHeld ==> movingPointPolygonIndex == old(movingPointPolygonIndex) && movingPointIndex == old(movingPointIndex)
    {
      if !secondaryHeld {
        isPanning := false;
      }
      if !primaryHeld {
        movingPointPolygonIndex := -1;
        movingPointIndex := -1;
      }
    }

    /** A drag while panning moves the view by the mouse's displacement. */
    method DragPan(x: real, y: real)
      modifies this`viewOffsetX, this`viewOffsetY, this`lastMouseX, this`lastMouseY
      ensures old(isPanning) ==>
        && viewOffsetX == old(viewOffsetX) + (x - old(lastMouseX)) && viewOffsetY == old(viewOffsetY) + (y - old(lastMouseY))
        && lastMouseX == x && lastMouseY == y
      ensures !old(isPanning) ==>
        viewOffsetX == old(viewOffsetX) && viewOffsetY == old(viewOffsetY) && lastMouseX == old(lastMouseX) && lastMouseY == old(lastMouseY)
    {
      if isPanning {
        var deltaX := x - lastMouseX;
        var deltaY := y - lastMouseY;
        viewOffsetX := viewOffsetX + deltaX;
        viewOffsetY := viewOffsetY + deltaY;
        lastMouseX := x;
        lastMouseY := y;
      }
    }

    /** A scroll of `scrollY` with the mouse at (relX, relY) from the canvas centre: the zoom is
        scaled by 1 + scrollY/10 within its limits, and the world point under the mouse stays
        where it was. */
    method Scroll(scrollY: real, relX: real, relY: real)
      requires Valid()
      modifies this`zoom, this`viewOffsetX, this`viewOffsetY
      ensures Valid()
      ensures zoom == ClampZoom(old(zoom) * (1.0 + scrollY * 0.1))
      ensures WorldUnder(relX, viewOffsetX, gridCellSize * zoom) == WorldUnder(relX, old(viewOffsetX), gridCellSize * old(zoom))
      ensures WorldUnder(relY, viewOffsetY, gridCellSize * zoom) == WorldUnder(relY, old(viewOffsetY), gridCellSize * old(zoom))
    {
      var zoomFactor := 1.0 + scrollY * 0.1;
      var newZoom := zoom * zoomFactor;
      if newZoom < MinZoom {
        newZoom := MinZoom;
      }
      if newZoom > MaxZoom {
        newZoom := MaxZoom;
      }
      ZoomTo(newZoom, relX, relY);
    }

    /** The second half of the scroll handler: the view is scaled about the mouse by the ratio
        of the new zoom to the old, then the new zoom is stored. */
    method ZoomTo(newZoom: real, relX: real, relY: real)
      requires Valid() && MinZoom <= newZoom <= MaxZoom
      modifies this`zoom, this`viewOffsetX, this`viewOffsetY
      ensures Valid() && zoom == newZoom
      ensures WorldUnder(relX, viewOffsetX, gridCellSize * zoom) == WorldUnder(relX, old(viewOffsetX), gridCellSize * old(zoom))
      ensures WorldUnder(relY, viewOffsetY, gridCellSize * zoom) == WorldUnder(relY, old(viewOffsetY), gridCellSize * old(zoom))
    {
      var zoomRatio := newZoom / zoom;
      ZoomKeepsWorldPoint(relX, viewOffsetX, zoom, newZoom, gridCellSize);
      ZoomKeepsWorldPoint(relY, viewOffsetY, zoom, newZoom, gridCellSize);
      viewOffsetX := ZoomAbout(viewOffsetX, relX, zoomRatio);
      viewOffsetY := ZoomAbout(viewOffsetY, relY, zoomRatio);
      zoom := newZoom;
    }

    // -------------------------------------------------------------------------------------
    // editor_ui.go

    /** The X key: deleting mode while held. */
    method KeyX(pressed: bool)
      modifies this`isDeleting
      ensures isDeleting == pressed
    {
      isDeleting := pressed;
    }

    /** The M key: moving mode while held; releasing it also drops the moving point. */
    method KeyM(pressed: bool)
      modifies this`isMoving, this`movingPointPolygonIndex, this`movingPointIndex
      ensures isMoving == pressed
      ensures !pressed ==> movingPointPolygonIndex == -1 && movingPointIndex == -1
      ensures pressed ==> movingPointPolygonIndex == old(movingPointPolygonIndex) && movingPointIndex == old(movingPointIndex)
    {
      isMoving := pressed;
      if !pressed {
        movingPointPolygonIndex := -1;
        movingPointIndex := -1;
      }
    }

    /** Pressing Escape clears the selection. */
    method PressEscape()
      modifies this`selectedPolygonIndex
      ensures selectedPolygonIndex == -1
    {
      selectedPolygonIndex := -1;
    }

    /** The close dialog's Save button: a save is attempted (a failure only keeps the level
        dirty), then the dialog hides and the window may close. */
    method CloseDialogSave(writeError: Option<string>)
      modifies this`dirty, this`showCloseDialog, this`shouldClose
      ensures dirty == (writeError.Some? && old(dirty))
      ensures !showCloseDialog && ShouldClose()
    {
      var err := Save(writeError);
      showCloseDialog := false;
      shouldClose := true;
    }

    /** The close dialog's Discard button. */
    method CloseDialogDiscard()
      modifies this`showCloseDialog, this`shouldClose
      ensures !showCloseDialog && ShouldClose()
    {
      showCloseDialog := false;
      shouldClose := true;
    }

    /** A tool button of the left bar: 0 ground, 1 collision, any other the collision test, which
        starts with an empty history. */
    method SelectTool(index: int)
      modifies this`currentTool, this`collisionTestPoints
      ensures index == 0 ==> currentTool == ToolGround && CurrentToolNeedsAssetView() && !CurrentToolNeedsCollisionList()
      ensures index == 1 ==> currentTool == ToolCollision && CurrentToolNeedsCollisionList() && !CurrentToolNeedsAssetView()
      ensures index != 0 && index != 1 ==>
        currentTool == ToolCollisionTest && collisionTestPoints == [] &&
        !CurrentToolNeedsAssetView() && !CurrentToolNeedsCollisionList()
      ensures index == 0 || index == 1 ==> collisionTestPoints == old(collisionTestPoints)
    {
      if index == 0 {
        currentTool := ToolGround;
      } else if index == 1 {
        currentTool := ToolCollision;
      } else {
        currentTool := ToolCollisionTest;
        collisionTestPoints := [];
      }
    }

    /** The polygon list grows its clickable entries until there is one per polygon. */
    method SyncCollisionButtons()
      modifies this`collisionButtons
      ensures collisionButtons == if old(collisionButtons) < |level.collisions| then |level.collisions| else old(collisionButtons)
    {
      while collisionButtons < |level.collisions|
        invariant old(collisionButtons) <= collisionButtons
        invariant old(collisionButtons) < |level.collisions| ==> collisionButtons <= |level.collisions|
        invariant old(collisionButtons) >= |level.collisions| ==> collisionButtons == old(collisionButtons)
        decreases |level.collisions| - collisionButtons
      {
        collisionButtons := collisionButtons + 1;
      }
    }

    /** Clicking entry `index` of the polygon list selects that polygon. */
    method ClickPolygonButton(index: int)
      requires 0 <= index < |level.collisions|
      modifies this`selectedPolygonIndex
      ensures selectedPolygonIndex == index && HasSelection()
    {
      selectedPolygonIndex := index;
    }

    /** "New Polygon": an empty outline is appended and selected. */
    method NewPolygon()
      modifies level`collisions, this`selectedPolygonIndex, this`dirty, this`collisionTestBSPDirty
      ensures level.collisions == old(level.collisions) + [Polygon([])]
      ensures selectedPolygonIndex == |level.collisions| - 1 && HasSelection()
      ensures dirty && collisionTestBSPDirty
    {
      level.collisions := level.collisions + [Polygon([])];
      selectedPolygonIndex := |level.collisions| - 1;
      dirty := true;
      MarkCollisionBSPDirty();
    }
  }
}
