/** The level document the editor changes: ground tiles and collision outlines. Coordinates are
    reals (float32 in the source) and grid cells unbounded integers (int32 in the source). */
module LevelTypes {
  /** A world position; one unit is one tile. */
  datatype Vec2 = Vec2(x: real, y: real)

  /** A grid cell. */
  datatype Vec2i = Vec2i(x: int, y: int)

  datatype Tile = Tile(position: Vec2i, texture: string)

  /** A collision shape given by its outline. */
  datatype Polygon = Polygon(outline: seq<Vec2>)

  /** One click of the collision-test tool: the point test and, from the second click on, the
      line trace from the previous click. */
  datatype CollisionTestResult = CollisionTestResult(
    worldX: real, worldY: real, isSolid: bool,
    hasPrevious: bool, prevWorldX: real, prevWorldY: real,
    lineHit: bool, lineHitX: real, lineHitY: real)

  /** `Level`, of which the editor changes the ground and the collisions in place. Objects, spawns
      and portals are carried by the document but never edited here. */
  class Level {
    var ground: seq<Tile>
    var collisions: seq<Polygon>

    constructor (ground: seq<Tile>, collisions: seq<Polygon>)
      ensures this.ground == ground && this.collisions == collisions
    {
      this.ground := ground;
      this.collisions := collisions;
    }
  }
}
