/** What the editor's edits compute, as functions over the level's sequences: tile placement and
    deletion on a grid cell, removal from an outline or from the polygon list, snapping to the
    point grid, the ray-casting inside test, the topmost polygon under a point, and the outlines
    handed to the BSP builder. The `Editor` methods are proved against these. */
module LevelEdits {
  import BspGeometry
  import opened LevelTypes

  // ---------------------------------------------------------------------------------------
  // Ground tiles

  /** The index of the first tile on `cell`, or -1. */
  function FindTile(ground: seq<Tile>, cell: Vec2i): (i: int)
    ensures -1 <= i < |ground|
    ensures i >= 0 ==> ground[i].position == cell && forall j :: 0 <= j < i ==> ground[j].position != cell
    ensures i == -1 ==> forall j :: 0 <= j < |ground| ==> ground[j].position != cell
  {
    if |ground| == 0 then -1
    else if ground[0].position == cell then 0
    else
      var rest := FindTile(ground[1..], cell);
      if rest < 0 then -1 else rest + 1
  }

  /** No two tiles share a cell. */
  predicate UniquePositions(ground: seq<Tile>) {
    forall i, j :: 0 <= i < j < |ground| ==> ground[i].position != ground[j].position
  }

  /** Placing `texture` on `cell`: the first tile there is replaced when its texture differs;
      an empty cell gets a new tile at the end. */
  function PlaceTile(ground: seq<Tile>, cell: Vec2i, texture: string): seq<Tile> {
    var i := FindTile(ground, cell);
    if i < 0 then ground + [Tile(cell, texture)]
    else if ground[i].texture != texture then ground[i := Tile(cell, texture)]
    else ground
  }

  /** Whether placing changes the ground (and so marks the level dirty). */
  predicate PlaceChanges(ground: seq<Tile>, cell: Vec2i, texture: string) {
    var i := FindTile(ground, cell);
    i < 0 || ground[i].texture != texture
  }

  /** After placing, the cell shows the texture; every other cell shows what it showed before;
      the ground grows by one tile exactly when the cell was empty; no change means no edit; and
      tiles stay one per cell. */
  lemma PlaceTileProperties(ground: seq<Tile>, cell: Vec2i, texture: string)
    ensures var r := PlaceTile(ground, cell, texture);
      && FindTile(r, cell) >= 0 && r[FindTile(r, cell)] == Tile(cell, texture)
      && (forall c :: c != cell ==> FindTile(r, c) == FindTile(ground, c))
      && (forall j :: 0 <= j < |ground| && ground[j].position != cell ==> r[j] == ground[j])
      && (|r| == |ground| + 1 <==> FindTile(ground, cell) < 0)
      && (|r| == |ground| <==> FindTile(ground, cell) >= 0)
      && (!PlaceChanges(ground, cell, texture) ==> r == ground)
      && (UniquePositions(ground) ==> UniquePositions(r))
  {
    var r := PlaceTile(ground, cell, texture);
    var i := FindTile(ground, cell);
    forall c | c != cell
      ensures FindTile(r, c) == FindTile(ground, c)
    {
      FindTileSamePositions(ground, r, c, cell);
    }
    if i < 0 {
      assert r[|ground|] == Tile(cell, texture);
      assert forall j :: 0 <= j < |ground| ==> r[j] == ground[j];
    } else {
      FindTileSamePositions(ground, r, cell, cell);
    }
  }

  /** Two ground lists that agree on the positions of their first |a| tiles, where `b` adds at
      most tiles on `other`, agree on where the first tile of any cell but `other` is. */
  lemma FindTileSamePositions(a: seq<Tile>, b: seq<Tile>, c: Vec2i, other: Vec2i)
    requires |a| <= |b|
    requires forall j :: 0 <= j < |a| ==> b[j].position == a[j].position
    requires forall j :: |a| <= j < |b| ==> b[j].position == other
    requires c != other || |a| == |b|
    ensures FindTile(b, c) == FindTile(a, c)
  {
    var ia, ib := FindTile(a, c), FindTile(b, c);
    if ia >= 0 {
      assert b[ia].position == c;
    }
    if ib >= 0 && ib < |a| {
      assert a[ib].position == c;
    }
  }

  /** Removing element i by moving the last element into its slot and truncating. */
  function SwapRemove<T>(s: seq<T>, i: int): seq<T>
    requires 0 <= i < |s|
  {
    s[i := s[|s| - 1]][..|s| - 1]
  }

  /** Swap-removal drops exactly one copy of the element, keeps every other slot but i, and puts
      the former last element in slot i. */
  lemma SwapRemoveProperties<T>(s: seq<T>, i: int)
    requires 0 <= i < |s|
    ensures |SwapRemove(s, i)| == |s| - 1
    ensures multiset(SwapRemove(s, i)) == multiset(s) - multiset{s[i]}
    ensures forall j :: 0 <= j < |s| - 1 && j != i ==> SwapRemove(s, i)[j] == s[j]
    ensures i < |s| - 1 ==> SwapRemove(s, i)[i] == s[|s| - 1]
  {
    var last := |s| - 1;
    var u := s[i := s[last]];
    var r := u[..last];
    assert r == SwapRemove(s, i);
    if i == last {
      assert s == r + [s[i]];
    } else {
      var front, middle := s[..i], s[i + 1..last];
      assert u == front + [s[last]] + middle + [s[last]];
      assert r == front + [s[last]] + middle;
      assert s == front + [s[i]] + middle + [s[last]];
      SwapRemoveCount(front, middle, s[i], s[last]);
    }
  }

  lemma SwapRemoveCount<T>(front: seq<T>, middle: seq<T>, x: T, y: T)
    ensures multiset(front + [y] + middle) == multiset(front + [x] + middle + [y]) - multiset{x}
  {
    assert multiset(front + [y] + middle) == multiset(front) + multiset{y} + multiset(middle);
    assert multiset(front + [x] + middle + [y]) == multiset(front) + multiset{x} + multiset(middle) + multiset{y};
  }

  /** Deleting the tile of a cell: the first tile there is swap-removed; no tile, no change. */
  function DeleteTile(ground: seq<Tile>, cell: Vec2i): seq<Tile> {
    var i := FindTile(ground, cell);
    if i < 0 then ground else SwapRemove(ground, i)
  }

  /** Deletion drops one tile as a multiset, or nothing when the cell is empty; with one tile per
      cell the cell is empty afterwards and tiles stay one per cell. */
  lemma DeleteTileProperties(ground: seq<Tile>, cell: Vec2i)
    ensures var r := DeleteTile(ground, cell);
      var i := FindTile(ground, cell);
      && (i < 0 ==> r == ground)
      && (i >= 0 ==> |r| == |ground| - 1 && multiset(r) == multiset(ground) - multiset{ground[i]})
      && (UniquePositions(ground) ==> UniquePositions(r) && FindTile(r, cell) == -1)
  {
    var i := FindTile(ground, cell);
    if i >= 0 {
      var r := SwapRemove(ground, i);
      SwapRemoveProperties(ground, i);
      if UniquePositions(ground) {
        var last := |ground| - 1;
        assert forall j :: 0 <= j < |r| ==> r[j] == (if j == i then ground[last] else ground[j]);
        forall j | 0 <= j < |r|
          ensures r[j].position != cell
        {
          if j == i {
            assert ground[last].position != ground[i].position;
          } else {
            assert ground[j].position != ground[i].position;
          }
        }
      }
    }
  }

  // ---------------------------------------------------------------------------------------
  // Outlines and the polygon list

  /** Removing element i and closing the gap (`append(s[:i], s[i+1:]...)`). */
  function RemoveAt<T>(s: seq<T>, i: int): seq<T>
    requires 0 <= i < |s|
  {
    s[..i] + s[i + 1..]
  }

  /** Removal keeps the order of everything else: the elements before i stay, those after move
      down by one. */
  lemma RemoveAtProperties<T>(s: seq<T>, i: int)
    requires 0 <= i < |s|
    ensures var r := RemoveAt(s, i);
      && |r| == |s| - 1
      && (forall j :: 0 <= j < i ==> r[j] == s[j])
      && (forall j :: i <= j < |r| ==> r[j] == s[j + 1])
      && multiset(r) == multiset(s) - multiset{s[i]}
  {
    assert s == s[..i] + [s[i]] + s[i + 1..];
  }

  // ---------------------------------------------------------------------------------------
  // Snapping

  /** `math.Round`: to the nearest integer, halves away from zero. */
  function Round(v: real): (k: int)
    ensures -0.5 <= k as real - v <= 0.5
    ensures k as real - v == 0.5 ==> v >= 0.0
    ensures k as real - v == -0.5 ==> v < 0.0
  {
    if v >= 0.0 then (v + 0.5).Floor else -((-v + 0.5).Floor)
  }

  /** `snapToGrid`: the nearest multiple of `gridSize`. */
  function SnapToGrid(value: real, gridSize: real): real
    requires gridSize != 0.0
  {
    (Round(value / gridSize) as real) * gridSize
  }

  function Abs(v: real): real {
    if v < 0.0 then -v else v
  }

  /** A snapped coordinate is a whole multiple of the grid size, at most half a cell away from
      the input, and snapping it again changes nothing. */
  lemma SnapToGridProperties(value: real, gridSize: real)
    requires gridSize != 0.0
    ensures var r := SnapToGrid(value, gridSize);
      && (r / gridSize).Floor as real == r / gridSize
      && Abs(r - value) <= Abs(gridSize) / 2.0
      && SnapToGrid(r, gridSize) == r
  {
    SnapQuotient(value, gridSize);
    var k := Round(value / gridSize);
    assert (k as real).Floor == k;
    SnapAgain(value, gridSize);
    SnapWithinHalf(value, gridSize);
  }

  /** The snapped value divided by the grid size is the rounded quotient. */
  lemma SnapQuotient(value: real, gridSize: real)
    requires gridSize != 0.0
    ensures SnapToGrid(value, gridSize) / gridSize == Round(value / gridSize) as real
  {
    MulDiv(Round(value / gridSize) as real, gridSize);
  }

  lemma SnapAgain(value: real, gridSize: real)
    requires gridSize != 0.0
    ensures SnapToGrid(SnapToGrid(value, gridSize), gridSize) == SnapToGrid(value, gridSize)
  {
    var k := Round(value / gridSize);
    SnapQuotient(value, gridSize);
    RoundWhole(k);
  }

  lemma MulDiv(a: real, b: real)
    requires b != 0.0
    ensures (a * b) / b == a
  {
  }

  /** Rounding moves the quotient by at most one half, so the snapped value moves by at most
      half a cell. */
  lemma SnapWithinHalf(value: real, gridSize: real)
    requires gridSize != 0.0
    ensures Abs(SnapToGrid(value, gridSize) - value) <= Abs(gridSize) / 2.0
  {
    var q := value / gridSize;
    var k := Round(q);
    var r := SnapToGrid(value, gridSize);
    assert r == k as real * gridSize;
    assert value == q * gridSize;
    var d := k as real - q;
    assert r - value == d * gridSize;
    assert Abs(r - value) == Abs(d) * Abs(gridSize) by {
      AbsProduct(d, gridSize);
    }
    assert Abs(d) <= 0.5;
    assert Abs(d) * Abs(gridSize) <= 0.5 * Abs(gridSize) by {
      MulMono(Abs(d), 0.5, Abs(gridSize));
    }
  }

  lemma AbsProduct(a: real, b: real)
    ensures Abs(a * b) == Abs(a) * Abs(b)
  {
    if a < 0.0 && b < 0.0 {
      assert a * b == (-a) * (-b);
    } else if a < 0.0 {
      assert -(a * b) == (-a) * b;
    } else if b < 0.0 {
      assert -(a * b) == a * (-b);
    }
  }

  lemma MulMono(a: real, b: real, c: real)
    requires a <= b && c >= 0.0
    ensures a * c <= b * c
  {
    assert b * c - a * c == (b - a) * c;
  }

  lemma RoundWhole(k: int)
    ensures Round(k as real) == k
  {
    if k >= 0 {
      assert (k as real + 0.5).Floor == k;
    } else {
      assert (-(k as real) + 0.5).Floor == -k;
    }
  }

  // ---------------------------------------------------------------------------------------
  // Inside test and polygon picking

  /** One step of the ray-casting test: the edge from b to a crosses the horizontal ray going
      right from (x, y). */
  predicate Toggles(x: real, y: real, a: Vec2, b: Vec2) {
    ((a.y > y) != (b.y > y)) && x < (b.x - a.x) * (y - a.y) / (b.y - a.y) + a.x
  }

  /** The index before i, wrapping to the last index. */
  function Prev(n: nat, i: nat): nat
    requires i < n
  {
    if i == 0 then n - 1 else i - 1
  }

  /** The number of the first k edges that the ray crosses. */
  function Crossings(x: real, y: real, poly: seq<Vec2>, k: nat): nat
    requires k <= |poly|
  {
    if k == 0 then 0
    else Crossings(x, y, poly, k - 1) + (if Toggles(x, y, poly[k - 1], poly[Prev(|poly|, k - 1)]) then 1 else 0)
  }

  /** Inside by the even-odd rule; never inside an outline of fewer than three points. */
  predicate Inside(x: real, y: real, poly: seq<Vec2>) {
    |poly| >= 3 && Crossings(x, y, poly, |poly|) % 2 == 1
  }

  /** A point level with or beyond every vertex in y, or below all of them, crosses no edge and so
      is not inside. */
  lemma {:induction false} OutsideVerticalExtent(x: real, y: real, poly: seq<Vec2>, k: nat)
    requires k <= |poly|
    requires (forall i :: 0 <= i < |poly| ==> poly[i].y <= y) || (forall i :: 0 <= i < |poly| ==> poly[i].y > y)
    ensures Crossings(x, y, poly, k) == 0
    ensures k == |poly| ==> !Inside(x, y, poly)
  {
    if k > 0 {
      OutsideVerticalExtent(x, y, poly, k - 1);
      assert !Toggles(x, y, poly[k - 1], poly[Prev(|poly|, k - 1)]);
    }
  }

  /** A polygon the select and delete tools can pick at (x, y). */
  predicate Selectable(p: Polygon, x: real, y: real) {
    |p.outline| >= 3 && Inside(x, y, p.outline)
  }

  /** The highest index of a pickable polygon, or -1. */
  function Topmost(cs: seq<Polygon>, x: real, y: real): (r: int)
    ensures -1 <= r < |cs|
    ensures r >= 0 ==> Selectable(cs[r], x, y) && forall j :: r < j < |cs| ==> !Selectable(cs[j], x, y)
    ensures r == -1 ==> forall j :: 0 <= j < |cs| ==> !Selectable(cs[j], x, y)
  {
    if |cs| == 0 then -1
    else if Selectable(cs[|cs| - 1], x, y) then |cs| - 1
    else Topmost(cs[..|cs| - 1], x, y)
  }

  // ---------------------------------------------------------------------------------------
  // Outlines handed to the BSP builder

  function ToPoint(v: Vec2): BspGeometry.Point {
    BspGeometry.Point(v.x, v.y)
  }

  /** A collision outline as a solid BSP polygon with the same vertices in order. */
  function ToBspPolygon(c: Polygon): BspGeometry.Polygon {
    BspGeometry.Polygon(seq(|c.outline|, i requires 0 <= i < |c.outline| => ToPoint(c.outline[i])), true)
  }

  /** The outlines of at least three points, in order, as solid BSP polygons. */
  function SolidOutlines(cs: seq<Polygon>): (r: seq<BspGeometry.Polygon>)
    ensures |r| <= |cs|
    ensures forall q :: q in r ==> q.isSolid && |q.vertices| >= 3
  {
    if |cs| == 0 then []
    else
      var before := SolidOutlines(cs[..|cs| - 1]);
      var c := cs[|cs| - 1];
      if |c.outline| >= 3 then before + [ToBspPolygon(c)] else before
  }

  /** The builder receives exactly the outlines of at least three points, each solid and with
      the outline's vertices in order. */
  lemma {:induction false} SolidOutlinesMembers(cs: seq<Polygon>, q: BspGeometry.Polygon)
    ensures q in SolidOutlines(cs) <==> exists i :: 0 <= i < |cs| && |cs[i].outline| >= 3 && q == ToBspPolygon(cs[i])
  {
    if |cs| > 0 {
      var front := cs[..|cs| - 1];
      SolidOutlinesMembers(front, q);
      if q in SolidOutlines(cs) && q !in SolidOutlines(front) {
        assert |cs[|cs| - 1].outline| >= 3 && q == ToBspPolygon(cs[|cs| - 1]);
      }
      if exists i :: 0 <= i < |cs| && |cs[i].outline| >= 3 && q == ToBspPolygon(cs[i]) {
        var i :| 0 <= i < |cs| && |cs[i].outline| >= 3 && q == ToBspPolygon(cs[i]);
        if i < |cs| - 1 {
          assert front[i] == cs[i];
        }
      }
    }
  }

  /** When every outline has at least three points, none is dropped and the order is kept. */
  lemma {:induction false} SolidOutlinesAll(cs: seq<Polygon>)
    requires forall i :: 0 <= i < |cs| ==> |cs[i].outline| >= 3
    ensures SolidOutlines(cs) == seq(|cs|, i requires 0 <= i < |cs| => ToBspPolygon(cs[i]))
  {
    if |cs| > 0 {
      SolidOutlinesAll(cs[..|cs| - 1]);
    }
  }
}
