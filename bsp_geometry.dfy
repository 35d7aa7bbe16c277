/** Plane geometry used by the BSP builder: points, polygons, lines in the form
    `normal . p = distance`, the shoelace area and winding normalisation, and the
    classification and splitting of polygons against a line. Coordinates are reals. */
module BspGeometry {
  import opened Wrappers

  datatype Point = Point(x: real, y: real)

  /** A collision polygon; `isSolid` is false for empty space. */
  datatype Polygon = Polygon(vertices: seq<Point>, isSolid: bool)

  /** The line `nx * x + ny * y == distance`; its front side is where the left-hand side is larger. */
  datatype Line = Line(nx: real, ny: real, distance: real)

  /** The tolerance used by every classification against a line. */
  const Epsilon: real := 0.0001

  /** Signed offset of `p` from the line: positive in front, negative behind, zero on it. */
  function PointSide(l: Line, p: Point): real {
    l.nx * p.x + l.ny * p.y - l.distance
  }

  /** 1 in front, -1 behind, 0 within `Epsilon` of the line. */
  function ClassifyPoint(l: Line, p: Point): (r: int)
    ensures r == 1 <==> PointSide(l, p) > Epsilon
    ensures r == -1 <==> PointSide(l, p) < -Epsilon
    ensures r == 0 <==> -Epsilon <= PointSide(l, p) <= Epsilon
  {
    var side := PointSide(l, p);
    if side > Epsilon then 1 else if side < -Epsilon then -1 else 0
  }

  /** Twice the signed area of the triangle (o, a, b): positive when b lies to the left of the
      directed line o -> a. */
  function Cross(o: Point, a: Point, b: Point): real {
    (a.x - o.x) * (b.y - o.y) - (a.y - o.y) * (b.x - o.x)
  }

  // ---------------------------------------------------------------------------------------
  // Shoelace area and winding

  /** One shoelace term for the edge a -> b. */
  function Term(a: Point, b: Point): real {
    a.x * b.y - b.x * a.y
  }

  /** The vertex that closes edge i, wrapping around to the first vertex. */
  function Next(vs: seq<Point>, i: nat): Point
    requires i < |vs|
  {
    vs[(i + 1) % |vs|]
  }

  lemma ModNext(i: int, n: int)
    requires 0 <= i < n
    ensures (i + 1) % n == if i + 1 < n then i + 1 else 0
  {
  }

  /** Sum of the shoelace terms of the first k edges in the order the source loop visits them. */
  function ShoelaceSum(vs: seq<Point>, k: nat): real
    requires k <= |vs|
  {
    if k == 0 then 0.0 else ShoelaceSum(vs, k - 1) + Term(vs[k - 1], Next(vs, k - 1))
  }

  /** The signed area: positive for counter-clockwise winding, zero below three vertices. */
  function Area(vs: seq<Point>): real {
    if |vs| < 3 then 0.0 else ShoelaceSum(vs, |vs|) / 2.0
  }

  /** Sum of the shoelace terms along the open path vs[0] -> ... -> vs[|vs|-1]. */
  function Chain(vs: seq<Point>): real {
    if |vs| < 2 then 0.0 else Term(vs[0], vs[1]) + Chain(vs[1..])
  }

  function Reverse(vs: seq<Point>): (r: seq<Point>)
    ensures |r| == |vs|
    ensures forall i :: 0 <= i < |vs| ==> r[i] == vs[|vs| - 1 - i]
  {
    seq(|vs|, i requires 0 <= i < |vs| => vs[|vs| - 1 - i])
  }

  lemma ReverseCons(a: Point, rest: seq<Point>)
    ensures Reverse([a] + rest) == Reverse(rest) + [a]
  {
    var l, r := Reverse([a] + rest), Reverse(rest) + [a];
    assert |l| == |r|;
    forall i | 0 <= i < |l| ensures l[i] == r[i] {
      if i < |rest| {
        assert l[i] == ([a] + rest)[|rest| - i];
      }
    }
  }

  lemma {:induction false} ChainAppend(vs: seq<Point>, x: Point)
    requires |vs| >= 1
    ensures Chain(vs + [x]) == Chain(vs) + Term(vs[|vs| - 1], x)
  {
    if |vs| == 1 {
      assert (vs + [x])[1..] == [x];
    } else {
      assert (vs + [x])[1..] == vs[1..] + [x];
      ChainAppend(vs[1..], x);
    }
  }

  lemma {:induction false} ChainReverse(vs: seq<Point>)
    ensures Chain(Reverse(vs)) == -Chain(vs)
  {
    if |vs| >= 2 {
      var a, rest := vs[0], vs[1..];
      assert vs == [a] + rest;
      ReverseCons(a, rest);
      ChainReverse(rest);
      ChainAppend(Reverse(rest), a);
      assert Reverse(rest)[|rest| - 1] == rest[0];
      assert Term(rest[0], a) == -Term(a, rest[0]);
    }
  }

  lemma {:induction false} ShoelacePrefix(vs: seq<Point>, k: nat)
    requires k < |vs|
    ensures ShoelaceSum(vs, k) == Chain(vs[..k + 1])
  {
    if k == 0 {
      assert vs[..1] == [vs[0]];
    } else {
      ShoelacePrefix(vs, k - 1);
      assert vs[..k + 1] == vs[..k] + [vs[k]];
      ChainAppend(vs[..k], vs[k]);
      ModNext(k - 1, |vs|);
      var t := Term(vs[k - 1], vs[k]);
      assert ShoelaceSum(vs, k) == ShoelaceSum(vs, k - 1) + t;
      assert Chain(vs[..k + 1]) == Chain(vs[..k]) + t;
    }
  }

  /** The cyclic shoelace sum is the open chain plus the closing edge. */
  lemma ShoelaceClosed(vs: seq<Point>)
    requires |vs| >= 1
    ensures ShoelaceSum(vs, |vs|) == Chain(vs) + Term(vs[|vs| - 1], vs[0])
  {
    var n := |vs|;
    ShoelacePrefix(vs, n - 1);
    assert vs[..n] == vs;
    ModNext(n - 1, n);
  }

  /** Reversing the vertex order negates the signed area. */
  lemma AreaOfReverse(vs: seq<Point>)
    ensures Area(Reverse(vs)) == -Area(vs)
  {
    var n := |vs|;
    if n >= 3 {
      var r := Reverse(vs);
      ShoelaceClosed(vs);
      ShoelaceClosed(r);
      ChainReverse(vs);
      assert Term(r[n - 1], r[0]) == -Term(vs[n - 1], vs[0]);
    }
  }

  /** `signedArea`: the shoelace loop. */
  method SignedArea(poly: Polygon) returns (area: real)
    ensures area == Area(poly.vertices)
  {
    var vs := poly.vertices;
    var n := |vs|;
    if n < 3 {
      return 0.0;
    }
    area := 0.0;
    var i := 0;
    while i < n
      invariant 0 <= i <= n
      invariant area == ShoelaceSum(vs, i)
    {
      var j := (i + 1) % n;
      area := area + vs[i].x * vs[j].y;
      area := area - vs[j].x * vs[i].y;
      i := i + 1;
    }
    area := area / 2.0;
  }

  /** `isCCW`: counter-clockwise means a strictly positive signed area. */
  method IsCCW(poly: Polygon) returns (ccw: bool)
    ensures ccw <==> Area(poly.vertices) > 0.0
  {
    var area := SignedArea(poly);
    ccw := area > 0.0;
  }

  /** What `ensureCCW` returns. */
  function CCW(poly: Polygon): Polygon {
    if Area(poly.vertices) > 0.0 then poly else Polygon(Reverse(poly.vertices), poly.isSolid)
  }

  /** After normalisation the signed area is the absolute value of the original one, so it is
      never negative; the vertex count and the solidity are kept. */
  lemma CCWProperties(poly: Polygon)
    ensures |CCW(poly).vertices| == |poly.vertices|
    ensures CCW(poly).isSolid == poly.isSolid
    ensures Area(CCW(poly).vertices) == if Area(poly.vertices) > 0.0 then Area(poly.vertices) else -Area(poly.vertices)
    ensures Area(CCW(poly).vertices) >= 0.0
  {
    AreaOfReverse(poly.vertices);
  }

  /** `ensureCCW`: a counter-clockwise polygon is returned as is, any other one with its vertex list
      reversed into a new array. */
  method EnsureCCW(poly: Polygon) returns (r: Polygon)
    ensures r == CCW(poly)
  {
    var ccw := IsCCW(poly);
    if ccw {
      return poly;
    }
    var vs := poly.vertices;
    var n := |vs|;
    var reversed := new Point[n](_ => Point(0.0, 0.0));
    var i := 0;
    while i < n
      invariant 0 <= i <= n
      invariant forall k :: 0 <= k < i ==> reversed[k] == vs[n - 1 - k]
    {
      reversed[i] := vs[n - 1 - i];
      i := i + 1;
    }
    assert reversed[..] == Reverse(vs);
    r := Polygon(reversed[..], poly.isSolid);
  }

  // ---------------------------------------------------------------------------------------
  // Edge lines of a polygon

  /** The line through edge k of `vs` with the unnormalised normal (edge.y, -edge.x), which points
      to the right of the directed edge, as `buildEdgeTest` sets it up. */
  function EdgeLine(vs: seq<Point>, k: nat): Line
    requires k < |vs|
  {
    var v1, v2 := vs[k], Next(vs, k);
    var ex, ey := v2.x - v1.x, v2.y - v1.y;
    Line(ey, -ex, ey * v1.x + -ex * v1.y)
  }

  /** The side of a point with respect to an edge line is minus its cross product with the edge:
      it is at most zero exactly when the point is on or to the left of the directed edge. */
  lemma EdgeSideIsCross(vs: seq<Point>, k: nat, p: Point)
    requires k < |vs|
    ensures PointSide(EdgeLine(vs, k), p) == -Cross(vs[k], Next(vs, k), p)
    ensures PointSide(EdgeLine(vs, k), p) <= 0.0 <==> Cross(vs[k], Next(vs, k), p) >= 0.0
  {
    var v1, v2 := vs[k], Next(vs, k);
    var ex, ey := v2.x - v1.x, v2.y - v1.y;
    calc {
      PointSide(EdgeLine(vs, k), p);
      ey * p.x + -ex * p.y - (ey * v1.x + -ex * v1.y);
      ey * (p.x - v1.x) - ex * (p.y - v1.y);
      -Cross(v1, v2, p);
    }
  }

  /** A point that is on or to the left of every directed edge: for a counter-clockwise convex
      polygon, the closed interior. */
  ghost predicate InsideAllEdges(vs: seq<Point>, p: Point) {
    forall j :: 0 <= j < |vs| ==> Cross(vs[j], Next(vs, j), p) >= 0.0
  }

  /** `selectSplitLine`: the line through the first edge of the first polygon, with normal
      (-edge.y, edge.x) pointing to its left; the horizontal line through the origin when there is
      no such edge. */
  function SelectSplitLine(polygons: seq<Polygon>): (l: Line)
    ensures (|polygons| == 0 || |polygons[0].vertices| < 2) ==> l == Line(0.0, 1.0, 0.0)
    ensures |polygons| > 0 && |polygons[0].vertices| >= 2 ==>
      var vs := polygons[0].vertices;
      PointSide(l, vs[0]) == 0.0 && PointSide(l, vs[1]) == 0.0 &&
      forall p :: PointSide(l, p) == Cross(vs[0], vs[1], p)
  {
    if |polygons| == 0 || |polygons[0].vertices| < 2 then
      Line(0.0, 1.0, 0.0)
    else
      var v1, v2 := polygons[0].vertices[0], polygons[0].vertices[1];
      var ex, ey := v2.x - v1.x, v2.y - v1.y;
      Line(-ey, ex, -ey * v1.x + ex * v1.y)
  }

  // ---------------------------------------------------------------------------------------
  // Classifying a polygon against a line

  datatype PolygonClassification = PolygonFront | PolygonBack | PolygonSpanning | PolygonCoplanar

  /** Number of the first k vertices strictly more than `Epsilon` in front of the line. */
  function FrontCount(vs: seq<Point>, l: Line, k: nat): nat
    requires k <= |vs|
  {
    if k == 0 then 0 else FrontCount(vs, l, k - 1) + (if PointSide(l, vs[k - 1]) > Epsilon then 1 else 0)
  }

  /** Number of the first k vertices strictly more than `Epsilon` behind the line. */
  function BackCount(vs: seq<Point>, l: Line, k: nat): nat
    requires k <= |vs|
  {
    if k == 0 then 0 else BackCount(vs, l, k - 1) + (if PointSide(l, vs[k - 1]) < -Epsilon then 1 else 0)
  }

  function Classification(vs: seq<Point>, l: Line): PolygonClassification {
    if |vs| == 0 then PolygonCoplanar
    else
      var f, b := FrontCount(vs, l, |vs|), BackCount(vs, l, |vs|);
      if f > 0 && b > 0 then PolygonSpanning
      else if f > 0 then PolygonFront
      else if b > 0 then PolygonBack
      else PolygonCoplanar
  }

  /** `classifyPolygon`: the counting loop. */
  method ClassifyPolygon(poly: Polygon, l: Line) returns (c: PolygonClassification)
    ensures c == Classification(poly.vertices, l)
  {
    var vs := poly.vertices;
    if |vs| == 0 {
      return PolygonCoplanar;
    }
    var frontCount, backCount := 0, 0;
    var i := 0;
    while i < |vs|
      invariant 0 <= i <= |vs|
      invariant frontCount == FrontCount(vs, l, i) && backCount == BackCount(vs, l, i)
    {
      var side := PointSide(l, vs[i]);
      if side > Epsilon {
        frontCount := frontCount + 1;
      } else if side < -Epsilon {
        backCount := backCount + 1;
      }
      i := i + 1;
    }
    if frontCount > 0 && backCount > 0 {
      c := PolygonSpanning;
    } else if frontCount > 0 {
      c := PolygonFront;
    } else if backCount > 0 {
      c := PolygonBack;
    } else {
      c := PolygonCoplanar;
    }
  }

  lemma {:induction false} FrontCountPositive(vs: seq<Point>, l: Line, k: nat)
    requires k <= |vs|
    ensures FrontCount(vs, l, k) > 0 <==> exists i :: 0 <= i < k && PointSide(l, vs[i]) > Epsilon
  {
    if k > 0 {
      FrontCountPositive(vs, l, k - 1);
    }
  }

  lemma {:induction false} BackCountPositive(vs: seq<Point>, l: Line, k: nat)
    requires k <= |vs|
    ensures BackCount(vs, l, k) > 0 <==> exists i :: 0 <= i < k && PointSide(l, vs[i]) < -Epsilon
  {
    if k > 0 {
      BackCountPositive(vs, l, k - 1);
    }
  }

  /** The classification in terms of the vertices: spanning iff some vertex is clearly in front
      and some clearly behind; front (back) iff some vertex is clearly in front (behind) and none
      clearly behind (in front); coplanar iff every vertex is within `Epsilon` of the line, which
      includes the polygon without vertices. */
  lemma ClassificationMeaning(vs: seq<Point>, l: Line)
    ensures var front := exists i :: 0 <= i < |vs| && PointSide(l, vs[i]) > Epsilon;
            var back := exists i :: 0 <= i < |vs| && PointSide(l, vs[i]) < -Epsilon;
            && (Classification(vs, l) == PolygonSpanning <==> front && back)
            && (Classification(vs, l) == PolygonFront <==> front && !back)
            && (Classification(vs, l) == PolygonBack <==> !front && back)
            && (Classification(vs, l) == PolygonCoplanar <==> !front && !back)
  {
    FrontCountPositive(vs, l, |vs|);
    BackCountPositive(vs, l, |vs|);
  }

  /** A one-vertex polygon is classified exactly as its vertex. */
  lemma ClassifySingleVertex(v: Point, l: Line)
    ensures Classification([v], l) == match ClassifyPoint(l, v)
      case 1 => PolygonFront
      case -1 => PolygonBack
      case _ => PolygonCoplanar
  {
    ClassificationMeaning([v], l);
  }

  // ---------------------------------------------------------------------------------------
  // Splitting a polygon by a line

  /** An edge whose endpoints lie clearly on opposite sides of the line. */
  predicate Crosses(s1: real, s2: real) {
    (s1 > Epsilon && s2 < -Epsilon) || (s1 < -Epsilon && s2 > Epsilon)
  }

  /** The point where edge a -> b meets the line, given the sides s1, s2 of its endpoints. */
  function Intersection(a: Point, b: Point, s1: real, s2: real): Point
    requires s1 != s2
  {
    var t := s1 / (s1 - s2);
    Point(a.x + t * (b.x - a.x), a.y + t * (b.y - a.y))
  }

  /** What edge i contributes to the front vertex list. */
  function FrontPart(vs: seq<Point>, l: Line, i: nat): seq<Point>
    requires i < |vs|
  {
    var v1, v2 := vs[i], Next(vs, i);
    var s1, s2 := PointSide(l, v1), PointSide(l, v2);
    (if s1 > Epsilon then [v1] else if s1 < -Epsilon then [] else [v1])
    + (if Crosses(s1, s2) then [Intersection(v1, v2, s1, s2)] else [])
  }

  /** What edge i contributes to the back vertex list. */
  function BackPart(vs: seq<Point>, l: Line, i: nat): seq<Point>
    requires i < |vs|
  {
    var v1, v2 := vs[i], Next(vs, i);
    var s1, s2 := PointSide(l, v1), PointSide(l, v2);
    (if s1 > Epsilon then [] else if s1 < -Epsilon then [v1] else [v1])
    + (if Crosses(s1, s2) then [Intersection(v1, v2, s1, s2)] else [])
  }

  function FrontVerts(vs: seq<Point>, l: Line, k: nat): seq<Point>
    requires k <= |vs|
  {
    if k == 0 then [] else FrontVerts(vs, l, k - 1) + FrontPart(vs, l, k - 1)
  }

  function BackVerts(vs: seq<Point>, l: Line, k: nat): seq<Point>
    requires k <= |vs|
  {
    if k == 0 then [] else BackVerts(vs, l, k - 1) + BackPart(vs, l, k - 1)
  }

  /** What `splitPolygon` returns; `None` stands for a nil polygon. */
  function Split(poly: Polygon, l: Line): (Option<Polygon>, Option<Polygon>) {
    var vs := poly.vertices;
    if |vs| < 3 then (None, None)
    else
      var fv, bv := FrontVerts(vs, l, |vs|), BackVerts(vs, l, |vs|);
      (if |fv| >= 3 then Some(Polygon(fv, poly.isSolid)) else None,
       if |bv| >= 3 then Some(Polygon(bv, poly.isSolid)) else None)
  }

  /** `splitPolygon`: one pass over the edges appending to both vertex lists. */
  method SplitPolygon(poly: Polygon, l: Line) returns (front: Option<Polygon>, back: Option<Polygon>)
    ensures (front, back) == Split(poly, l)
  {
    var vs := poly.vertices;
    var n := |vs|;
    if n < 3 {
      return None, None;
    }
    var frontVerts: seq<Point>, backVerts: seq<Point> := [], [];
    var i := 0;
    while i < n
      invariant 0 <= i <= n
      invariant frontVerts == FrontVerts(vs, l, i) && backVerts == BackVerts(vs, l, i)
    {
      var v1, v2 := vs[i], vs[(i + 1) % n];
      var side1, side2 := PointSide(l, v1), PointSide(l, v2);
      ghost var f0, b0 := frontVerts, backVerts;
      if side1 > Epsilon {
        frontVerts := frontVerts + [v1];
      } else if side1 < -Epsilon {
        backVerts := backVerts + [v1];
      } else {
        frontVerts := frontVerts + [v1];
        backVerts := backVerts + [v1];
      }
      ghost var f1, b1 := frontVerts, backVerts;
      if (side1 > Epsilon && side2 < -Epsilon) || (side1 < -Epsilon && side2 > Epsilon) {
        var intersection := Intersection(v1, v2, side1, side2);
        frontVerts := frontVerts + [intersection];
        backVerts := backVerts + [intersection];
      }
      EdgeParts(vs, l, i, f0, b0, f1, b1, frontVerts, backVerts);
      VertsStep(vs, l, i);
      i := i + 1;
    }
    front := if |frontVerts| >= 3 then Some(Polygon(frontVerts, poly.isSolid)) else None;
    back := if |backVerts| >= 3 then Some(Polygon(backVerts, poly.isSolid)) else None;
  }

  /** The vertex lists after edge i extend those before it by the edge's parts. */
  lemma VertsStep(vs: seq<Point>, l: Line, i: nat)
    requires i < |vs|
    ensures FrontVerts(vs, l, i + 1) == FrontVerts(vs, l, i) + FrontPart(vs, l, i)
    ensures BackVerts(vs, l, i + 1) == BackVerts(vs, l, i) + BackPart(vs, l, i)
  {
  }

  /** One iteration of the `splitPolygon` loop appends exactly the parts of edge i. */
  lemma EdgeParts(vs: seq<Point>, l: Line, i: nat, f0: seq<Point>, b0: seq<Point>,
                  f1: seq<Point>, b1: seq<Point>, f2: seq<Point>, b2: seq<Point>)
    requires i < |vs|
    requires var s1 := PointSide(l, vs[i]);
      && f1 == (if s1 > Epsilon then f0 + [vs[i]] else if s1 < -Epsilon then f0 else f0 + [vs[i]])
      && b1 == (if s1 > Epsilon then b0 else if s1 < -Epsilon then b0 + [vs[i]] else b0 + [vs[i]])
    requires var v1, v2 := vs[i], vs[(i + 1) % |vs|];
      var s1, s2 := PointSide(l, v1), PointSide(l, v2);
      if Crosses(s1, s2) then
        var q := Intersection(v1, v2, s1, s2);
        f2 == f1 + [q] && b2 == b1 + [q]
      else f2 == f1 && b2 == b1
    ensures f2 == f0 + FrontPart(vs, l, i) && b2 == b0 + BackPart(vs, l, i)
  {
    var v1, v2 := vs[i], Next(vs, i);
    var s1, s2 := PointSide(l, v1), PointSide(l, v2);
    var head := if s1 > Epsilon then [v1] else if s1 < -Epsilon then [] else [v1];
    var bhead := if s1 > Epsilon then [] else if s1 < -Epsilon then [v1] else [v1];
    assert f1 == f0 + head && b1 == b0 + bhead;
    if Crosses(s1, s2) {
      var q := Intersection(v1, v2, s1, s2);
      assert f2 == (f0 + head) + [q] == f0 + (head + [q]);
      assert b2 == (b0 + bhead) + [q] == b0 + (bhead + [q]);
    } else {
      assert f0 + head == f0 + (head + []);
      assert b0 + bhead == b0 + (bhead + []);
    }
  }

  /** The computed intersection lies exactly on the line. */
  lemma IntersectionOnLine(a: Point, b: Point, l: Line)
    requires PointSide(l, a) != PointSide(l, b)
    ensures PointSide(l, Intersection(a, b, PointSide(l, a), PointSide(l, b))) == 0.0
  {
    var s1, s2 := PointSide(l, a), PointSide(l, b);
    var t := s1 / (s1 - s2);
    var q := Intersection(a, b, s1, s2);
    QuotientTimes(s1, s1 - s2);
    calc {
      PointSide(l, q);
      l.nx * (a.x + t * (b.x - a.x)) + l.ny * (a.y + t * (b.y - a.y)) - l.distance;
      s1 + t * (s2 - s1);
      s1 - t * (s1 - s2);
      0.0;
    }
  }

  lemma QuotientTimes(a: real, b: real)
    requires b != 0.0
    ensures (a / b) * b == a
  {
  }

  lemma {:induction false} FrontVertsSide(vs: seq<Point>, l: Line, k: nat)
    requires k <= |vs|
    ensures forall q :: q in FrontVerts(vs, l, k) ==> PointSide(l, q) >= -Epsilon
  {
    if k > 0 {
      FrontVertsSide(vs, l, k - 1);
      var v1, v2 := vs[k - 1], Next(vs, k - 1);
      if Crosses(PointSide(l, v1), PointSide(l, v2)) {
        IntersectionOnLine(v1, v2, l);
      }
    }
  }

  lemma {:induction false} BackVertsSide(vs: seq<Point>, l: Line, k: nat)
    requires k <= |vs|
    ensures forall q :: q in BackVerts(vs, l, k) ==> PointSide(l, q) <= Epsilon
  {
    if k > 0 {
      BackVertsSide(vs, l, k - 1);
      var v1, v2 := vs[k - 1], Next(vs, k - 1);
      if Crosses(PointSide(l, v1), PointSide(l, v2)) {
        IntersectionOnLine(v1, v2, l);
      }
    }
  }

  lemma {:induction false} VertsGrow(vs: seq<Point>, l: Line, i: nat, k: nat)
    requires i < k <= |vs|
    ensures PointSide(l, vs[i]) >= -Epsilon ==> vs[i] in FrontVerts(vs, l, k)
    ensures PointSide(l, vs[i]) <= Epsilon ==> vs[i] in BackVerts(vs, l, k)
  {
    VertsStep(vs, l, k - 1);
    if i < k - 1 {
      VertsGrow(vs, l, i, k - 1);
      InAppend(vs[i], FrontVerts(vs, l, k - 1), FrontPart(vs, l, k - 1));
      InAppend(vs[i], BackVerts(vs, l, k - 1), BackPart(vs, l, k - 1));
    } else {
      PartsStart(vs, l, i);
      InAppend(vs[i], FrontVerts(vs, l, i), FrontPart(vs, l, i));
      InAppend(vs[i], BackVerts(vs, l, i), BackPart(vs, l, i));
    }
  }

  lemma InAppend(x: Point, a: seq<Point>, b: seq<Point>)
    ensures x in a + b <==> x in a || x in b
  {
  }

  /** Edge i's parts start with its first vertex on each side it is not clearly off. */
  lemma PartsStart(vs: seq<Point>, l: Line, i: nat)
    requires i < |vs|
    ensures PointSide(l, vs[i]) >= -Epsilon ==> vs[i] in FrontPart(vs, l, i)
    ensures PointSide(l, vs[i]) <= Epsilon ==> vs[i] in BackPart(vs, l, i)
  {
    assert FrontPart(vs, l, i)[..0] == [] && BackPart(vs, l, i)[..0] == [];
    if PointSide(l, vs[i]) >= -Epsilon {
      assert FrontPart(vs, l, i)[0] == vs[i];
    }
    if PointSide(l, vs[i]) <= Epsilon {
      assert BackPart(vs, l, i)[0] == vs[i];
    }
  }

  /** `splitPolygon` on fewer than three vertices gives two nil polygons. A returned part has at
      least three vertices and the solidity of the input; every vertex of the front part is at most
      `Epsilon` behind the line and every vertex of the back part at most `Epsilon` in front. An
      input vertex lands in the front list iff it is not clearly behind, and in the back list iff it
      is not clearly in front, so vertices within `Epsilon` of the line go to both. */
  lemma SplitProperties(poly: Polygon, l: Line)
    ensures |poly.vertices| < 3 ==> Split(poly, l) == (None, None)
    ensures var (f, b) := Split(poly, l);
      && (f.Some? ==> |f.value.vertices| >= 3 && f.value.isSolid == poly.isSolid &&
                      forall q :: q in f.value.vertices ==> PointSide(l, q) >= -Epsilon)
      && (b.Some? ==> |b.value.vertices| >= 3 && b.value.isSolid == poly.isSolid &&
                      forall q :: q in b.value.vertices ==> PointSide(l, q) <= Epsilon)
    ensures var vs := poly.vertices;
      |vs| >= 3 ==>
      forall i :: 0 <= i < |vs| ==>
        && (vs[i] in FrontVerts(vs, l, |vs|) <==> PointSide(l, vs[i]) >= -Epsilon)
        && (vs[i] in BackVerts(vs, l, |vs|) <==> PointSide(l, vs[i]) <= Epsilon)
  {
    var vs := poly.vertices;
    FrontVertsSide(vs, l, |vs|);
    BackVertsSide(vs, l, |vs|);
    forall i | 0 <= i < |vs|
      ensures PointSide(l, vs[i]) >= -Epsilon ==> vs[i] in FrontVerts(vs, l, |vs|)
      ensures PointSide(l, vs[i]) <= Epsilon ==> vs[i] in BackVerts(vs, l, |vs|)
    {
      VertsGrow(vs, l, i, |vs|);
    }
  }
}
