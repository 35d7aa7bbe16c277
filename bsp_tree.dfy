/** The flat BSP node array of a level and the two read-only walks over it: the solidity query
    and the segment trace. Nodes refer to their children by index into the same array. */
module BspTree {
  import opened BspGeometry

  /** One array entry. `Missing` stands for a nil entry or a node whose leaf/split choice is unset. */
  datatype Node =
    | Missing
    | Leaf(sectorId: int, polygonIndices: seq<int>, isSolid: bool)
    | Split(normalX: real, normalY: real, distance: real, frontIndex: int, backIndex: int)

  datatype LevelData = LevelData(nodes: seq<Node>, rootIndex: int)

  function SplitLine(n: Node): Line
    requires n.Split?
  {
    Line(n.normalX, n.normalY, n.distance)
  }

  /** Every split refers to children stored before it, so every walk down the tree ends. Negative
      child indices are allowed: the walks answer them as out of range. */
  ghost predicate Ordered(nodes: seq<Node>) {
    forall i :: 0 <= i < |nodes| && nodes[i].Split? ==>
      nodes[i].frontIndex < i && nodes[i].backIndex < i
  }

  /** What the builder maintains: every node is a leaf or a split, and every split's children are
      valid indices stored before it. */
  ghost predicate Built(nodes: seq<Node>) {
    && Ordered(nodes)
    && forall i :: 0 <= i < |nodes| ==>
      !nodes[i].Missing? &&
      (nodes[i].Split? ==> 0 <= nodes[i].frontIndex < i && 0 <= nodes[i].backIndex < i)
  }

  lemma BuiltIsOrdered(nodes: seq<Node>)
    requires Built(nodes)
    ensures Ordered(nodes)
  {
  }

  /** Some solid leaf is stored at or before `index`, where every walk from `index` ends. */
  ghost predicate SolidLeafUpTo(nodes: seq<Node>, index: int) {
    exists j :: 0 <= j <= index && j < |nodes| && nodes[j].Leaf? && nodes[j].isSolid
  }

  /** `PointInBSP`: walk from `index` to a leaf, going to the front child only when the point is
      strictly in front of the split line. A solid answer comes from a solid leaf. */
  function PointInBSP(nodes: seq<Node>, index: int, p: Point): (r: bool)
    requires Ordered(nodes)
    ensures r ==> SolidLeafUpTo(nodes, index)
    decreases index
  {
    if index < 0 || index >= |nodes| then false
    else match nodes[index]
      case Missing => false
      case Leaf(_, _, isSolid) => isSolid
      case Split(_, _, _, front, back) =>
        if PointSide(SplitLine(nodes[index]), p) > 0.0 then PointInBSP(nodes, front, p)
        else PointInBSP(nodes, back, p)
  }

  /** The answer at each kind of node: no answer out of range or at a missing node, the leaf's
      solidity at a leaf, and at a split the front child's answer only for points strictly in
      front, so points exactly on the line take the back child's answer. */
  lemma PointInBSPCases(nodes: seq<Node>, index: int, p: Point)
    requires Ordered(nodes)
    ensures (index < 0 || index >= |nodes|) ==> !PointInBSP(nodes, index, p)
    ensures 0 <= index < |nodes| && nodes[index].Missing? ==> !PointInBSP(nodes, index, p)
    ensures 0 <= index < |nodes| && nodes[index].Leaf? ==>
      PointInBSP(nodes, index, p) == nodes[index].isSolid
    ensures 0 <= index < |nodes| && nodes[index].Split? ==>
      var n := nodes[index];
      && (PointSide(SplitLine(n), p) > 0.0 ==> PointInBSP(nodes, index, p) == PointInBSP(nodes, n.frontIndex, p))
      && (PointSide(SplitLine(n), p) <= 0.0 ==> PointInBSP(nodes, index, p) == PointInBSP(nodes, n.backIndex, p))
  {
  }

  /** A prefix of an ordered array is ordered, and answers every query for its own indices exactly
      as the whole array does: appending nodes never changes an existing tree. */
  lemma {:induction false} PointInBSPPrefix(small: seq<Node>, big: seq<Node>, index: int, p: Point)
    requires Ordered(big) && |small| <= |big| && big[..|small|] == small
    requires index < |small|
    ensures Ordered(small)
    ensures PointInBSP(big, index, p) == PointInBSP(small, index, p)
    decreases index
  {
    assert forall i :: 0 <= i < |small| ==> small[i] == big[i];
    if 0 <= index {
      var n := small[index];
      if n.Split? {
        PointInBSPPrefix(small, big, n.frontIndex, p);
        PointInBSPPrefix(small, big, n.backIndex, p);
      }
    }
  }

  // ---------------------------------------------------------------------------------------
  // Segment tracing

  /** The result of a trace: whether solid geometry was hit, and where (the origin when not). */
  datatype TraceHit = TraceHit(hit: bool, x: real, y: real)

  const NoHit := TraceHit(false, 0.0, 0.0)

  /** The point at parameter t on the line from `from` to `to`. */
  function Lerp(from: Point, to: Point, t: real): Point {
    Point(from.x + t * (to.x - from.x), from.y + t * (to.y - from.y))
  }

  function HitAt(q: Point): TraceHit {
    TraceHit(true, q.x, q.y)
  }

  /** The side of a line is affine along a segment, so the crossing parameter -d0 / (d1 - d0)
      of the trace, taken between two points with sides d0 and d1, lands on the line. */
  lemma PointSideAlongSegment(l: Line, from: Point, to: Point, t: real)
    ensures PointSide(l, Lerp(from, to, t)) == (1.0 - t) * PointSide(l, from) + t * PointSide(l, to)
    ensures PointSide(l, from) != PointSide(l, to) ==>
      var d0, d1 := PointSide(l, from), PointSide(l, to);
      PointSide(l, Lerp(from, to, -d0 / (d1 - d0))) == 0.0
  {
  }

  /** The parameter at fraction `t` of the way through [t0, t1]. */
  function Mid(t0: real, t1: real, t: real): real {
    t0 + t * (t1 - t0)
  }

  /** A fraction in [0, 1] gives a parameter inside the range. */
  lemma MidInRange(t0: real, t1: real, t: real)
    requires t0 <= t1 && 0.0 <= t <= 1.0
    ensures t0 <= Mid(t0, t1, t) <= t1
  {
    var d := t1 - t0;
    assert (1.0 - t) * d == d - t * d;
    assert 0.0 <= (1.0 - t) * d;
    assert 0.0 <= t * d;
  }

  /** `LineTraceBSPNode` as written: trace the part [t0, t1] of the segment from -> to. When the
      endpoints are on different sides of the split (with the `Epsilon` test), the crossing
      parameter t = -d0 / (d1 - d0) is used unclamped. */
  function LineTraceBSPNode(nodes: seq<Node>, index: int, from: Point, to: Point, t0: real, t1: real): (r: TraceHit)
    requires Ordered(nodes)
    ensures !r.hit ==> r == NoHit
    ensures r.hit ==> SolidLeafUpTo(nodes, index)
    decreases index
  {
    if index < 0 || index >= |nodes| then NoHit
    else
      var p0, p1 := Lerp(from, to, t0), Lerp(from, to, t1);
      match nodes[index]
      case Missing => NoHit
      case Leaf(_, _, isSolid) => if isSolid then HitAt(p0) else NoHit
      case Split(nx, ny, dist, front, back) =>
        var d0 := PointSide(Line(nx, ny, dist), p0);
        var d1 := PointSide(Line(nx, ny, dist), p1);
        if d0 > Epsilon && d1 > Epsilon then LineTraceBSPNode(nodes, front, from, to, t0, t1)
        else if d0 <= Epsilon && d1 <= Epsilon then LineTraceBSPNode(nodes, back, from, to, t0, t1)
        else
          var tMid := Mid(t0, t1, -d0 / (d1 - d0));
          var near, far := if d0 > 0.0 then front else back, if d0 > 0.0 then back else front;
          var h := LineTraceBSPNode(nodes, near, from, to, t0, tMid);
          if h.hit then h else LineTraceBSPNode(nodes, far, from, to, tMid, t1)
  }

  /** With the unclamped crossing parameter a hit can lie outside the traced segment. The segment
      runs from x = 0.0002 to x = 0.00005 in front of the line x = 0, whose front is a non-solid leaf
      and whose back is a solid leaf: the end point is within `Epsilon` of the line, so the trace
      splits at t = 4/3 and reports a hit at the origin, beyond the end of the segment. */
  lemma LineTraceBeyondSegment()
    ensures var nodes := [Leaf(0, [], false), Leaf(0, [], true), Split(1.0, 0.0, 0.0, 0, 1)];
      var from, to := Point(0.0002, 0.0), Point(0.00005, 0.0);
      && Ordered(nodes)
      && LineTraceBSPNode(nodes, 2, from, to, 0.0, 1.0) == TraceHit(true, 0.0, 0.0)
      && forall t :: 0.0 <= t <= 1.0 ==> Lerp(from, to, t).x >= 0.00005
  {
    var nodes := [Leaf(0, [], false), Leaf(0, [], true), Split(1.0, 0.0, 0.0, 0, 1)];
    var from, to := Point(0.0002, 0.0), Point(0.00005, 0.0);
    assert PointSide(SplitLine(nodes[2]), Lerp(from, to, 0.0)) == 0.0002;
    assert PointSide(SplitLine(nodes[2]), Lerp(from, to, 1.0)) == 0.00005;
    LineTraceBSPNodeCrossing(nodes, 2, from, to, 0.0, 1.0, 0.0002, 0.00005);
    assert Mid(0.0, 1.0, -0.0002 / (0.00005 - 0.0002)) == 4.0 / 3.0;
    assert Lerp(from, to, 4.0 / 3.0) == Point(0.0, 0.0);
    assert LineTraceBSPNode(nodes, 0, from, to, 0.0, 4.0 / 3.0) == NoHit;
    assert LineTraceBSPNode(nodes, 1, from, to, 4.0 / 3.0, 1.0) == TraceHit(true, 0.0, 0.0);
  }

  /** A split whose endpoint distances `d0` and `d1` fall on different sides of the `Epsilon`
      test is traced as the near child on [t0, tMid] and, when that misses, the far child on
      [tMid, t1], with tMid at the unclamped crossing parameter. */
  lemma LineTraceBSPNodeCrossing(nodes: seq<Node>, index: int, from: Point, to: Point, t0: real, t1: real, d0: real, d1: real)
    requires Ordered(nodes) && 0 <= index < |nodes| && nodes[index].Split?
    requires d0 == PointSide(SplitLine(nodes[index]), Lerp(from, to, t0))
    requires d1 == PointSide(SplitLine(nodes[index]), Lerp(from, to, t1))
    requires !(d0 > Epsilon && d1 > Epsilon) && !(d0 <= Epsilon && d1 <= Epsilon)
    ensures d1 != d0
    ensures LineTraceBSPNode(nodes, index, from, to, t0, t1) ==
      if LineTraceBSPNode(nodes, if d0 > 0.0 then nodes[index].frontIndex else nodes[index].backIndex,
                          from, to, t0, Mid(t0, t1, -d0 / (d1 - d0))).hit
      then LineTraceBSPNode(nodes, if d0 > 0.0 then nodes[index].frontIndex else nodes[index].backIndex,
                            from, to, t0, Mid(t0, t1, -d0 / (d1 - d0)))
      else LineTraceBSPNode(nodes, if d0 > 0.0 then nodes[index].backIndex else nodes[index].frontIndex,
                            from, to, Mid(t0, t1, -d0 / (d1 - d0)), t1)
  {
  }

  function Clamp01(t: real): real {
    if t < 0.0 then 0.0 else if t > 1.0 then 1.0 else t
  }

  /** The trace with the crossing parameter clamped to [0, 1], so that every subrange stays inside
      [t0, t1]; otherwise the same walk as `LineTraceBSPNode`. */
  function LineTrace(nodes: seq<Node>, index: int, from: Point, to: Point, t0: real, t1: real): (r: TraceHit)
    requires Ordered(nodes)
    ensures !r.hit ==> r == NoHit
    decreases index
  {
    if index < 0 || index >= |nodes| then NoHit
    else
      var p0, p1 := Lerp(from, to, t0), Lerp(from, to, t1);
      match nodes[index]
      case Missing => NoHit
      case Leaf(_, _, isSolid) => if isSolid then HitAt(p0) else NoHit
      case Split(nx, ny, dist, front, back) =>
        var d0 := PointSide(Line(nx, ny, dist), p0);
        var d1 := PointSide(Line(nx, ny, dist), p1);
        if d0 > Epsilon && d1 > Epsilon then LineTrace(nodes, front, from, to, t0, t1)
        else if d0 <= Epsilon && d1 <= Epsilon then LineTrace(nodes, back, from, to, t0, t1)
        else
          var tMid := Mid(t0, t1, Clamp01(-d0 / (d1 - d0)));
          var near, far := if d0 > 0.0 then front else back, if d0 > 0.0 then back else front;
          var h := LineTrace(nodes, near, from, to, t0, tMid);
          if h.hit then h else LineTrace(nodes, far, from, to, tMid, t1)
  }

  /** A hit that is the point of the segment at some parameter in [t0, t1]. */
  ghost predicate OnSegment(h: TraceHit, from: Point, to: Point, t0: real, t1: real) {
    h.hit ==> exists t :: t0 <= t <= t1 && HitAt(Lerp(from, to, t)) == h
  }

  /** Every hit reported for the range [t0, t1] is the point of the segment at some parameter in
      that range. */
  lemma {:induction false} LineTraceHitOnSegment(nodes: seq<Node>, index: int, from: Point, to: Point, t0: real, t1: real)
    requires Ordered(nodes) && t0 <= t1
    ensures OnSegment(LineTrace(nodes, index, from, to, t0, t1), from, to, t0, t1)
    decreases index
  {
    var r := LineTrace(nodes, index, from, to, t0, t1);
    LineTraceCases(nodes, index, from, to, t0, t1);
    if 0 <= index < |nodes| && nodes[index].Leaf? {
      assert r.hit ==> HitAt(Lerp(from, to, t0)) == r;
    } else if 0 <= index < |nodes| && nodes[index].Split? {
      var n := nodes[index];
      var d0, d1 := PointSide(SplitLine(n), Lerp(from, to, t0)), PointSide(SplitLine(n), Lerp(from, to, t1));
      if d0 > Epsilon && d1 > Epsilon {
        LineTraceHitOnSegment(nodes, n.frontIndex, from, to, t0, t1);
      } else if d0 <= Epsilon && d1 <= Epsilon {
        LineTraceHitOnSegment(nodes, n.backIndex, from, to, t0, t1);
      } else {
        var tMid := Mid(t0, t1, Clamp01(-d0 / (d1 - d0)));
        MidInRange(t0, t1, Clamp01(-d0 / (d1 - d0)));
        var near := if d0 > 0.0 then n.frontIndex else n.backIndex;
        var far := if d0 > 0.0 then n.backIndex else n.frontIndex;
        LineTraceHitOnSegment(nodes, near, from, to, t0, tMid);
        LineTraceHitOnSegment(nodes, far, from, to, tMid, t1);
        Widen(LineTrace(nodes, near, from, to, t0, tMid), from, to, t0, tMid, t0, t1);
        Widen(LineTrace(nodes, far, from, to, tMid, t1), from, to, tMid, t1, t0, t1);
      }
    }
  }

  /** A point of a subrange is a point of the range. */
  lemma Widen(h: TraceHit, from: Point, to: Point, a: real, b: real, t0: real, t1: real)
    requires OnSegment(h, from, to, a, b) && t0 <= a && b <= t1
    ensures OnSegment(h, from, to, t0, t1)
  {
    if h.hit {
      var t :| a <= t <= b && HitAt(Lerp(from, to, t)) == h;
      assert t0 <= t <= t1;
    }
  }

  /** The cases of the trace: nothing is hit out of range, at a missing node or at a non-solid leaf;
      a solid leaf is hit at the start of the range; when both endpoint distances are above
      `Epsilon` only the front child is traced, and when both are at most `Epsilon` only the back
      child; otherwise a hit of the near child (the front one iff the start is in front) is
      returned without tracing the far child. */
  lemma LineTraceCases(nodes: seq<Node>, index: int, from: Point, to: Point, t0: real, t1: real)
    requires Ordered(nodes)
    ensures (index < 0 || index >= |nodes|) ==> LineTrace(nodes, index, from, to, t0, t1) == NoHit
    ensures 0 <= index < |nodes| && nodes[index].Leaf? ==>
      LineTrace(nodes, index, from, to, t0, t1) ==
        if nodes[index].isSolid then HitAt(Lerp(from, to, t0)) else NoHit
    ensures 0 <= index < |nodes| && nodes[index].Split? ==>
      var n := nodes[index];
      var d0, d1 := PointSide(SplitLine(n), Lerp(from, to, t0)), PointSide(SplitLine(n), Lerp(from, to, t1));
      var r := LineTrace(nodes, index, from, to, t0, t1);
      && (d0 > Epsilon && d1 > Epsilon ==> r == LineTrace(nodes, n.frontIndex, from, to, t0, t1))
      && (d0 <= Epsilon && d1 <= Epsilon ==> r == LineTrace(nodes, n.backIndex, from, to, t0, t1))
      && (!(d0 > Epsilon && d1 > Epsilon) && !(d0 <= Epsilon && d1 <= Epsilon) ==>
            var tMid := Mid(t0, t1, Clamp01(-d0 / (d1 - d0)));
            var near := if d0 > 0.0 then n.frontIndex else n.backIndex;
            var far := if d0 > 0.0 then n.backIndex else n.frontIndex;
            var h := LineTrace(nodes, near, from, to, t0, tMid);
            && (h.hit ==> r == h)
            && (!h.hit ==> r == LineTrace(nodes, far, from, to, tMid, t1)))
  {
  }
}
