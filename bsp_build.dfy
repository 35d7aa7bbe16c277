/** What each step of the BSP builder does to the node array, written as functions from the old
    array to the new array and the index of the tree just built, together with what the built trees
    answer. The builder class proves its methods against these functions. */
module BspBuild {
  import opened Wrappers
  import opened BspGeometry
  import opened BspTree

  /** The node array after a builder step and the index of the tree the step returned. */
  datatype Grown = Grown(nodes: seq<Node>, index: int)

  ghost predicate IsPrefix(a: seq<Node>, b: seq<Node>) {
    |a| <= |b| && b[..|a|] == a
  }

  lemma PrefixTrans(a: seq<Node>, b: seq<Node>, c: seq<Node>)
    requires IsPrefix(a, b) && IsPrefix(b, c)
    ensures IsPrefix(a, c)
  {
    assert c[..|a|] == c[..|b|][..|a|];
  }

  /** The answers of a tree that is already stored do not change when the array grows. */
  lemma Stable(small: seq<Node>, big: seq<Node>, index: int, p: Point)
    requires Built(big) && IsPrefix(small, big) && index < |small|
    ensures Ordered(small)
    ensures PointInBSP(big, index, p) == PointInBSP(small, index, p)
  {
    PointInBSPPrefix(small, big, index, p);
  }

  lemma BuiltPrefix(small: seq<Node>, big: seq<Node>)
    requires Built(big) && IsPrefix(small, big)
    ensures Built(small)
  {
    assert forall i :: 0 <= i < |small| ==> small[i] == big[i];
  }

  /** `addLeafNode` with sector 0 and no polygon indices, as every caller uses it. */
  function AddLeaf(nodes: seq<Node>, isSolid: bool): (g: Grown)
    ensures g.nodes == nodes + [Leaf(0, [], isSolid)] && g.index == |nodes|
    ensures Built(nodes) ==> Built(g.nodes)
  {
    Grown(nodes + [Leaf(0, [], isSolid)], |nodes|)
  }

  /** `addSplitNode`. */
  function AddSplit(nodes: seq<Node>, l: Line, front: int, back: int): (g: Grown)
    ensures g.nodes == nodes + [Split(l.nx, l.ny, l.distance, front, back)] && g.index == |nodes|
    ensures Built(nodes) && 0 <= front < |nodes| && 0 <= back < |nodes| ==> Built(g.nodes)
  {
    Grown(nodes + [Split(l.nx, l.ny, l.distance, front, back)], |nodes|)
  }

  /** A point is solid under an appended split exactly as under the child on its side of the
      split's line. */
  lemma SplitAnswer(nodes: seq<Node>, l: Line, front: int, back: int, p: Point)
    requires Built(nodes) && 0 <= front < |nodes| && 0 <= back < |nodes|
    ensures var g := AddSplit(nodes, l, front, back);
      PointInBSP(g.nodes, g.index, p) == if PointSide(l, p) > 0.0 then PointInBSP(nodes, front, p) else PointInBSP(nodes, back, p)
  {
    var g := AddSplit(nodes, l, front, back);
    Stable(nodes, g.nodes, front, p);
    Stable(nodes, g.nodes, back, p);
    assert SplitLine(g.nodes[g.index]) == l;
  }

  // ---------------------------------------------------------------------------------------
  // One convex polygon

  /** `buildEdgeTest(poly, k)`: a non-solid front leaf, then the test of the remaining edges, then
      the split on edge k; past the last edge a solid leaf. For k <= n it appends 2(n - k) + 1 nodes
      and returns the last one; it keeps the builder invariant. */
  function EdgeTest(nodes: seq<Node>, vs: seq<Point>, k: nat): (g: Grown)
    ensures IsPrefix(nodes, g.nodes)
    ensures |g.nodes| == |nodes| + (if k <= |vs| then 2 * (|vs| - k) + 1 else 1)
    ensures g.index == |g.nodes| - 1
    ensures Built(nodes) ==> Built(g.nodes)
    decreases |vs| - k
  {
    if k >= |vs| then AddLeaf(nodes, true)
    else
      var front := AddLeaf(nodes, false);
      var back := EdgeTest(front.nodes, vs, k + 1);
      PrefixTrans(nodes, front.nodes, back.nodes);
      AddSplit(back.nodes, EdgeLine(vs, k), front.index, back.index)
  }

  /** Every split that `EdgeTest` appends has both children strictly before it. */
  lemma EdgeTestChildrenBefore(nodes: seq<Node>, vs: seq<Point>, k: nat)
    ensures var g := EdgeTest(nodes, vs, k);
      forall i :: |nodes| <= i < |g.nodes| && g.nodes[i].Split? ==>
        |nodes| <= g.nodes[i].frontIndex < i && |nodes| <= g.nodes[i].backIndex < i
    decreases |vs| - k
  {
    if k < |vs| {
      var g := EdgeTest(nodes, vs, k);
      var front := AddLeaf(nodes, false);
      var back := EdgeTest(front.nodes, vs, k + 1);
      EdgeTestChildrenBefore(front.nodes, vs, k + 1);
      assert g.nodes == back.nodes + [Split(EdgeLine(vs, k).nx, EdgeLine(vs, k).ny, EdgeLine(vs, k).distance, front.index, back.index)];
      forall i | |nodes| <= i < |g.nodes| && g.nodes[i].Split?
        ensures |nodes| <= g.nodes[i].frontIndex < i && |nodes| <= g.nodes[i].backIndex < i
      {
        if i < |back.nodes| {
          assert g.nodes[i] == back.nodes[i];
        }
      }
    }
  }

  /** The edge test from edge k of `vs` answers solid exactly for the points that are on the back
      side (or on the line) of every edge line from k on. */
  lemma {:induction false} EdgeTestSolid(nodes: seq<Node>, vs: seq<Point>, k: nat, p: Point)
    requires Built(nodes) && k <= |vs|
    ensures var g := EdgeTest(nodes, vs, k);
      PointInBSP(g.nodes, g.index, p) <==> forall j :: k <= j < |vs| ==> PointSide(EdgeLine(vs, j), p) <= 0.0
    decreases |vs| - k
  {
    if k < |vs| {
      var front := AddLeaf(nodes, false);
      var back := EdgeTest(front.nodes, vs, k + 1);
      EdgeTestSolid(front.nodes, vs, k + 1, p);
      Stable(front.nodes, back.nodes, front.index, p);
      SplitAnswer(back.nodes, EdgeLine(vs, k), front.index, back.index, p);
      assert !PointInBSP(front.nodes, front.index, p);
      assert (forall j :: k <= j < |vs| ==> PointSide(EdgeLine(vs, j), p) <= 0.0)
          <==> PointSide(EdgeLine(vs, k), p) <= 0.0
               && forall j :: k + 1 <= j < |vs| ==> PointSide(EdgeLine(vs, j), p) <= 0.0;
    }
  }

  /** `buildConvexPolygonTree`: a non-solid leaf below three vertices, otherwise the edge tests of the
      counter-clockwise copy of the polygon. */
  function ConvexPolygonTree(nodes: seq<Node>, poly: Polygon): (g: Grown)
    ensures IsPrefix(nodes, g.nodes) && g.index == |g.nodes| - 1
    ensures Built(nodes) ==> Built(g.nodes)
  {
    if |poly.vertices| < 3 then AddLeaf(nodes, false) else EdgeTest(nodes, CCW(poly).vertices, 0)
  }

  /** The tree of a polygon with at least three vertices reports solid exactly for the points on or
      to the left of every directed edge of its counter-clockwise copy, so boundary and vertex
      points count as inside; the tree of a smaller polygon is a single non-solid leaf. */
  lemma ConvexTreeSolid(nodes: seq<Node>, poly: Polygon, p: Point)
    requires Built(nodes)
    ensures var g := ConvexPolygonTree(nodes, poly);
      PointInBSP(g.nodes, g.index, p) <==> |poly.vertices| >= 3 && InsideAllEdges(CCW(poly).vertices, p)
    ensures |poly.vertices| < 3 ==> ConvexPolygonTree(nodes, poly) == Grown(nodes + [Leaf(0, [], false)], |nodes|)
  {
    if |poly.vertices| >= 3 {
      var vs := CCW(poly).vertices;
      assert ConvexPolygonTree(nodes, poly) == EdgeTest(nodes, vs, 0);
      EdgeTestSolid(nodes, vs, 0, p);
      forall j | 0 <= j < |vs|
        ensures PointSide(EdgeLine(vs, j), p) <= 0.0 <==> Cross(vs[j], Next(vs, j), p) >= 0.0
      {
        EdgeSideIsCross(vs, j, p);
      }
      assert InsideAllEdges(vs, p) <==> forall j :: 0 <= j < |vs| ==> PointSide(EdgeLine(vs, j), p) <= 0.0;
    } else {
      var g := AddLeaf(nodes, false);
      assert ConvexPolygonTree(nodes, poly) == g;
      assert g.nodes[g.index] == Leaf(0, [], false);
    }
  }

  // ---------------------------------------------------------------------------------------
  // Merging trees

  /** `splitTree`: both halves are the tree itself, whatever kind of node it starts with. */
  function SplitTree(nodes: seq<Node>, tree: int): (halves: (int, int))
    requires 0 <= tree < |nodes|
    ensures halves == (tree, tree)
  {
    if nodes[tree].Leaf? then (tree, tree) else (tree, tree)
  }

  /** `mergeTreePair`: a solid leaf wins, a non-solid leaf yields the other tree, and a split keeps
      its line and merges each child with the matching half of the other tree. */
  function MergePair(nodes: seq<Node>, t1: int, t2: int): (g: Grown)
    requires Built(nodes) && 0 <= t1 < |nodes| && 0 <= t2 < |nodes|
    ensures IsPrefix(nodes, g.nodes) && Built(g.nodes) && 0 <= g.index < |g.nodes|
    decreases t1
  {
    var n := nodes[t1];
    if n.Leaf? then
      if n.isSolid then Grown(nodes, t1) else Grown(nodes, t2)
    else
      var (t2Front, t2Back) := SplitTree(nodes, t2);
      var frontMerged := MergePair(nodes, n.frontIndex, t2Front);
      var backMerged := MergePair(frontMerged.nodes, n.backIndex, t2Back);
      PrefixTrans(nodes, frontMerged.nodes, backMerged.nodes);
      AddSplit(backMerged.nodes, SplitLine(n), frontMerged.index, backMerged.index)
  }

  /** The merged tree is solid exactly where either tree is. */
  lemma {:induction false} MergePairSolid(nodes: seq<Node>, t1: int, t2: int, p: Point)
    requires Built(nodes) && 0 <= t1 < |nodes| && 0 <= t2 < |nodes|
    ensures var g := MergePair(nodes, t1, t2);
      PointInBSP(g.nodes, g.index, p) == (PointInBSP(nodes, t1, p) || PointInBSP(nodes, t2, p))
    decreases t1
  {
    var n := nodes[t1];
    if n.Split? {
      var g := MergePair(nodes, t1, t2);
      var fm := MergePair(nodes, n.frontIndex, t2);
      var bm := MergePair(fm.nodes, n.backIndex, t2);
      PrefixTrans(nodes, fm.nodes, bm.nodes);
      MergePairSolid(nodes, n.frontIndex, t2, p);
      MergePairSolid(fm.nodes, n.backIndex, t2, p);
      Stable(nodes, fm.nodes, n.backIndex, p);
      Stable(nodes, fm.nodes, t2, p);
      Stable(fm.nodes, g.nodes, fm.index, p);
      Stable(bm.nodes, g.nodes, bm.index, p);
      assert g.nodes[g.index] == Split(n.normalX, n.normalY, n.distance, fm.index, bm.index);
    }
  }

  ghost predicate ValidTrees(nodes: seq<Node>, trees: seq<int>) {
    forall i :: 0 <= i < |trees| ==> 0 <= trees[i] < |nodes|
  }

  /** `mergeTrees`: a non-solid leaf for no trees, the tree itself for one, and otherwise the first
      tree merged with the merge of the rest (which is built first). */
  function MergeTrees(nodes: seq<Node>, trees: seq<int>): (g: Grown)
    requires Built(nodes) && ValidTrees(nodes, trees)
    ensures IsPrefix(nodes, g.nodes) && Built(g.nodes) && 0 <= g.index < |g.nodes|
    decreases |trees|
  {
    if |trees| == 0 then AddLeaf(nodes, false)
    else if |trees| == 1 then Grown(nodes, trees[0])
    else
      var rest := MergeTrees(nodes, trees[1..]);
      var g := MergePair(rest.nodes, trees[0], rest.index);
      PrefixTrans(nodes, rest.nodes, g.nodes);
      g
  }

  /** The merge of several trees is solid exactly where at least one of them is. */
  lemma {:induction false} MergeTreesSolid(nodes: seq<Node>, trees: seq<int>, p: Point)
    requires Built(nodes) && ValidTrees(nodes, trees)
    ensures var g := MergeTrees(nodes, trees);
      PointInBSP(g.nodes, g.index, p) <==> exists i :: 0 <= i < |trees| && PointInBSP(nodes, trees[i], p)
    decreases |trees|
  {
    var g := MergeTrees(nodes, trees);
    if |trees| == 0 {
      assert PointInBSP(g.nodes, g.index, p) == false;
    } else if |trees| == 1 {
    } else {
      var rest := MergeTrees(nodes, trees[1..]);
      MergeTreesSolid(nodes, trees[1..], p);
      MergePairSolid(rest.nodes, trees[0], rest.index, p);
      Stable(nodes, rest.nodes, trees[0], p);
      forall i | 1 <= i < |trees|
        ensures trees[1..][i - 1] == trees[i]
      {
      }
    }
  }

  // ---------------------------------------------------------------------------------------
  // Building a level

  /** The convex pieces of the polygons, in order, skipping every polygon whose partition failed. */
  function Pieces(polygons: seq<Polygon>, partition: Polygon -> Result<seq<Polygon>>): seq<Polygon> {
    if |polygons| == 0 then []
    else
      var before := Pieces(polygons[..|polygons| - 1], partition);
      match partition(polygons[|polygons| - 1])
      case Ok(parts) => before + parts
      case Err(_) => before
  }

  /** A piece that gets a tree of its own. */
  predicate SolidPiece(q: Polygon) {
    q.isSolid && |q.vertices| >= 3
  }

  function SolidPieces(pieces: seq<Polygon>): (r: seq<Polygon>)
    ensures forall i :: 0 <= i < |r| ==> SolidPiece(r[i])
  {
    if |pieces| == 0 then []
    else
      var before := SolidPieces(pieces[..|pieces| - 1]);
      if SolidPiece(pieces[|pieces| - 1]) then before + [pieces[|pieces| - 1]] else before
  }

  /** The node array and the tree indices after the second loop of `Build`. */
  datatype Forest = Forest(nodes: seq<Node>, trees: seq<int>)

  function Trees(nodes: seq<Node>, pieces: seq<Polygon>): (f: Forest)
    requires Built(nodes)
    ensures IsPrefix(nodes, f.nodes) && Built(f.nodes) && ValidTrees(f.nodes, f.trees)
    ensures |f.trees| == |SolidPieces(pieces)|
  {
    if |pieces| == 0 then Forest(nodes, [])
    else
      var before := Trees(nodes, pieces[..|pieces| - 1]);
      var q := pieces[|pieces| - 1];
      if SolidPiece(q) then
        var g := ConvexPolygonTree(before.nodes, q);
        PrefixTrans(nodes, before.nodes, g.nodes);
        Forest(g.nodes, before.trees + [g.index])
      else before
  }

  /** Tree j answers for solid piece j. */
  lemma {:induction false} TreesSolid(nodes: seq<Node>, pieces: seq<Polygon>, p: Point)
    requires Built(nodes)
    ensures var f := Trees(nodes, pieces);
      forall j :: 0 <= j < |f.trees| ==>
        (PointInBSP(f.nodes, f.trees[j], p) <==> InsideAllEdges(CCW(SolidPieces(pieces)[j]).vertices, p))
  {
    if |pieces| > 0 {
      var f := Trees(nodes, pieces);
      var before := Trees(nodes, pieces[..|pieces| - 1]);
      var q := pieces[|pieces| - 1];
      TreesSolid(nodes, pieces[..|pieces| - 1], p);
      if SolidPiece(q) {
        var g := ConvexPolygonTree(before.nodes, q);
        ConvexTreeSolid(before.nodes, q, p);
        forall j | 0 <= j < |before.trees|
          ensures PointInBSP(f.nodes, f.trees[j], p) == PointInBSP(before.nodes, before.trees[j], p)
        {
          Stable(before.nodes, f.nodes, before.trees[j], p);
        }
      }
    }
  }

  /** Some piece's counter-clockwise copy has `p` on or to the left of each of its edges. */
  ghost predicate InSomePiece(solid: seq<Polygon>, p: Point) {
    exists j :: 0 <= j < |solid| && InsideAllEdges(CCW(solid[j]).vertices, p)
  }

  /** The root chosen from the forest answers for the solid pieces it came from. */
  lemma RootSolid(f: Forest, solid: seq<Polygon>, p: Point)
    requires Built(f.nodes) && ValidTrees(f.nodes, f.trees) && |f.trees| == |solid|
    requires forall j :: 0 <= j < |f.trees| ==>
      (PointInBSP(f.nodes, f.trees[j], p) <==> InsideAllEdges(CCW(solid[j]).vertices, p))
    ensures var root := Root(f);
      PointInBSP(root.nodes, root.rootIndex, p) <==> InSomePiece(solid, p)
  {
    var root := Root(f);
    if |f.trees| == 0 {
      var g := AddLeaf(f.nodes, false);
      assert g.nodes[g.index] == Leaf(0, [], false);
      assert !PointInBSP(root.nodes, root.rootIndex, p);
    } else if |f.trees| == 1 {
      assert root == LevelData(f.nodes, f.trees[0]);
      if PointInBSP(root.nodes, root.rootIndex, p) {
        assert InsideAllEdges(CCW(solid[0]).vertices, p);
      }
      if j :| 0 <= j < |solid| && InsideAllEdges(CCW(solid[j]).vertices, p) {
        assert j == 0;
      }
    } else {
      var g := MergeTrees(f.nodes, f.trees);
      assert root == LevelData(g.nodes, g.index);
      MergeTreesSolid(f.nodes, f.trees, p);
      if PointInBSP(root.nodes, root.rootIndex, p) {
        var i :| 0 <= i < |f.trees| && PointInBSP(f.nodes, f.trees[i], p);
        assert InsideAllEdges(CCW(solid[i]).vertices, p);
      }
      if j :| 0 <= j < |solid| && InsideAllEdges(CCW(solid[j]).vertices, p) {
        assert PointInBSP(f.nodes, f.trees[j], p);
      }
    }
  }

  /** The last step of `Build`: a new non-solid leaf for no tree, the tree itself for one, and the
      merge of all of them otherwise. */
  function Root(f: Forest): (level: LevelData)
    requires Built(f.nodes) && ValidTrees(f.nodes, f.trees)
    ensures IsPrefix(f.nodes, level.nodes) && Built(level.nodes) && 0 <= level.rootIndex < |level.nodes|
  {
    if |f.trees| == 0 then
      var g := AddLeaf(f.nodes, false);
      LevelData(g.nodes, g.index)
    else if |f.trees| == 1 then LevelData(f.nodes, f.trees[0])
    else
      var g := MergeTrees(f.nodes, f.trees);
      LevelData(g.nodes, g.index)
  }

  /** What `Build` returns when it starts from the node array `nodes`. */
  function BuildLevel(nodes: seq<Node>, polygons: seq<Polygon>, partition: Polygon -> Result<seq<Polygon>>): (level: LevelData)
    requires Built(nodes)
    ensures IsPrefix(nodes, level.nodes) && Built(level.nodes) && 0 <= level.rootIndex < |level.nodes|
  {
    var f := Trees(nodes, Pieces(polygons, partition));
    var level := Root(f);
    PrefixTrans(nodes, f.nodes, level.nodes);
    level
  }

  /** The level is solid at a point exactly when some solid convex piece (of at least three
      vertices) of some successfully partitioned polygon contains it, boundary included. */
  lemma BuildSolid(nodes: seq<Node>, polygons: seq<Polygon>, partition: Polygon -> Result<seq<Polygon>>, p: Point)
    requires Built(nodes)
    ensures var level := BuildLevel(nodes, polygons, partition);
      PointInBSP(level.nodes, level.rootIndex, p) <==> InSomePiece(SolidPieces(Pieces(polygons, partition)), p)
  {
    var pieces := Pieces(polygons, partition);
    var f := Trees(nodes, pieces);
    TreesSolid(nodes, pieces, p);
    RootSolid(f, SolidPieces(pieces), p);
    assert BuildLevel(nodes, polygons, partition) == Root(f);
  }

  lemma {:induction false} TreesNoSolid(nodes: seq<Node>, pieces: seq<Polygon>)
    requires Built(nodes) && |SolidPieces(pieces)| == 0
    ensures Trees(nodes, pieces) == Forest(nodes, [])
  {
    if |pieces| > 0 {
      TreesNoSolid(nodes, pieces[..|pieces| - 1]);
    }
  }

  lemma {:induction false} TreesOneSolid(nodes: seq<Node>, pieces: seq<Polygon>)
    requires Built(nodes) && |SolidPieces(pieces)| == 1
    ensures var g := ConvexPolygonTree(nodes, SolidPieces(pieces)[0]);
      Trees(nodes, pieces) == Forest(g.nodes, [g.index])
  {
    var before := pieces[..|pieces| - 1];
    if SolidPiece(pieces[|pieces| - 1]) {
      TreesNoSolid(nodes, before);
    } else {
      TreesOneSolid(nodes, before);
    }
  }

  /** With no solid piece the root is a new non-solid leaf; with exactly one, the root is that
      piece's tree and nothing else is built. */
  lemma BuildFewPieces(nodes: seq<Node>, polygons: seq<Polygon>, partition: Polygon -> Result<seq<Polygon>>)
    requires Built(nodes)
    ensures var solid := SolidPieces(Pieces(polygons, partition));
      && (|solid| == 0 ==> BuildLevel(nodes, polygons, partition) == LevelData(nodes + [Leaf(0, [], false)], |nodes|))
      && (|solid| == 1 ==> var g := ConvexPolygonTree(nodes, solid[0]);
            BuildLevel(nodes, polygons, partition) == LevelData(g.nodes, g.index))
  {
    var solid := SolidPieces(Pieces(polygons, partition));
    if |solid| == 0 {
      TreesNoSolid(nodes, Pieces(polygons, partition));
    } else if |solid| == 1 {
      TreesOneSolid(nodes, Pieces(polygons, partition));
    }
  }
}
