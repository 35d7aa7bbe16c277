/** `BSPBuilder`: the input polygons and the flat node array that the builder grows in place.
    Every method is proved to leave the array exactly as the matching function of `BspBuild`
    says, so the properties proved there (sizes, children before parents, what the trees answer)
    hold of the builder. */
module BspBuilder {
  import opened Wrappers
  import opened BspGeometry
  import opened BspTree
  import opened BspBuild

  class BSPBuilder {
    var polygons: seq<Polygon>
    var nodes: seq<Node>

    /** `NewBSPBuilder`. */
    constructor (polygons: seq<Polygon>)
      ensures this.polygons == polygons && nodes == []
    {
      this.polygons := polygons;
      nodes := [];
    }

    /** `addLeafNode`: appends one leaf and returns its index, the previous length. */
    method AddLeafNode(sectorId: int, polygonIndices: seq<int>, isSolid: bool) returns (idx: int)
      modifies this`nodes
      ensures nodes == old(nodes) + [Leaf(sectorId, polygonIndices, isSolid)]
      ensures idx == |old(nodes)|
    {
      idx := |nodes|;
      nodes := nodes + [Leaf(sectorId, polygonIndices, isSolid)];
    }

    /** `addSplitNode`: appends one split and returns its index, the previous length. */
    method AddSplitNode(normalX: real, normalY: real, distance: real, frontIdx: int, backIdx: int) returns (idx: int)
      modifies this`nodes
      ensures nodes == old(nodes) + [Split(normalX, normalY, distance, frontIdx, backIdx)]
      ensures idx == |old(nodes)|
    {
      idx := |nodes|;
      nodes := nodes + [Split(normalX, normalY, distance, frontIdx, backIdx)];
    }

    /** `splitTree`: both halves are the input tree. */
    method SplitTree(treeIdx: int, splitLine: Line) returns (front: int, back: int)
      requires 0 <= treeIdx < |nodes|
      ensures (front, back) == BspBuild.SplitTree(nodes, treeIdx)
    {
      var tree := nodes[treeIdx];
      if tree.Leaf? {
        return treeIdx, treeIdx;
      }
      return treeIdx, treeIdx;
    }

    /** `buildEdgeTest`. */
    method BuildEdgeTest(poly: Polygon, edgeIdx: nat) returns (idx: int)
      modifies this`nodes
      ensures Grown(nodes, idx) == EdgeTest(old(nodes), poly.vertices, edgeIdx)
      decreases |poly.vertices| - edgeIdx
    {
      var vs := poly.vertices;
      if edgeIdx >= |vs| {
        idx := AddLeafNode(0, [], true);
        return;
      }
      var line := EdgeLine(vs, edgeIdx);
      var frontNodeIdx := AddLeafNode(0, [], false);
      var backNodeIdx := BuildEdgeTest(poly, edgeIdx + 1);
      idx := AddSplitNode(line.nx, line.ny, line.distance, frontNodeIdx, backNodeIdx);
    }

    /** `buildConvexPolygonTree`. */
    method BuildConvexPolygonTree(poly: Polygon) returns (idx: int)
      modifies this`nodes
      ensures Grown(nodes, idx) == ConvexPolygonTree(old(nodes), poly)
    {
      if |poly.vertices| < 3 {
        idx := AddLeafNode(0, [], false);
        return;
      }
      var normalizedPoly := EnsureCCW(poly);
      idx := BuildEdgeTest(normalizedPoly, 0);
    }

    /** `mergeTreePair`. */
    method MergeTreePair(tree1Idx: int, tree2Idx: int) returns (idx: int)
      requires Built(nodes) && 0 <= tree1Idx < |nodes| && 0 <= tree2Idx < |nodes|
      modifies this`nodes
      ensures Grown(nodes, idx) == MergePair(old(nodes), tree1Idx, tree2Idx)
      decreases tree1Idx
    {
      var tree1 := nodes[tree1Idx];
      if tree1.Leaf? {
        if tree1.isSolid {
          return tree1Idx;
        }
        return tree2Idx;
      }
      var tree2FrontIdx, tree2BackIdx := SplitTree(tree2Idx, SplitLine(tree1));
      var frontMerged := MergeTreePair(tree1.frontIndex, tree2FrontIdx);
      var backMerged := MergeTreePair(tree1.backIndex, tree2BackIdx);
      idx := AddSplitNode(tree1.normalX, tree1.normalY, tree1.distance, frontMerged, backMerged);
    }

    /** `mergeTrees`. */
    method MergeTrees(treeIndices: seq<int>) returns (idx: int)
      requires Built(nodes) && ValidTrees(nodes, treeIndices)
      modifies this`nodes
      ensures Grown(nodes, idx) == BspBuild.MergeTrees(old(nodes), treeIndices)
      decreases |treeIndices|
    {
      if |treeIndices| == 0 {
        idx := AddLeafNode(0, [], false);
        return;
      }
      if |treeIndices| == 1 {
        return treeIndices[0];
      }
      var first := treeIndices[0];
      var rest := treeIndices[1..];
      var restMerged := MergeTrees(rest);
      idx := MergeTreePair(first, restMerged);
    }

    /** `Build`: partition every polygon (skipping failures), build one tree per solid piece of at
        least three vertices, and choose or merge the root. `partition` stands for the CGAL-backed
        `PartitionPolygonConvex`. */
    method Build(partition: Polygon -> Result<seq<Polygon>>) returns (level: LevelData)
      requires Built(nodes)
      modifies this`nodes
      ensures level == BuildLevel(old(nodes), polygons, partition)
      ensures nodes == level.nodes
    {
      var convexPolygons: seq<Polygon> := [];
      var i := 0;
      while i < |polygons|
        invariant 0 <= i <= |polygons|
        invariant convexPolygons == Pieces(polygons[..i], partition)
      {
        assert polygons[..i + 1][..i] == polygons[..i];
        var partitioned := partition(polygons[i]);
        if partitioned.Ok? {
          convexPolygons := convexPolygons + partitioned.value;
        }
        i := i + 1;
      }
      assert polygons[..|polygons|] == polygons;

      var polyTreeIndices: seq<int> := [];
      var j := 0;
      while j < |convexPolygons|
        invariant 0 <= j <= |convexPolygons|
        invariant Built(old(nodes))
        invariant Forest(nodes, polyTreeIndices) == Trees(old(nodes), convexPolygons[..j])
      {
        assert convexPolygons[..j + 1][..j] == convexPolygons[..j];
        var poly := convexPolygons[j];
        if poly.isSolid && |poly.vertices| >= 3 {
          var idx := BuildConvexPolygonTree(poly);
          polyTreeIndices := polyTreeIndices + [idx];
        }
        j := j + 1;
      }
      assert convexPolygons[..|convexPolygons|] == convexPolygons;

      var rootIndex: int;
      if |polyTreeIndices| == 0 {
        rootIndex := AddLeafNode(0, [], false);
      } else if |polyTreeIndices| == 1 {
        rootIndex := polyTreeIndices[0];
      } else {
        rootIndex := MergeTrees(polyTreeIndices);
      }
      level := LevelData(nodes, rootIndex);
    }
  }
}
