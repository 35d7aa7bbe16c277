/** The level step of the build command: converting an edited level into its runtime form, and
    the sequence of converted levels that the build walks through. */
module BuildLevels {
  import opened Wrappers
  import opened Strs
  import BspGeometry
  import BspTree
  import BspBuild
  import BspBuilder
  import LevelTypes
  import LevelEdits

  datatype ProtoTile = ProtoTile(x: int, y: int, texture: string)

  /** `pb.LevelData` as the build fills it: the flat collision tree and the ground tiles. */
  datatype ProtoLevel = ProtoLevel(collision: BspTree.LevelData, ground: seq<ProtoTile>)

  /** Every collision outline, whatever its size, as a solid BSP polygon. */
  function AllOutlines(cs: seq<LevelTypes.Polygon>): (r: seq<BspGeometry.Polygon>)
    ensures |r| == |cs|
    ensures forall i :: 0 <= i < |cs| ==>
      && r[i].isSolid && |r[i].vertices| == |cs[i].outline|
      && (forall j :: 0 <= j < |cs[i].outline| ==>
            r[i].vertices[j] == BspGeometry.Point(cs[i].outline[j].x, cs[i].outline[j].y))
  {
    seq(|cs|, i requires 0 <= i < |cs| => LevelEdits.ToBspPolygon(cs[i]))
  }

  function ToProtoTile(t: LevelTypes.Tile): ProtoTile {
    ProtoTile(t.position.x, t.position.y, t.texture)
  }

  /** The ground tiles, one to one and in order. */
  function ProtoGround(ground: seq<LevelTypes.Tile>): (r: seq<ProtoTile>)
    ensures |r| == |ground|
    ensures forall i :: 0 <= i < |ground| ==>
      r[i].x == ground[i].position.x && r[i].y == ground[i].position.y && r[i].texture == ground[i].texture
  {
    seq(|ground|, i requires 0 <= i < |ground| => ToProtoTile(ground[i]))
  }

  /** `convertLevelToProto`: a missing level is an error; otherwise every outline goes to a fresh
      builder and every tile is copied. */
  method ConvertLevelToProto(yamlLevel: LevelTypes.Level?,
                             partition: BspGeometry.Polygon -> Result<seq<BspGeometry.Polygon>>)
    returns (r: Result<ProtoLevel>)
    ensures yamlLevel == null <==> r.Err?
    ensures yamlLevel == null ==> r == Err("nil level provided")
    ensures yamlLevel != null ==>
      r == Ok(ProtoLevel(BspBuild.BuildLevel([], AllOutlines(yamlLevel.collisions), partition),
                         ProtoGround(yamlLevel.ground)))
  {
    if yamlLevel == null {
      return Err("nil level provided");
    }
    var collisions := yamlLevel.collisions;
    var bspPolygons: seq<BspGeometry.Polygon> := [];
    var k := 0;
    while k < |collisions|
      invariant 0 <= k <= |collisions|
      invariant bspPolygons == AllOutlines(collisions[..k])
    {
      var outline := collisions[k].outline;
      var vertices: seq<BspGeometry.Point> := [];
      var i := 0;
      while i < |outline|
        invariant 0 <= i <= |outline| && |vertices| == i
        invariant forall j :: 0 <= j < i ==> vertices[j] == LevelEdits.ToPoint(outline[j])
      {
        vertices := vertices + [LevelEdits.ToPoint(outline[i])];
        i := i + 1;
      }
      assert BspGeometry.Polygon(vertices, true) == LevelEdits.ToBspPolygon(collisions[k]);
      assert AllOutlines(collisions[..k + 1]) == AllOutlines(collisions[..k]) + [LevelEdits.ToBspPolygon(collisions[k])];
      bspPolygons := bspPolygons + [BspGeometry.Polygon(vertices, true)];
      k := k + 1;
    }
    assert collisions[..|collisions|] == collisions;
    var builder := new BspBuilder.BSPBuilder(bspPolygons);
    var collision := builder.Build(partition);

    var ground := yamlLevel.ground;
    var groundTiles: seq<ProtoTile> := [];
    var t := 0;
    while t < |ground|
      invariant 0 <= t <= |ground| && |groundTiles| == t
      invariant forall j :: 0 <= j < t ==> groundTiles[j] == ToProtoTile(ground[j])
    {
      groundTiles := groundTiles + [ToProtoTile(ground[t])];
      t := t + 1;
    }
    assert groundTiles == ProtoGround(ground);
    return Ok(ProtoLevel(collision, groundTiles));
  }

  /** The Go wrapper of the partition refuses outlines of fewer than three vertices. */
  ghost predicate RejectsDegenerate(partition: BspGeometry.Polygon -> Result<seq<BspGeometry.Polygon>>) {
    forall q: BspGeometry.Polygon :: |q.vertices| < 3 ==> partition(q).Err?
  }

  /** Handing every outline to the builder, as the build does, gives the same pieces as handing
      only the outlines of at least three points, as the editor's collision test does. */
  lemma {:induction false} AllOutlinesPieces(cs: seq<LevelTypes.Polygon>,
                                             partition: BspGeometry.Polygon -> Result<seq<BspGeometry.Polygon>>)
    requires RejectsDegenerate(partition)
    ensures BspBuild.Pieces(AllOutlines(cs), partition) == BspBuild.Pieces(LevelEdits.SolidOutlines(cs), partition)
    decreases |cs|
  {
    if |cs| > 0 {
      var front := cs[..|cs| - 1];
      var c := cs[|cs| - 1];
      AllOutlinesPieces(front, partition);
      var all := AllOutlines(cs);
      assert all[..|all| - 1] == AllOutlines(front);
      assert all[|all| - 1] == LevelEdits.ToBspPolygon(c);
      var solid := LevelEdits.SolidOutlines(cs);
      if |c.outline| >= 3 {
        assert solid == LevelEdits.SolidOutlines(front) + [LevelEdits.ToBspPolygon(c)];
        assert solid[..|solid| - 1] == LevelEdits.SolidOutlines(front);
      } else {
        assert solid == LevelEdits.SolidOutlines(front);
        assert partition(LevelEdits.ToBspPolygon(c)).Err?;
      }
    }
  }

  /** So the built level's collision tree is the very tree the editor's collision test queries. */
  lemma BuildMatchesEditor(cs: seq<LevelTypes.Polygon>,
                           partition: BspGeometry.Polygon -> Result<seq<BspGeometry.Polygon>>)
    requires RejectsDegenerate(partition)
    ensures BspBuild.BuildLevel([], AllOutlines(cs), partition) ==
            BspBuild.BuildLevel([], LevelEdits.SolidOutlines(cs), partition)
  {
    AllOutlinesPieces(cs, partition);
  }

  // ---------------------------------------------------------------------------------------
  // buildLevelsIterator

  datatype WalkEntry = WalkEntry(path: string, isDir: bool)

  /** How the directory walk ended. */
  datatype WalkEnd = Completed | NotExist | Failed(msg: string)

  predicate IsLevelFile(e: WalkEntry) {
    !e.isDir && HasSuffix(e.path, ".yaml")
  }

  /** The level files among the walked entries, in walk order. */
  function Matches(entries: seq<WalkEntry>): (r: seq<string>)
    ensures |r| <= |entries|
  {
    if |entries| == 0 then []
    else
      var before := Matches(entries[..|entries| - 1]);
      var e := entries[|entries| - 1];
      if IsLevelFile(e) then before + [e.path] else before
  }

  lemma {:induction false} MatchesMembers(entries: seq<WalkEntry>, p: string)
    ensures p in Matches(entries) <==> exists e :: e in entries && IsLevelFile(e) && e.path == p
    decreases |entries|
  {
    if |entries| > 0 {
      var front := entries[..|entries| - 1];
      MatchesMembers(front, p);
      assert entries == front + [entries[|entries| - 1]];
      assert forall e :: e in entries <==> e in front || e == entries[|entries| - 1];
    }
  }

  /** The walk callback: entries are appended when they are level files. */
  method CollectMatches(entries: seq<WalkEntry>) returns (matches: seq<string>)
    ensures matches == Matches(entries)
  {
    matches := [];
    var i := 0;
    while i < |entries|
      invariant 0 <= i <= |entries|
      invariant matches == Matches(entries[..i])
    {
      assert entries[..i + 1][..i] == entries[..i];
      if !entries[i].isDir && HasSuffix(entries[i].path, ".yaml") {
        matches := matches + [entries[i].path];
      }
      i := i + 1;
    }
    assert entries[..|entries|] == entries;
  }

  /** The ".yaml" extension becomes ".pb". */
  function PbPath(relPath: string): (r: string)
    ensures HasSuffix(r, ".pb")
    ensures HasSuffix(relPath, ".yaml") ==> |r| == |relPath| - 2
    ensures !HasSuffix(relPath, ".yaml") ==> r == relPath + ".pb"
  {
    SuffixOfConcat(TrimSuffix(relPath, ".yaml"), ".pb");
    TrimSuffix(relPath, ".yaml") + ".pb"
  }

  lemma PbPathOfLevel(stem: string)
    ensures PbPath(stem + ".yaml") == stem + ".pb"
  {
    SuffixOfConcat(stem, ".yaml");
    assert (stem + ".yaml")[..|stem|] == stem;
  }

  /** What one level file becomes: its path relative to the assets directory and its bytes, or
      the error of loading, converting, marshalling, relativising or a time-out. */
  type Convert = string -> Result<(string, seq<byte>)>

  /** The consumer of the sequence, answering whether to go on. */
  type Consumer = (string, seq<byte>) -> bool

  /** The pairs yielded for the level files `ms`: the first failed conversion stops the sequence
      before its level, and a consumer answering false stops it after its level. */
  function Yielded(ms: seq<string>, convert: Convert, consumer: Consumer): (r: seq<(string, seq<byte>)>)
    ensures |r| <= |ms|
  {
    if |ms| == 0 then []
    else
      match convert(ms[0])
      case Err(_) => []
      case Ok(res) =>
        var item := (PbPath(res.0), res.1);
        [item] + (if consumer(item.0, item.1) then Yielded(ms[1..], convert, consumer) else [])
  }

  /** Every yielded pair is the converted level file of the same position, renamed; a level after
      a failed conversion is never yielded. */
  lemma {:induction false} YieldedProperties(ms: seq<string>, convert: Convert, consumer: Consumer)
    ensures var r := Yielded(ms, convert, consumer);
      forall i :: 0 <= i < |r| ==>
        && convert(ms[i]).Ok?
        && r[i] == (PbPath(convert(ms[i]).value.0), convert(ms[i]).value.1)
    ensures forall k :: 0 <= k < |ms| && convert(ms[k]).Err? ==> |Yielded(ms, convert, consumer)| <= k
    decreases |ms|
  {
    if |ms| > 0 && convert(ms[0]).Ok? {
      var rest := Yielded(ms[1..], convert, consumer);
      YieldedProperties(ms[1..], convert, consumer);
      var r := Yielded(ms, convert, consumer);
      forall i | 1 <= i < |r|
        ensures convert(ms[i]).Ok? && r[i] == (PbPath(convert(ms[i]).value.0), convert(ms[i]).value.1)
      {
        assert r[i] == rest[i - 1] && ms[1..][i - 1] == ms[i];
      }
      forall k | 1 <= k < |ms| && convert(ms[k]).Err?
        ensures |r| <= k
      {
        assert ms[1..][k - 1] == ms[k];
      }
    }
  }

  /** Without failures and with a consumer that always goes on, every level file is yielded. */
  lemma {:induction false} YieldedAll(ms: seq<string>, convert: Convert, consumer: Consumer)
    requires forall i :: 0 <= i < |ms| ==> convert(ms[i]).Ok?
    requires forall p, b :: consumer(p, b)
    ensures |Yielded(ms, convert, consumer)| == |ms|
    decreases |ms|
  {
    if |ms| > 0 {
      assert forall i :: 0 <= i < |ms[1..]| ==> ms[1..][i] == ms[i + 1];
      YieldedAll(ms[1..], convert, consumer);
    }
  }

  /** `buildLevelsIterator` over an already walked levels directory: a walk that failed for a
      reason other than a missing directory yields nothing; otherwise the level files found are
      converted and yielded in order until a failure or the consumer stops. */
  method BuildLevelsIterator(entries: seq<WalkEntry>, walkEnd: WalkEnd, convert: Convert, consumer: Consumer)
    returns (yielded: seq<(string, seq<byte>)>)
    ensures walkEnd.Failed? ==> yielded == []
    ensures !walkEnd.Failed? ==> yielded == Yielded(Matches(entries), convert, consumer)
  {
    var matches := CollectMatches(entries);
    if walkEnd.Failed? {
      return [];
    }
    yielded := ConvertEach(matches, convert, consumer);
  }

  /** One step of `Yielded`. */
  lemma YieldedCons(ms: seq<string>, convert: Convert, consumer: Consumer)
    requires |ms| > 0
    ensures convert(ms[0]).Err? ==> Yielded(ms, convert, consumer) == []
    ensures convert(ms[0]).Ok? ==>
      var item := (PbPath(convert(ms[0]).value.0), convert(ms[0]).value.1);
      Yielded(ms, convert, consumer) ==
        [item] + (if consumer(item.0, item.1) then Yielded(ms[1..], convert, consumer) else [])
  {
  }

  /** The conversion loop of `buildLevelsIterator`. */
  method ConvertEach(matches: seq<string>, convert: Convert, consumer: Consumer)
    returns (yielded: seq<(string, seq<byte>)>)
    ensures yielded == Yielded(matches, convert, consumer)
  {
    yielded := [];
    var i := 0;
    while i < |matches|
      invariant 0 <= i <= |matches|
      invariant yielded + Yielded(matches[i..], convert, consumer) == Yielded(matches, convert, consumer)
    {
      var res := convert(matches[i]);
      if res.Err? {
        assert yielded == Yielded(matches, convert, consumer) by {
          YieldedCons(matches[i..], convert, consumer);
        }
        return;
      }
      var relPath := TrimSuffix(res.value.0, ".yaml") + ".pb";
      var go := consumer(relPath, res.value.1);
      ghost var rest := if go then Yielded(matches[i + 1..], convert, consumer) else [];
      assert yielded + [(relPath, res.value.1)] + rest == Yielded(matches, convert, consumer) by {
        YieldedCons(matches[i..], convert, consumer);
        assert matches[i..][0] == matches[i] && matches[i..][1..] == matches[i + 1..];
        assert relPath == PbPath(res.value.0);
      }
      yielded := yielded + [(relPath, res.value.1)];
      if !go {
        assert yielded + [] == yielded;
        return;
      }
      i := i + 1;
    }
    assert matches[|matches|..] == [];
  }
}
