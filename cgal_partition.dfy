/** The C entry point around CGAL's convex partition: `partition_polygon_convex` and
    `free_partition_result`. C memory is a `Heap` whose `malloc` may fail (the k-th call fails
    when `fails(k)`) and which records the live blocks, so that the model can say which blocks a
    result owns and that nothing else is left allocated. CGAL's simplicity test and partition
    routine are parameters; orientation and convexity are computed over reals, as CGAL's
    exact-predicates kernel decides them. */
module CgalPartition {
  import opened Wrappers
  import opened BspGeometry

  /** The C allocator. */
  class Heap {
    /** Blocks allocated and not yet freed. */
    ghost var live: set<object>
    /** Number of `malloc` calls so far. */
    var calls: nat
    const fails: nat -> bool

    constructor (fails: nat -> bool)
      ensures live == {} && calls == 0 && this.fails == fails
    {
      live := {};
      calls := 0;
      this.fails := fails;
    }

    /** `malloc` of an n-element block: NULL when this call fails, else a new live block. */
    method Malloc<T>(n: nat, filler: T) returns (a: array?<T>)
      modifies this
      ensures calls == old(calls) + 1
      ensures a == null <==> fails(old(calls))
      ensures a == null ==> live == old(live)
      ensures a != null ==> fresh(a) && a.Length == n && live == old(live) + {a}
    {
      if fails(calls) {
        a := null;
      } else {
        a := new T[n](_ => filler);
        live := live + {a};
      }
      calls := calls + 1;
    }

    /** `free` of a live block. */
    method Free(o: object)
      requires o in live
      modifies this
      ensures live == old(live) - {o} && calls == old(calls)
    {
      live := live - {o};
    }

    /** No `malloc` call numbered from `from` up to (not including) `to` fails. */
    ghost predicate NoFailure(from: nat, to: nat) {
      forall k :: from <= k < to ==> !fails(k)
    }
  }

  function Clamp(n: int, len: nat): (r: nat)
    ensures r <= len && (0 <= n <= len ==> r == n)
  {
    if n < 0 then 0 else if n > len then len else n
  }

  /** The point blocks a run of records refers to. */
  ghost function BlocksOf(recs: seq<CPolygon>): set<object> {
    set r | r in recs && r.points != null :: r.points as object
  }

  lemma BlocksOfSnoc(recs: seq<CPolygon>, r: CPolygon)
    ensures BlocksOf(recs + [r]) == BlocksOf(recs) + (if r.points == null then {} else {r.points as object})
  {
  }

  lemma BlocksOfCons(recs: seq<CPolygon>)
    requires |recs| > 0
    ensures BlocksOf(recs) == (if recs[0].points == null then {} else {recs[0].points as object}) + BlocksOf(recs[1..])
  {
    assert recs == [recs[0]] + recs[1..];
  }

  /** One C polygon record: a (possibly NULL) point block and its length. */
  datatype CPolygon = CPolygon(points: array?<Point>, count: int)

  /** `CPartitionResult`, filled field by field. `error` is a NUL-terminated character block. */
  class CPartitionResult {
    var polygons: array?<CPolygon>
    var count: int
    var error: array?<char>

    /** `{NULL, 0, NULL}`. */
    constructor ()
      ensures polygons == null && count == 0 && error == null
    {
      polygons := null;
      count := 0;
      error := null;
    }

    /** The blocks this result refers to: the record array, the point blocks of its first
        `count` records and the message. */
    ghost function Owned(): set<object>
      reads this, polygons
    {
      (if polygons == null then {} else {polygons as object} + BlocksOf(polygons[..Clamp(count, polygons.Length)]))
      + (if error == null then {} else {error as object})
    }

    /** What `free_partition_result` needs: every owned block is live, the record array covers
        `count`, and no point block is shared by two records. */
    ghost predicate Freeable(heap: Heap)
      reads this, polygons, heap
    {
      && Owned() <= heap.live
      && (polygons != null ==> 0 <= count <= polygons.Length)
      && (polygons != null ==> forall i, j :: 0 <= i < j < count && polygons[i].points != null ==> polygons[i].points != polygons[j].points)
    }

    /** The result of a failed call: no polygons, and the message (if it could be allocated). */
    ghost predicate IsFailure(msg: string)
      reads this, error
    {
      polygons == null && count == 0 && (error != null ==> error[..] == msg + ['\0'])
    }

    /** The result of a successful call: no error and one record per piece, each with its own
        block holding the piece's vertices in order. */
    ghost predicate Holds(pieces: seq<seq<Point>>)
      reads this, polygons
      reads if polygons == null then {} else set i | 0 <= i < polygons.Length && polygons[i].points != null :: polygons[i].points
    {
      && error == null && polygons != null
      && count == |pieces| == polygons.Length
      && forall i :: 0 <= i < count ==>
           polygons[i].points != null && polygons[i].count == |pieces[i]| && polygons[i].points[..] == pieces[i]
    }
  }

  // ---------------------------------------------------------------------------------------
  // What the call computes, ignoring allocation failure

  /** What `CGAL::approx_convex_partition_2` yields: the pieces, or an exception (a standard one
      with its `what()` text, or any other). */
  datatype PartitionOutcome = Parts(pieces: seq<seq<Point>>) | Threw(what: string) | ThrewUnknown

  datatype Answer = Failure(msg: string) | Success(pieces: seq<seq<Point>>)

  const InvalidInput := "Invalid input: need at least 3 points"
  const NotSimple := "Polygon is not simple (self-intersecting)"
  const OutOfMemory := "Memory allocation failed"
  const NoPolygons := "Partition failed: no polygons generated"
  const UnknownError := "Unknown error during partition"

  /** `is_clockwise_oriented`: negative signed area. */
  predicate IsClockwise(vs: seq<Point>) {
    Area(vs) < 0.0
  }

  /** `reverse_orientation`: the vertex order is reversed and the first vertex stays first. */
  function ReverseOrientation(vs: seq<Point>): seq<Point> {
    if |vs| == 0 then [] else [vs[0]] + Reverse(vs[1..])
  }

  function Turn(vs: seq<Point>, i: nat): real
    requires i < |vs|
  {
    Cross(vs[i], vs[(i + 1) % |vs|], vs[(i + 2) % |vs|])
  }

  /** `is_convex` of a polygon that is not clockwise: no vertex turns right. Collinear vertices
      are allowed. */
  predicate IsConvex(vs: seq<Point>) {
    forall i :: 0 <= i < |vs| ==> Turn(vs, i) >= 0.0
  }

  /** The polygon as CGAL sees it after the orientation check. */
  function Oriented(vs: seq<Point>): seq<Point> {
    if IsClockwise(vs) then ReverseOrientation(vs) else vs
  }

  /** The answer of `partition_polygon_convex` when no allocation fails. `points` is `None` for a
      NULL argument. */
  function Expected(points: Option<seq<Point>>, count: int, isSimple: seq<Point> -> bool,
                    approx: seq<Point> -> PartitionOutcome): Answer
    requires points.Some? ==> count <= |points.value|
  {
    if points.None? || count < 3 then Failure(InvalidInput)
    else
      var pts := points.value[..count];
      if !isSimple(pts) then Failure(NotSimple)
      else
        var polygon := Oriented(pts);
        if IsConvex(polygon) then Success([pts])
        else match approx(polygon)
          case Threw(what) => Failure(what)
          case ThrewUnknown => Failure(UnknownError)
          case Parts(ps) => if |ps| == 0 then Failure(NoPolygons) else Success(ps)
  }

  lemma AreaRotate(a: Point, s: seq<Point>)
    ensures Area([a] + s) == Area(s + [a])
  {
    if |s| >= 2 {
      var l, r := [a] + s, s + [a];
      ShoelaceClosed(l);
      ShoelaceClosed(r);
      assert l[1..] == s;
      ChainAppend(s, a);
      assert Chain(l) == Term(a, s[0]) + Chain(s);
    }
  }

  /** CGAL never partitions a clockwise polygon: after the orientation check it has a signed area
      of at least zero, and it has the same vertex count. */
  lemma OrientedNotClockwise(vs: seq<Point>)
    ensures !IsClockwise(Oriented(vs)) && |Oriented(vs)| == |vs|
  {
    if IsClockwise(vs) && |vs| > 0 {
      var rest := vs[1..];
      assert vs == [vs[0]] + rest;
      ReverseCons(vs[0], rest);
      AreaOfReverse(vs);
      AreaRotate(vs[0], Reverse(rest));
    }
  }

  /** The answers the entry point promises: too few points or a NULL array is rejected first, a
      non-simple polygon next, whatever the orientation; a convex polygon comes back as exactly one
      piece with the caller's points in the caller's order; an empty partition is an error; and a
      success always carries at least one piece. */
  lemma ExpectedProperties(points: Option<seq<Point>>, count: int, isSimple: seq<Point> -> bool,
                           approx: seq<Point> -> PartitionOutcome)
    requires points.Some? ==> count <= |points.value|
    ensures points.None? || count < 3 ==> Expected(points, count, isSimple, approx) == Failure(InvalidInput)
    ensures points.Some? && count >= 3 && !isSimple(points.value[..count]) ==>
      Expected(points, count, isSimple, approx) == Failure(NotSimple)
    ensures (points.Some? && count >= 3 && isSimple(points.value[..count]) &&
             IsConvex(Oriented(points.value[..count]))) ==>
      Expected(points, count, isSimple, approx) == Success([points.value[..count]])
    ensures (points.Some? && count >= 3 && isSimple(points.value[..count]) &&
             !IsConvex(Oriented(points.value[..count])) && approx(Oriented(points.value[..count])) == Parts([])) ==>
      Expected(points, count, isSimple, approx) == Failure(NoPolygons)
    ensures Expected(points, count, isSimple, approx).Success? ==> |Expected(points, count, isSimple, approx).pieces| >= 1
  {
  }

  // ---------------------------------------------------------------------------------------
  // The C code

  /** `alloc_error`: a copy of the message with its terminating NUL, or NULL when `malloc` fails. */
  method AllocError(heap: Heap, msg: string) returns (err: array?<char>)
    modifies heap
    ensures heap.calls == old(heap.calls) + 1
    ensures err == null <==> heap.fails(old(heap.calls))
    ensures err == null ==> heap.live == old(heap.live)
    ensures err != null ==> fresh(err) && err[..] == msg + ['\0'] && heap.live == old(heap.live) + {err}
  {
    err := heap.Malloc(|msg| + 1, '\0');
    if err != null {
      var text := msg + ['\0'];
      var i := 0;
      label Copy:
      while i < |text|
        invariant 0 <= i <= |text| && err[..i] == text[..i]
        invariant unchanged@Copy(heap)
      {
        err[i] := text[i];
        i := i + 1;
      }
    }
  }

  /** A failed call: a new result holding only the message. */
  method Fail(heap: Heap, msg: string) returns (result: CPartitionResult)
    modifies heap
    ensures fresh(result) && result.IsFailure(msg) && result.Owned() == heap.live - old(heap.live)
    ensures old(heap.live) <= heap.live && result.Freeable(heap)
    ensures heap.calls == old(heap.calls) + 1 && (!heap.fails(old(heap.calls)) ==> result.error != null)
  {
    result := new CPartitionResult();
    result.error := AllocError(heap, msg);
  }

  /** The out-of-memory exit of a result that holds nothing yet: only the message is attached. */
  method FailOutOfMemory(heap: Heap, result: CPartitionResult)
    requires result.polygons == null && result.count == 0 && result.error == null
    modifies heap, result
    ensures result.IsFailure(OutOfMemory) && result.Owned() == heap.live - old(heap.live)
    ensures old(heap.live) <= heap.live && result.Freeable(heap)
    ensures heap.calls == old(heap.calls) + 1
  {
    result.error := AllocError(heap, OutOfMemory);
  }

  /** `partition_polygon_convex`. On every path the blocks the result owns are exactly the blocks
      the call left allocated, and the result can be freed. When no allocation fails, the result is
      the expected answer; when one fails, it is at worst an out-of-memory failure. */
  method PartitionPolygonConvex(heap: Heap, points: Option<seq<Point>>, count: int,
                                isSimple: seq<Point> -> bool, approx: seq<Point> -> PartitionOutcome)
    returns (result: CPartitionResult)
    requires points.Some? ==> count <= |points.value|
    modifies heap
    ensures fresh(result) && result.Owned() == heap.live - old(heap.live) && old(heap.live) <= heap.live
    ensures result.Freeable(heap)
    ensures var e := Expected(points, count, isSimple, approx);
      && (e.Failure? ==> result.IsFailure(e.msg))
      && (e.Success? ==> result.Holds(e.pieces) || result.IsFailure(OutOfMemory))
      && (heap.NoFailure(old(heap.calls), heap.calls) ==>
            if e.Failure? then result.error != null else result.Holds(e.pieces))
  {
    if points.None? || count < 3 {
      result := Fail(heap, InvalidInput);
      return;
    }
    var pts := points.value[..count];
    if !isSimple(pts) {
      result := Fail(heap, NotSimple);
      return;
    }
    var polygon := pts;
    var clockwise := IsClockwise(polygon);
    if clockwise {
      polygon := ReverseOrientation(polygon);
    }
    if IsConvex(polygon) {
      result := ConvexResult(heap, points.value, count);
      return;
    }
    var outcome := approx(polygon);
    match outcome {
      case Threw(what) =>
        result := Fail(heap, what);
      case ThrewUnknown =>
        result := Fail(heap, UnknownError);
      case Parts(partitionPolys) =>
        if |partitionPolys| == 0 {
          result := Fail(heap, NoPolygons);
          return;
        }
        result := PackPieces(heap, partitionPolys);
    }
  }

  /** Copies `pts` into a block of the same length. */
  method CopyPoints(block: array<Point>, pts: seq<Point>)
    requires block.Length == |pts|
    modifies block
    ensures block[..] == pts
  {
    var i := 0;
    while i < |pts|
      invariant 0 <= i <= |pts| && block[..i] == pts[..i]
    {
      block[i] := pts[i];
      i := i + 1;
    }
  }

  /** The convex shortcut: one record whose block is a copy of the caller's first `count` points
      (not of the reoriented polygon). */
  method ConvexResult(heap: Heap, points: seq<Point>, count: int) returns (result: CPartitionResult)
    requires 3 <= count <= |points|
    modifies heap
    ensures fresh(result) && result.Owned() == heap.live - old(heap.live) && old(heap.live) <= heap.live
    ensures result.Freeable(heap)
    ensures result.Holds([points[..count]]) || result.IsFailure(OutOfMemory)
    ensures heap.NoFailure(old(heap.calls), heap.calls) ==> result.Holds([points[..count]])
  {
    result := new CPartitionResult();
    var polys := heap.Malloc(1, CPolygon(null, 0));
    result.polygons := polys;
    if polys == null {
      FailOutOfMemory(heap, result);
      return;
    }
    result.count := 1;
    ghost var packCall := heap.calls;
    var ok := PackPiece(heap, polys, 0, points[..count]);
    if !ok {
      heap.Free(polys);
      result.polygons := null;
      result.count := 0;
      FailOutOfMemory(heap, result);
      assert old(heap.calls) <= packCall < heap.calls && heap.fails(packCall);
      return;
    }
    var block := polys[0].points;
    assert polys[..1] == [CPolygon(block, count)];
    assert BlocksOf([CPolygon(block, count)]) == {block};
    assert result.Owned() == {polys as object, block as object};
    assert heap.live == old(heap.live) + {polys as object, block as object};
    assert result.Holds([points[..count]]);
  }

  /** The cleanup when the block of record `upto` could not be allocated: the blocks of the
      records before it and the record array go back to the heap. */
  method ReleasePacked(heap: Heap, polys: array<CPolygon>, upto: int)
    requires 0 <= upto <= polys.Length
    requires polys in heap.live && BlocksOf(polys[..upto]) <= heap.live
    requires forall i, j :: 0 <= i < j < upto ==> polys[i].points != polys[j].points
    requires forall i :: 0 <= i < upto ==> polys[i].points != null
    modifies heap
    ensures heap.live == old(heap.live) - {polys} - BlocksOf(polys[..upto]) && heap.calls == old(heap.calls)
  {
    var j := 0;
    while j < upto
      invariant 0 <= j <= upto
      invariant heap.live == old(heap.live) - BlocksOf(polys[..j]) && heap.calls == old(heap.calls)
    {
      BlocksOfSnoc(polys[..j], polys[j]);
      assert polys[..j + 1] == polys[..j] + [polys[j]];
      assert polys[j].points in BlocksOf(polys[..upto]) by { assert polys[j] in polys[..upto]; }
      assert polys[j].points !in BlocksOf(polys[..j]);
      heap.Free(polys[j].points);
      j := j + 1;
    }
    heap.Free(polys);
  }

  /** One step of the packing loop: record `idx` gets the piece's length and a fresh block with
      the piece's points, unless `malloc` fails, when the record's block is NULL. */
  method PackPiece(heap: Heap, polys: array<CPolygon>, idx: int, piece: seq<Point>) returns (ok: bool)
    requires 0 <= idx < polys.Length
    modifies heap, polys
    ensures heap.calls == old(heap.calls) + 1 && (ok <==> !heap.fails(old(heap.calls)))
    ensures polys[..idx] == old(polys[..idx]) && polys[idx].count == |piece|
    ensures !ok ==> polys[idx].points == null && heap.live == old(heap.live)
    ensures ok ==> && polys[idx].points != null && fresh(polys[idx].points)
                   && polys[idx].points[..] == piece
                   && heap.live == old(heap.live) + {polys[idx].points}
  {
    polys[idx] := CPolygon(null, |piece|);
    var block := heap.Malloc(|piece|, Point(0.0, 0.0));
    polys[idx] := CPolygon(block, |piece|);
    ok := block != null;
    if ok {
      CopyPoints(block, piece);
    }
  }

  /** The packing loop over a fresh record array. When every block is allocated, record i holds
      piece i in its own fresh block; when one is not, the blocks allocated so far and the record
      array itself are freed. */
  method FillRecords(heap: Heap, polys: array<CPolygon>, pieces: seq<seq<Point>>) returns (ok: bool)
    requires polys.Length == |pieces| && polys in heap.live
    modifies heap, polys
    ensures old(heap.calls) <= heap.calls && (ok <==> heap.NoFailure(old(heap.calls), heap.calls))
    ensures !ok ==> heap.live == old(heap.live) - {polys}
    ensures ok ==> heap.live == old(heap.live) + BlocksOf(polys[..])
    ensures ok ==> forall i :: 0 <= i < polys.Length ==> polys[i].points != null && fresh(polys[i].points)
    ensures ok ==> forall i, j :: 0 <= i < j < polys.Length ==> polys[i].points != polys[j].points
    ensures ok ==> forall i :: 0 <= i < polys.Length ==> polys[i].count == |pieces[i]| && polys[i].points[..] == pieces[i]
  {
    var polyIdx := 0;
    ghost var recs: seq<CPolygon> := [];
    while polyIdx < |pieces|
      invariant 0 <= polyIdx <= |pieces| && polyIdx == |recs| && polys[..polyIdx] == recs
      invariant forall i :: 0 <= i < |recs| ==> recs[i].points != null && fresh(recs[i].points)
      invariant heap.live == old(heap.live) + BlocksOf(recs)
      invariant forall i, j :: 0 <= i < j < |recs| ==> recs[i].points != recs[j].points
      invariant forall i :: 0 <= i < |recs| ==> recs[i].count == |pieces[i]| && recs[i].points[..] == pieces[i]
      invariant old(heap.calls) <= heap.calls && heap.NoFailure(old(heap.calls), heap.calls)
    {
      ghost var call := heap.calls;
      label Step:
      ok := PackPiece(heap, polys, polyIdx, pieces[polyIdx]);
      if !ok {
        assert polys !in BlocksOf(recs);
        ReleasePacked(heap, polys, polyIdx);
        assert old(heap.calls) <= call < heap.calls && heap.fails(call);
        return;
      }
      ghost var next := polys[polyIdx];
      forall i | 0 <= i < |recs|
        ensures recs[i].points[..] == old@Step(recs[i].points[..]) && recs[i].points != next.points
      {
      }
      assert polys[..polyIdx + 1] == recs + [next];
      BlocksOfSnoc(recs, next);
      recs := recs + [next];
      polyIdx := polyIdx + 1;
    }
    assert polys[..] == recs;
    ok := true;
  }

  /** Packing the pieces of a successful partition into fresh C records, with the cleanup of
      every earlier block when an allocation fails part way. */
  method PackPieces(heap: Heap, pieces: seq<seq<Point>>) returns (result: CPartitionResult)
    requires |pieces| > 0
    modifies heap
    ensures fresh(result) && result.Owned() == heap.live - old(heap.live) && old(heap.live) <= heap.live
    ensures result.Freeable(heap)
    ensures result.Holds(pieces) || result.IsFailure(OutOfMemory)
    ensures heap.NoFailure(old(heap.calls), heap.calls) ==> result.Holds(pieces)
  {
    result := new CPartitionResult();
    result.count := |pieces|;
    var polys := heap.Malloc(|pieces|, CPolygon(null, 0));
    result.polygons := polys;
    if polys == null {
      result.error := AllocError(heap, OutOfMemory);
      result.count := 0;
      return;
    }
    ghost var firstCall := old(heap.calls);
    var ok := FillRecords(heap, polys, pieces);
    if !ok {
      ghost var mid := heap.calls;
      result.polygons := null;
      result.count := 0;
      result.error := AllocError(heap, OutOfMemory);
      assert !heap.NoFailure(old(heap.calls), heap.calls) by {
        assert !heap.NoFailure(firstCall + 1, mid);
      }
      return;
    }
    assert polys[..Clamp(result.count, polys.Length)] == polys[..];
  }

  /** `free_partition_result`: NULL-safe; frees every owned block and resets the result, so a
      second call frees nothing. */
  method FreePartitionResult(heap: Heap, result: CPartitionResult?)
    requires result != null ==> result.Freeable(heap)
    modifies heap, result
    ensures result != null ==>
      && result.polygons == null && result.error == null && result.count == 0
      && heap.live == old(heap.live) - old(result.Owned())
      && result.Owned() == {} && result.Freeable(heap)
    ensures result == null ==> heap.live == old(heap.live)
  {
    if result == null {
      return;
    }
    if result.polygons != null {
      var polys := result.polygons;
      var i := 0;
      label Release:
      while i < result.count
        invariant 0 <= i <= result.count <= polys.Length
        invariant unchanged@Release(polys)
        invariant result.polygons == polys && result.count == old(result.count) && result.error == old(result.error)
        invariant heap.live == old(heap.live) - set k | 0 <= k < i && polys[k].points != null :: polys[k].points as object
      {
        if polys[i].points != null {
          heap.Free(polys[i].points);
        }
        i := i + 1;
      }
      heap.Free(polys);
      result.polygons := null;
    }
    if result.error != null {
      heap.Free(result.error);
      result.error := null;
    }
    result.count := 0;
  }
}
