/**
  Re-encoding of one decoded feature into the output layer (src/feature_builder.hpp).

  vtzero's geometry decoder, which calls a handler's *_begin, *_point and
  *_end callbacks for each part or ring of a feature, is modelled by the
  Collect* and DecodePolygon methods below: they drive a fresh handler over an
  already decoded geometry in the order vtzero would. boost::geometry's
  intersection routines are function parameters (ClipLinesFn, ClipRingFn);
  nothing is assumed about what they return.
*/
module FeatureBuilder {
  import opened Wrappers
  import opened Geometry

  /** vtzero::ring_type: the decoder classifies each ring by its winding. */
  datatype RingType = OuterRing | InnerRing | InvalidRing

  datatype DecodedRing = DecodedRing(points: seq<Point>, kind: RingType)

  /** A feature's geometry after decoding, tagged by its geometry type. */
  datatype DecodedGeometry =
    | PointGeometry(points: seq<Point>)
    | LineStringGeometry(parts: seq<seq<Point>>)
    | PolygonGeometry(rings: seq<DecodedRing>)
    | UnknownGeometry

  /** A feature property; values are kept as opaque text. */
  datatype Property = Property(key: string, value: string)

  datatype Feature = Feature(id: Option<nat>, geometry: DecodedGeometry, properties: seq<Property>)

  /** A feature as committed to the output layer builder. */
  datatype BuiltFeature =
    | PointFeature(id: Option<nat>, points: seq<Point>, properties: seq<Property>)
    | LineStringFeature(id: Option<nat>, lines: seq<seq<Point>>, properties: seq<Property>)
    | PolygonFeature(id: Option<nat>, rings: seq<seq<Point>>, properties: seq<Property>)

  /** An outer ring followed by its inner rings. */
  type Polygon = seq<seq<Point>>

  /** boost::geometry::intersection of a multi-line-string with a box. */
  type ClipLinesFn = (seq<seq<Point>>, Box) -> seq<seq<Point>>

  /** boost::geometry::intersection of a ring with a box. */
  type ClipRingFn = (seq<Point>, Box) -> seq<Polygon>

  /** Where decoded points go: scale by the zoom factor, move by (dx, dy),
      and the clip box of the requested tile. */
  datatype Placement = Placement(bbox: Box, dx: int, dy: int, zoomFactor: int)

  /** The kept points of one decoded line or ring, in output coordinates. */
  function KeptPart(raw: seq<Point>, p: Placement): seq<Point>
  {
    TransformAll(Dedup(raw), p.zoomFactor, p.dx, p.dy)
  }

  function KeptParts(parts: seq<seq<Point>>, p: Placement): seq<seq<Point>>
  {
    seq(|parts|, i requires 0 <= i < |parts| => KeptPart(parts[i], p))
  }

  // ---------------------------------------------------------------------------
  // Points
  // ---------------------------------------------------------------------------

  class PointHandler {
    /** The caller's multi_point the handler appends to. */
    var geom: seq<Point>
    const bbox: Box
    const dx: int
    const dy: int
    const zoomFactor: int

    constructor (geom: seq<Point>, dx: int, dy: int, zoomFactor: int, bbox: Box)
      ensures this.geom == geom && this.bbox == bbox
      ensures this.dx == dx && this.dy == dy && this.zoomFactor == zoomFactor
    {
      this.geom := geom;
      this.bbox := bbox;
      this.dx := dx;
      this.dy := dy;
      this.zoomFactor := zoomFactor;
    }

    /** Keep the transformed point when it lies in the closed clip box. */
    method PointsPoint(pt: Point)
      modifies this
      ensures var q := Transform(pt, zoomFactor, dx, dy);
        geom == if CoveredBy(q, bbox) then old(geom) + [q] else old(geom)
    {
      var x := pt.x * zoomFactor - dx;
      var y := pt.y * zoomFactor - dy;
      var q := Point(x, y);
      if CoveredBy(q, bbox) {
        geom := geom + [q];
      }
    }
  }

  /** The multi_point of apply_geometry_point: the decoded points fed through
      a point handler. */
  method CollectPoints(points: seq<Point>, p: Placement) returns (multiPoint: seq<Point>)
    ensures multiPoint == Covered(TransformAll(points, p.zoomFactor, p.dx, p.dy), p.bbox)
  {
    var handler := new PointHandler([], p.dx, p.dy, p.zoomFactor, p.bbox);
    for i := 0 to |points|
      invariant handler.geom == Covered(TransformAll(points[..i], p.zoomFactor, p.dx, p.dy), p.bbox)
    {
      handler.PointsPoint(points[i]);
      TransformAllAppend(points[..i], points[i], p.zoomFactor, p.dx, p.dy);
      assert points[..i + 1] == points[..i] + [points[i]];
      var t := TransformAll(points[..i + 1], p.zoomFactor, p.dx, p.dy);
      assert t[..|t| - 1] == TransformAll(points[..i], p.zoomFactor, p.dx, p.dy);
    }
    assert points[..|points|] == points;
    multiPoint := handler.geom;
  }

  // ---------------------------------------------------------------------------
  // Line strings
  // ---------------------------------------------------------------------------

  class LineStringHandler {
    /** The caller's multi_line_string the handler appends to. */
    var geom: seq<seq<Point>>
    /** The last kept point in decoded coordinates. */
    var curX: int
    var curY: int
    var first: bool
    const dx: int
    const dy: int
    const zoomFactor: int

    constructor (geom: seq<seq<Point>>, dx: int, dy: int, zoomFactor: int)
      ensures this.geom == geom && curX == 0 && curY == 0 && first
      ensures this.dx == dx && this.dy == dy && this.zoomFactor == zoomFactor
    {
      this.geom := geom;
      this.dx := dx;
      this.dy := dy;
      this.zoomFactor := zoomFactor;
      curX, curY := 0, 0;
      first := true;
    }

    /** Start a new, empty part; earlier parts are left alone. */
    method LinestringBegin(count: nat)
      modifies this
      ensures geom == old(geom) + [[]] && first
      ensures curX == old(curX) && curY == old(curY)
    {
      first := true;
      geom := geom + [[]];
    }

    /** Append the transformed point to the current part unless it repeats the
        previously kept decoded point; the first point of a part is always kept. */
    method LinestringPoint(pt: Point)
      requires |geom| > 0
      modifies this
      ensures var keep := old(first) || pt.x != old(curX) || pt.y != old(curY);
        |geom| == |old(geom)| &&
        geom[..|geom| - 1] == old(geom)[..|geom| - 1] &&
        geom[|geom| - 1] == old(geom)[|geom| - 1] + (if keep then [Transform(pt, zoomFactor, dx, dy)] else []) &&
        (keep ==> curX == pt.x && curY == pt.y && !first) &&
        (!keep ==> curX == old(curX) && curY == old(curY) && first == old(first))
    {
      if first || pt.x != curX || pt.y != curY {
        var x := pt.x * zoomFactor - dx;
        var y := pt.y * zoomFactor - dy;
        geom := geom[..|geom| - 1] + [geom[|geom| - 1] + [Point(x, y)]];
        curX, curY := pt.x, pt.y;
        first := false;
      }
    }
  }

  /** The multi_line_string of apply_geometry_linestring: every decoded part
      fed through a line string handler. */
  method CollectLineStrings(parts: seq<seq<Point>>, p: Placement) returns (multiLine: seq<seq<Point>>)
    ensures multiLine == KeptParts(parts, p)
  {
    var handler := new LineStringHandler([], p.dx, p.dy, p.zoomFactor);
    for i := 0 to |parts|
      invariant handler.geom == KeptParts(parts[..i], p)
    {
      var raw := parts[i];
      handler.LinestringBegin(|raw|);
      for j := 0 to |raw|
        invariant |handler.geom| == i + 1
        invariant handler.geom[..i] == KeptParts(parts[..i], p)
        invariant handler.geom[i] == KeptPart(raw[..j], p)
        invariant j == 0 ==> handler.first
        invariant j > 0 ==> !handler.first && Point(handler.curX, handler.curY) == raw[j - 1]
      {
        handler.LinestringPoint(raw[j]);
        DedupStep(raw, j);
        TransformAllAppend(Dedup(raw[..j]), raw[j], p.zoomFactor, p.dx, p.dy);
      }
      assert raw[..|raw|] == raw;
      assert handler.geom == KeptParts(parts[..i + 1], p);
    }
    assert parts[..|parts|] == parts;
    multiLine := handler.geom;
  }

  /** Whether a clipped line has a point different from its first one. */
  predicate PartMoves(l: seq<Point>)
  {
    |l| > 1 && exists i :: 0 < i < |l| && l[i] != l[0]
  }

  /** The lines apply_geometry_linestring writes: every clipped line of more
      than one point, without its repeated neighbouring points. */
  function WrittenLines(result: seq<seq<Point>>): seq<seq<Point>>
    decreases |result|
  {
    if result == [] then []
    else
      var l := result[|result| - 1];
      WrittenLines(result[..|result| - 1]) + (if |l| > 1 then [Dedup(l)] else [])
  }

  /** The writing loop of apply_geometry_linestring. `valid` is reset for
      every clipped line, so it ends up telling whether the LAST line moves. */
  method WriteLineStrings(result: seq<seq<Point>>) returns (lines: seq<seq<Point>>, valid: bool)
    ensures lines == WrittenLines(result)
    ensures valid <==> |result| > 0 && PartMoves(result[|result| - 1])
  {
    lines := [];
    valid := false;
    for n := 0 to |result|
      invariant lines == WrittenLines(result[..n])
      invariant valid <==> n > 0 && PartMoves(result[n - 1])
    {
      var l := result[n];
      valid := false;
      if |l| > 1 {
        var part := [l[0]];
        var last := l[0];
        assert part == Dedup(l[..1]) by { DedupStep(l, 0); }
        for k := 1 to |l|
          invariant part == Dedup(l[..k])
          invariant last == l[k - 1]
          invariant valid <==> exists i :: 0 < i < k && l[i] != l[0]
        {
          DedupStep(l, k);
          if l[k] != last {
            valid := true;
            part := part + [l[k]];
            last := l[k];
          } else {
            if l[k] != l[0] {
              assert 0 < k - 1 && l[k - 1] != l[0];
            }
          }
        }
        assert l[..|l|] == l;
        lines := lines + [part];
      }
      assert result[..n + 1][..n] == result[..n];
    }
    assert result[..|result|] == result;
  }

  /** Every written line keeps its first and last point, has no repeated
      neighbours, and the feature is committed exactly when the last clipped
      line keeps at least two points. */
  lemma {:induction false} WrittenLinesShape(result: seq<seq<Point>>)
    ensures forall w :: w in WrittenLines(result) ==> |w| >= 1 && NoRepeats(w)
    ensures |result| > 0 ==> (PartMoves(result[|result| - 1]) <==> |Dedup(result[|result| - 1])| > 1)
    decreases |result|
  {
    if result != [] {
      var l := result[|result| - 1];
      WrittenLinesShape(result[..|result| - 1]);
      DedupShape(l);
      DedupMoves(l);
    }
  }

  // ---------------------------------------------------------------------------
  // Polygons
  // ---------------------------------------------------------------------------

  /** The rings of a clipped polygon, turned back for an inner ring. */
  function Oriented(poly: Polygon, kind: RingType): Polygon
  {
    if kind == InnerRing then seq(|poly|, i requires 0 <= i < |poly| => Reverse(poly[i])) else poly
  }

  /** The rings of more than three points, in order. */
  function LongRings(rings: seq<seq<Point>>): seq<seq<Point>>
    decreases |rings|
  {
    if rings == [] then []
    else
      var r := rings[|rings| - 1];
      LongRings(rings[..|rings| - 1]) + (if |r| > 3 then [r] else [])
  }

  /** The rings written for the polygons returned by the clipping routine. */
  function ClippedRings(result: seq<Polygon>, kind: RingType): seq<seq<Point>>
    decreases |result|
  {
    if result == [] then []
    else ClippedRings(result[..|result| - 1], kind) + LongRings(Oriented(result[|result| - 1], kind))
  }

  /** The rings ring_end hands to the feature builder for one finished ring,
      with the shortcut as the comment of ring_end describes it: a ring whose
      extent lies within the clip box is written whole, any other is clipped. */
  function RingOutput(ring: seq<Point>, extent: Box, kind: RingType, skip: bool, bbox: Box, clip: ClipRingFn): seq<seq<Point>>
  {
    if skip || |ring| <= 3 then []
    else if Covers(bbox, extent) then [ring]
    else ClippedRings(clip(if kind == InnerRing then Reverse(ring) else ring, bbox), kind)
  }

  /** ring_end's shortcut as its condition is written: the ring is written
      whole when its extent covers the clip box. */
  function RingOutputAsWritten(ring: seq<Point>, extent: Box, kind: RingType, skip: bool, bbox: Box, clip: ClipRingFn): seq<seq<Point>>
  {
    if skip || |ring| <= 3 then []
    else if Covers(extent, bbox) then [ring]
    else ClippedRings(clip(if kind == InnerRing then Reverse(ring) else ring, bbox), kind)
  }

  /** Under the written condition, an outer ring larger than the clip box
      on every side is written unclipped, points outside the box included,
      whatever the clipping routine would have returned. */
  lemma AsWrittenKeepsPointsOutsideBox(clip: ClipRingFn)
    ensures var ring := [Point(-5, -5), Point(15, -5), Point(15, 15), Point(-5, 15), Point(-5, -5)];
      var bbox := Box(Point(0, 0), Point(10, 10));
      var out := RingOutputAsWritten(ring, Bounds(ring), OuterRing, false, bbox, clip);
      out == [ring] && !CoveredBy(out[0][0], bbox)
  {
    var ring := [Point(-5, -5), Point(15, -5), Point(15, 15), Point(-5, 15), Point(-5, -5)];
    BoundsTight(ring);
    assert ring[0] in ring && ring[2] in ring;
  }

  /** Whatever ring_end writes has more than three points. */
  lemma {:induction false} RingOutputLong(ring: seq<Point>, extent: Box, kind: RingType, skip: bool, bbox: Box, clip: ClipRingFn)
    ensures forall r :: r in RingOutput(ring, extent, kind, skip, bbox, clip) ==> |r| > 3
  {
    if !skip && |ring| > 3 && !Covers(bbox, extent) {
      ClippedRingsLong(clip(if kind == InnerRing then Reverse(ring) else ring, bbox), kind);
    }
  }

  /** Every point of every ring lies in the closed box. */
  predicate RingsWithin(rings: seq<seq<Point>>, b: Box)
  {
    forall r, q :: r in rings && q in r ==> CoveredBy(q, b)
  }

  predicate PolygonsWithin(result: seq<Polygon>, b: Box)
  {
    forall poly :: poly in result ==> RingsWithin(poly, b)
  }

  /** What boost::geometry::intersection promises: its polygons lie in the box. */
  ghost predicate ClipRingWithin(clip: ClipRingFn)
  {
    forall ring, b :: PolygonsWithin(clip(ring, b), b)
  }

  /** What boost::geometry::intersection promises: its lines lie in the box. */
  ghost predicate ClipLinesWithin(clip: ClipLinesFn)
  {
    forall lines, b :: RingsWithin(clip(lines, b), b)
  }

  lemma {:induction false} ClippedRingsWithin(result: seq<Polygon>, kind: RingType, b: Box)
    requires PolygonsWithin(result, b)
    ensures RingsWithin(ClippedRings(result, kind), b)
    decreases |result|
  {
    if result != [] {
      var last := result[|result| - 1];
      ClippedRingsWithin(result[..|result| - 1], kind, b);
      LongRingsLong(Oriented(last, kind));
      assert last in result;
      forall r, q | r in Oriented(last, kind) && q in r
        ensures CoveredBy(q, b)
      {
        if kind == InnerRing {
          var i :| 0 <= i < |last| && r == Reverse(last[i]);
          ReverseMembers(last[i]);
          assert last[i] in last;
        }
      }
    }
  }

  /** With a clipping routine that keeps to the box, every ring ring_end
      writes lies in the clip box: a ring written whole lies in its extent,
      and the extent lies in the box. */
  lemma RingOutputWithinBox(ring: seq<Point>, extent: Box, kind: RingType, skip: bool, bbox: Box, clip: ClipRingFn)
    requires ClipRingWithin(clip)
    requires ring != [] ==> extent == Bounds(ring)
    ensures RingsWithin(RingOutput(ring, extent, kind, skip, bbox, clip), bbox)
  {
    if !skip && |ring| > 3 {
      if Covers(bbox, extent) {
        BoundsTight(ring);
      } else {
        ClippedRingsWithin(clip(if kind == InnerRing then Reverse(ring) else ring, bbox), kind, bbox);
      }
    }
  }

  lemma {:induction false} LongRingsLong(rings: seq<seq<Point>>)
    ensures forall r :: r in LongRings(rings) ==> r in rings && |r| > 3
    decreases |rings|
  {
    if rings != [] {
      LongRingsLong(rings[..|rings| - 1]);
    }
  }

  lemma {:induction false} ClippedRingsLong(result: seq<Polygon>, kind: RingType)
    ensures forall r :: r in ClippedRings(result, kind) ==> |r| > 3
    decreases |result|
  {
    if result != [] {
      ClippedRingsLong(result[..|result| - 1], kind);
      LongRingsLong(Oriented(result[|result| - 1], kind));
    }
  }

  /** The inner loop of ring_end over the rings of one clipped polygon: each
      ring is written when it has more than three points. */
  method WriteLongRings(geom: Polygon) returns (written: seq<seq<Point>>)
    ensures written == LongRings(geom)
  {
    written := [];
    for k := 0 to |geom|
      invariant written == LongRings(geom[..k])
    {
      if |geom[k]| > 3 {
        written := written + [geom[k]];
      }
      assert geom[..k + 1][..k] == geom[..k];
    }
    assert geom[..|geom|] == geom;
  }

  /** The outer loop of ring_end over the polygons returned by the clipping
      routine: each polygon, turned back for an inner ring, contributes its
      long rings. */
  method WriteClipped(result: seq<Polygon>, kind: RingType) returns (written: seq<seq<Point>>)
    ensures written == ClippedRings(result, kind)
  {
    written := [];
    for g := 0 to |result|
      invariant written == ClippedRings(result[..g], kind)
    {
      var long := WriteLongRings(Oriented(result[g], kind));
      written := written + long;
      assert result[..g + 1][..g] == result[..g];
    }
    assert result[..|result|] == result;
  }

  /** The part of a polygon handler's state that outlives one ring. */
  datatype PolyState = PolyState(extent: Box, skip: bool, valid: bool, rings: seq<seq<Point>>)

  const InitialPolyState: PolyState := PolyState(Box(Point(0, 0), Point(0, 0)), false, false, [])

  /** One ring through ring_begin, ring_point for each of its points, and ring_end. */
  function RingStep(st: PolyState, r: DecodedRing, p: Placement, clip: ClipRingFn): PolyState
  {
    var ring := KeptPart(r.points, p);
    var extent := if ring == [] then st.extent else Bounds(ring);
    var skip := if r.kind == OuterRing then !Intersects(extent, p.bbox) else st.skip;
    PolyState(extent, skip,
              st.valid || (r.kind == OuterRing && Intersects(extent, p.bbox)),
              st.rings + RingOutput(ring, extent, r.kind, skip, p.bbox, clip))
  }

  /** A polygon handler driven over a sequence of decoded rings. */
  function PolygonRun(st: PolyState, rings: seq<DecodedRing>, p: Placement, clip: ClipRingFn): PolyState
    decreases |rings|
  {
    if rings == [] then st
    else RingStep(PolygonRun(st, rings[..|rings| - 1], p, clip), rings[|rings| - 1], p, clip)
  }

  class PolygonHandler {
    /** The rings handed to the polygon feature builder so far. */
    var rings: seq<seq<Point>>
    /** The kept points of the current ring, in output coordinates. */
    var ring: seq<Point>
    var extent: Box
    var curX: int
    var curY: int
    var first: bool
    var skip: bool
    var valid: bool
    const bbox: Box
    const dx: int
    const dy: int
    const zoomFactor: int
    const clip: ClipRingFn

    /** The extent is the bounding box of the current ring's kept points, and
        every ring written has more than three points. */
    ghost predicate Valid()
      reads this
    {
      (first <==> ring == []) &&
      (ring != [] ==> extent == Bounds(ring)) &&
      (forall r :: r in rings ==> |r| > 3)
    }

    function State(): PolyState
      reads this
    {
      PolyState(extent, skip, valid, rings)
    }

    function Place(): Placement
    {
      Placement(bbox, dx, dy, zoomFactor)
    }

    constructor (bbox: Box, dx: int, dy: int, zoomFactor: int, clip: ClipRingFn)
      ensures Valid() && State() == InitialPolyState
      ensures Place() == Placement(bbox, dx, dy, zoomFactor) && this.clip == clip
    {
      this.bbox := bbox;
      this.dx := dx;
      this.dy := dy;
      this.zoomFactor := zoomFactor;
      this.clip := clip;
      rings := [];
      ring := [];
      extent := Box(Point(0, 0), Point(0, 0));
      curX, curY := 0, 0;
      first, skip, valid := true, false, false;
    }

    method RingBegin(count: nat)
      requires Valid()
      modifies this
      ensures Valid() && first && ring == []
      ensures State() == old(State()) && curX == old(curX) && curY == old(curY)
    {
      first := true;
      ring := [];
    }

    /** Keep the point unless it repeats the previously kept decoded point, and
        widen the extent to cover it. */
    method RingPoint(pt: Point)
      requires Valid()
      modifies this
      ensures Valid()
      ensures var keep := old(first) || pt.x != old(curX) || pt.y != old(curY);
        ring == old(ring) + (if keep then [Transform(pt, zoomFactor, dx, dy)] else []) &&
        (keep ==> curX == pt.x && curY == pt.y && !first) &&
        (!keep ==> curX == old(curX) && curY == old(curY) && first == old(first) && extent == old(extent))
      ensures skip == old(skip) && valid == old(valid) && rings == old(rings)
    {
      if first || pt.x != curX || pt.y != curY {
        var x := pt.x * zoomFactor - dx;
        var y := pt.y * zoomFactor - dy;
        ghost var before := ring;
        ring := ring + [Point(x, y)];
        if first {
          extent := Box(Point(x, y), Point(x, y));
        } else {
          if x < extent.min.x { extent := extent.(min := extent.min.(x := x)); }
          if x > extent.max.x { extent := extent.(max := extent.max.(x := x)); }
          if y < extent.min.y { extent := extent.(min := extent.min.(y := y)); }
          if y > extent.max.y { extent := extent.(max := extent.max.(y := y)); }
          assert ring[..|ring| - 1] == before;
        }
        curX, curY := pt.x, pt.y;
        first := false;
      }
    }

    /** Decide skip and valid from an outer ring's extent, then write the ring:
        whole when its extent lies within the clip box, clipped otherwise. An
        inner ring that is clipped is reversed in place first. */
    method RingEnd(kind: RingType)
      requires Valid()
      modifies this
      ensures Valid()
      ensures skip == (if kind == OuterRing then !Intersects(extent, bbox) else old(skip))
      ensures valid == (old(valid) || (kind == OuterRing && Intersects(extent, bbox)))
      ensures rings == old(rings) + RingOutput(old(ring), extent, kind, skip, bbox, clip)
      ensures ring == (if kind == InnerRing && !skip && |old(ring)| > 3 && !Covers(bbox, extent)
                       then Reverse(old(ring)) else old(ring))
      ensures extent == old(extent) && first == old(first)
      ensures curX == old(curX) && curY == old(curY)
    {
      if kind == OuterRing {
        if !Intersects(extent, bbox) {
          skip := true;
        } else {
          skip := false;
          valid := true;
        }
      }
      if !skip && |ring| > 3 {
        if extent.min.x >= bbox.min.x && extent.max.x <= bbox.max.x &&
           extent.min.y >= bbox.min.y && extent.max.y <= bbox.max.y {
          rings := rings + [ring];
        } else {
          if kind == InnerRing {
            ReverseMembers(ring);
            BoundsSameMembers(ring, Reverse(ring));
            ring := Reverse(ring);
          }
          var written := WriteClipped(clip(ring, bbox), kind);
          ClippedRingsLong(clip(ring, bbox), kind);
          rings := rings + written;
        }
      }
    }
  }

  /** One decoded ring through a polygon handler: ring_begin, ring_point for
      each of its points, and ring_end. */
  method DecodeRing(handler: PolygonHandler, r: DecodedRing)
    requires handler.Valid()
    modifies handler
    ensures handler.Valid()
    ensures handler.State() == RingStep(old(handler.State()), r, handler.Place(), handler.clip)
  {
    var raw := r.points;
    var p := handler.Place();
    ghost var before := handler.State();
    handler.RingBegin(|raw|);
    for j := 0 to |raw|
      invariant handler.Valid()
      invariant handler.ring == KeptPart(raw[..j], p)
      invariant handler.ring == [] ==> handler.extent == before.extent
      invariant handler.skip == before.skip && handler.valid == before.valid && handler.rings == before.rings
      invariant j == 0 ==> handler.first
      invariant j > 0 ==> !handler.first && Point(handler.curX, handler.curY) == raw[j - 1]
    {
      handler.RingPoint(raw[j]);
      DedupStep(raw, j);
      TransformAllAppend(Dedup(raw[..j]), raw[j], p.zoomFactor, p.dx, p.dy);
    }
    assert raw[..|raw|] == raw;
    handler.RingEnd(r.kind);
  }

  /** The polygon handler of apply_geometry_polygon driven over the decoded
      rings in order. */
  method DecodePolygon(rings: seq<DecodedRing>, p: Placement, clip: ClipRingFn) returns (st: PolyState)
    ensures st == PolygonRun(InitialPolyState, rings, p, clip)
  {
    var handler := new PolygonHandler(p.bbox, p.dx, p.dy, p.zoomFactor, clip);
    for i := 0 to |rings|
      invariant handler.Valid() && handler.Place() == p && handler.clip == clip
      invariant handler.State() == PolygonRun(InitialPolyState, rings[..i], p, clip)
    {
      DecodeRing(handler, rings[i]);
      PolygonRunStep(InitialPolyState, rings, i, p, clip);
    }
    assert rings[..|rings|] == rings;
    st := handler.State();
  }

  /** A run over one more ring is one more ring step. */
  lemma PolygonRunStep(st: PolyState, rings: seq<DecodedRing>, n: nat, p: Placement, clip: ClipRingFn)
    requires n < |rings|
    ensures PolygonRun(st, rings[..n + 1], p, clip) == RingStep(PolygonRun(st, rings[..n], p, clip), rings[n], p, clip)
  {
    assert rings[..n + 1][..n] == rings[..n];
  }

  /** Every ring a polygon run writes has more than three points. */
  lemma {:induction false} PolygonRunRingsLong(st: PolyState, rings: seq<DecodedRing>, p: Placement, clip: ClipRingFn)
    requires forall r :: r in st.rings ==> |r| > 3
    ensures forall r :: r in PolygonRun(st, rings, p, clip).rings ==> |r| > 3
    decreases |rings|
  {
    if rings != [] {
      var prev := PolygonRun(st, rings[..|rings| - 1], p, clip);
      PolygonRunRingsLong(st, rings[..|rings| - 1], p, clip);
      var r := rings[|rings| - 1];
      var ring := KeptPart(r.points, p);
      var extent := if ring == [] then prev.extent else Bounds(ring);
      var skip := if r.kind == OuterRing then !Intersects(extent, p.bbox) else prev.skip;
      RingOutputLong(ring, extent, r.kind, skip, p.bbox, clip);
    }
  }

  /** With a clipping routine that keeps to the box, a polygon run writes
      only rings lying in the clip box. */
  lemma {:induction false} PolygonRunWithinBox(st: PolyState, rings: seq<DecodedRing>, p: Placement, clip: ClipRingFn)
    requires ClipRingWithin(clip)
    requires RingsWithin(st.rings, p.bbox)
    ensures RingsWithin(PolygonRun(st, rings, p, clip).rings, p.bbox)
    decreases |rings|
  {
    if rings != [] {
      var prev := PolygonRun(st, rings[..|rings| - 1], p, clip);
      PolygonRunWithinBox(st, rings[..|rings| - 1], p, clip);
      var r := rings[|rings| - 1];
      var ring := KeptPart(r.points, p);
      var extent := if ring == [] then prev.extent else Bounds(ring);
      var skip := if r.kind == OuterRing then !Intersects(extent, p.bbox) else prev.skip;
      RingOutputWithinBox(ring, extent, r.kind, skip, p.bbox, clip);
    }
  }

  /** With a clipping routine that keeps to the box, the written lines lie in
      the clip box. */
  lemma {:induction false} WrittenLinesWithinBox(result: seq<seq<Point>>, b: Box)
    requires RingsWithin(result, b)
    ensures RingsWithin(WrittenLines(result), b)
    decreases |result|
  {
    if result != [] {
      var l := result[|result| - 1];
      assert l in result;
      WrittenLinesWithinBox(result[..|result| - 1], b);
      DedupShape(l);
    }
  }

  /** Ring `i` is an outer ring whose extent, once the run reaches it, meets the clip box. */
  predicate OuterRingMeets(st: PolyState, rings: seq<DecodedRing>, p: Placement, clip: ClipRingFn, i: nat)
    requires i < |rings|
  {
    rings[i].kind == OuterRing && Intersects(PolygonRun(st, rings[..i + 1], p, clip).extent, p.bbox)
  }

  /** A ring step makes the state valid exactly when it was valid or the
      ring is outer and its extent meets the clip box. */
  lemma RingStepValid(st: PolyState, r: DecodedRing, p: Placement, clip: ClipRingFn)
    ensures RingStep(st, r, p, clip).valid ==
      (st.valid || (r.kind == OuterRing && Intersects(RingStep(st, r, p, clip).extent, p.bbox)))
  {
  }

  /** One more ring: the run is valid exactly when it was valid before that
      ring or that ring is outer and meets the clip box. */
  lemma PolygonRunValidStep(st: PolyState, rings: seq<DecodedRing>, p: Placement, clip: ClipRingFn)
    requires rings != []
    ensures PolygonRun(st, rings, p, clip).valid ==
      (PolygonRun(st, rings[..|rings| - 1], p, clip).valid || OuterRingMeets(st, rings, p, clip, |rings| - 1))
  {
    var n := |rings| - 1;
    PolygonRunStep(st, rings, n, p, clip);
    RingStepValid(PolygonRun(st, rings[..n], p, clip), rings[n], p, clip);
    assert rings[..n + 1] == rings;
  }

  /** Some ring of a run meets the box exactly when one of the rings before
      the last does, judged on the shorter run, or the last one does. */
  lemma OuterRingMeetsSplit(st: PolyState, rings: seq<DecodedRing>, n: nat, p: Placement, clip: ClipRingFn)
    requires n + 1 == |rings|
    ensures (exists i :: 0 <= i < |rings| && OuterRingMeets(st, rings, p, clip, i)) <==>
      (exists i :: 0 <= i < n && OuterRingMeets(st, rings[..n], p, clip, i)) ||
      OuterRingMeets(st, rings, p, clip, n)
  {
    forall i | 0 <= i < n
      ensures OuterRingMeets(st, rings[..n], p, clip, i) == OuterRingMeets(st, rings, p, clip, i)
    {
      assert rings[..n][..i + 1] == rings[..i + 1];
    }
  }

  /** A run ends valid exactly when it started valid or some outer ring's
      extent met the clip box; once valid it never reverts. */
  lemma {:induction false} PolygonRunValid(st: PolyState, rings: seq<DecodedRing>, p: Placement, clip: ClipRingFn)
    ensures PolygonRun(st, rings, p, clip).valid <==>
      st.valid || exists i :: 0 <= i < |rings| && OuterRingMeets(st, rings, p, clip, i)
    decreases |rings|
  {
    if rings != [] {
      PolygonRunValid(st, rings[..|rings| - 1], p, clip);
      PolygonRunValidStep(st, rings, p, clip);
      OuterRingMeetsSplit(st, rings, |rings| - 1, p, clip);
    }
  }

  /** A ring finished while skip is set, or an outer ring whose extent misses
      the clip box, leaves skip set and writes nothing. */
  lemma RingStepWhileSkipping(st: PolyState, r: DecodedRing, p: Placement, clip: ClipRingFn)
    requires (r.kind != OuterRing && st.skip) ||
             (r.kind == OuterRing && !Intersects(RingStep(st, r, p, clip).extent, p.bbox))
    ensures RingStep(st, r, p, clip).skip
    ensures RingStep(st, r, p, clip).rings == st.rings
  {
  }

  /** A run over two stretches of rings is the second run started where the
      first one ended. */
  lemma {:induction false} PolygonRunAppend(st: PolyState, a: seq<DecodedRing>, c: seq<DecodedRing>, p: Placement, clip: ClipRingFn)
    ensures PolygonRun(st, a + c, p, clip) == PolygonRun(PolygonRun(st, a, p, clip), c, p, clip)
    decreases |c|
  {
    if c == [] {
      assert a + c == a;
    } else {
      var c' := c[..|c| - 1];
      assert (a + c)[..|a + c| - 1] == a + c';
      PolygonRunAppend(st, a, c', p, clip);
    }
  }

  /** While skip is set, inner and invalid rings leave it set and write nothing. */
  lemma {:induction false} SkippedRingsWriteNothing(st: PolyState, rings: seq<DecodedRing>, p: Placement, clip: ClipRingFn)
    requires st.skip
    requires forall j :: 0 <= j < |rings| ==> rings[j].kind != OuterRing
    ensures PolygonRun(st, rings, p, clip).skip
    ensures PolygonRun(st, rings, p, clip).rings == st.rings
    decreases |rings|
  {
    if rings != [] {
      var prefix := rings[..|rings| - 1];
      SkippedRingsWriteNothing(st, prefix, p, clip);
      RingStepWhileSkipping(PolygonRun(st, prefix, p, clip), rings[|rings| - 1], p, clip);
    }
  }

  /** An outer ring whose extent misses the clip box sets skip, and neither it
      nor the inner (or invalid) rings that follow it write anything. */
  lemma MissedOuterRingSkipsFollowers(st: PolyState, before: seq<DecodedRing>, outer: DecodedRing, followers: seq<DecodedRing>, p: Placement, clip: ClipRingFn)
    requires outer.kind == OuterRing
    requires !Intersects(RingStep(PolygonRun(st, before, p, clip), outer, p, clip).extent, p.bbox)
    requires forall j :: 0 <= j < |followers| ==> followers[j].kind != OuterRing
    ensures PolygonRun(st, before + [outer] + followers, p, clip).skip
    ensures PolygonRun(st, before + [outer] + followers, p, clip).rings == PolygonRun(st, before, p, clip).rings
  {
    var prev := PolygonRun(st, before, p, clip);
    PolygonRunAppend(st, before, [outer], p, clip);
    assert PolygonRun(prev, [outer], p, clip) == RingStep(prev, outer, p, clip);
    RingStepWhileSkipping(prev, outer, p, clip);
    PolygonRunAppend(st, before + [outer], followers, p, clip);
    SkippedRingsWriteNothing(RingStep(prev, outer, p, clip), followers, p, clip);
  }

  // ---------------------------------------------------------------------------
  // The builder that dispatches on geometry type
  // ---------------------------------------------------------------------------

  /** The output layer's feature list (vtzero::layer_builder). */
  class LayerBuilder {
    var features: seq<BuiltFeature>

    constructor ()
      ensures features == []
    {
      features := [];
    }

    /** A feature builder's commit. */
    method Add(f: BuiltFeature)
      modifies this
      ensures features == old(features) + [f]
    {
      features := features + [f];
    }
  }

  /** What re-encoding one feature adds to the output layer: at most one
      feature, carrying the input's id and properties, of the input's own
      geometry type; nothing for an unknown geometry type. */
  function Reencoded(f: Feature, p: Placement, clipLines: ClipLinesFn, clipRing: ClipRingFn): (r: seq<BuiltFeature>)
    ensures |r| <= 1
    ensures forall b :: b in r ==> b.id == f.id && b.properties == f.properties
    ensures forall b :: b in r ==>
      (b.PointFeature? <==> f.geometry.PointGeometry?) &&
      (b.LineStringFeature? <==> f.geometry.LineStringGeometry?) &&
      (b.PolygonFeature? <==> f.geometry.PolygonGeometry?)
    ensures f.geometry.UnknownGeometry? ==> r == []
  {
    match f.geometry
    case PointGeometry(points) =>
      var kept := Covered(TransformAll(points, p.zoomFactor, p.dx, p.dy), p.bbox);
      if kept == [] then [] else [PointFeature(f.id, kept, f.properties)]
    case LineStringGeometry(parts) =>
      var result := clipLines(KeptParts(parts, p), p.bbox);
      if result != [] && PartMoves(result[|result| - 1])
      then [LineStringFeature(f.id, WrittenLines(result), f.properties)]
      else []
    case PolygonGeometry(rings) =>
      var st := PolygonRun(InitialPolyState, rings, p, clipRing);
      if st.valid then [PolygonFeature(f.id, st.rings, f.properties)] else []
    case UnknownGeometry => []
  }

  /** A point feature comes out exactly when some transformed point lies in
      the clip box, and holds only such points; a polygon feature holds only
      rings of more than three points. */
  lemma ReencodedFacts(f: Feature, p: Placement, clipLines: ClipLinesFn, clipRing: ClipRingFn)
    ensures f.geometry.PointGeometry? ==>
      var t := TransformAll(f.geometry.points, p.zoomFactor, p.dx, p.dy);
      var out := Reencoded(f, p, clipLines, clipRing);
      (out != [] <==> exists i :: 0 <= i < |t| && CoveredBy(t[i], p.bbox)) &&
      (forall b :: b in out ==> forall q :: q in b.points ==> q in t && CoveredBy(q, p.bbox))
    ensures f.geometry.PolygonGeometry? ==>
      forall b :: b in Reencoded(f, p, clipLines, clipRing) ==> forall r :: r in b.rings ==> |r| > 3
  {
    match f.geometry
    case PointGeometry(points) =>
      var t := TransformAll(points, p.zoomFactor, p.dx, p.dy);
      CoveredMembers(t, p.bbox);
      var kept := Covered(t, p.bbox);
      if kept != [] {
        assert kept[0] in kept;
        var i :| 0 <= i < |t| && t[i] == kept[0];
        assert CoveredBy(t[i], p.bbox);
      }
      if exists i :: 0 <= i < |t| && CoveredBy(t[i], p.bbox) {
        var i :| 0 <= i < |t| && CoveredBy(t[i], p.bbox);
        assert t[i] in Covered(t, p.bbox);
      }
    case PolygonGeometry(rings) =>
      PolygonRunRingsLong(InitialPolyState, rings, p, clipRing);
    case LineStringGeometry(_) =>
    case UnknownGeometry =>
  }

  /** Nothing the builder writes leaves the clip box, provided the clipping
      routines keep to the box they are given. */
  lemma ReencodedWithinBox(f: Feature, p: Placement, clipLines: ClipLinesFn, clipRing: ClipRingFn)
    requires ClipLinesWithin(clipLines) && ClipRingWithin(clipRing)
    ensures forall b :: b in Reencoded(f, p, clipLines, clipRing) ==>
      match b
      case PointFeature(_, points, _) => forall q :: q in points ==> CoveredBy(q, p.bbox)
      case LineStringFeature(_, lines, _) => RingsWithin(lines, p.bbox)
      case PolygonFeature(_, rings, _) => RingsWithin(rings, p.bbox)
  {
    match f.geometry
    case PointGeometry(points) =>
      CoveredMembers(TransformAll(points, p.zoomFactor, p.dx, p.dy), p.bbox);
    case LineStringGeometry(parts) =>
      WrittenLinesWithinBox(clipLines(KeptParts(parts, p), p.bbox), p.bbox);
    case PolygonGeometry(rings) =>
      PolygonRunWithinBox(InitialPolyState, rings, p, clipRing);
    case UnknownGeometry =>
  }

  /** The clip box is closed: a point that lands exactly on the far corner
      of the tile is kept. Here a point at (2048, 2048) of the parent tile,
      zoomed by two into its top-left child, lands on (4096, 4096). */
  lemma FarCornerIsKept()
    ensures Covered(TransformAll([Point(2048, 2048)], 2, 0, 0), Box(Point(0, 0), Point(4096, 4096))) == [Point(4096, 4096)]
  {
    assert TransformAll([Point(2048, 2048)], 2, 0, 0) == [Point(4096, 4096)];
    assert [Point(4096, 4096)][..0] == [];
  }

  class OverzoomedFeatureBuilder {
    const layerBuilder: LayerBuilder
    const bbox: Box
    const dx: int
    const dy: int
    const zoomFactor: int
    const clipLines: ClipLinesFn
    const clipRing: ClipRingFn

    function Place(): Placement
    {
      Placement(bbox, dx, dy, zoomFactor)
    }

    constructor (layerBuilder: LayerBuilder, bbox: Box, dx: int, dy: int, zoomFactor: int,
                 clipLines: ClipLinesFn, clipRing: ClipRingFn)
      ensures this.layerBuilder == layerBuilder && Place() == Placement(bbox, dx, dy, zoomFactor)
      ensures this.clipLines == clipLines && this.clipRing == clipRing
    {
      this.layerBuilder := layerBuilder;
      this.bbox := bbox;
      this.dx := dx;
      this.dy := dy;
      this.zoomFactor := zoomFactor;
      this.clipLines := clipLines;
      this.clipRing := clipRing;
    }

    method ApplyGeometryPoint(feature: Feature)
      requires feature.geometry.PointGeometry?
      modifies layerBuilder
      ensures layerBuilder.features == old(layerBuilder.features) + Reencoded(feature, Place(), clipLines, clipRing)
    {
      var multiPoint := CollectPoints(feature.geometry.points, Place());
      if multiPoint != [] {
        layerBuilder.Add(PointFeature(feature.id, multiPoint, feature.properties));
      }
    }

    method ApplyGeometryLinestring(feature: Feature)
      requires feature.geometry.LineStringGeometry?
      modifies layerBuilder
      ensures layerBuilder.features == old(layerBuilder.features) + Reencoded(feature, Place(), clipLines, clipRing)
    {
      var multiLine := CollectLineStrings(feature.geometry.parts, Place());
      var result := clipLines(multiLine, bbox);
      if result != [] {
        var lines, valid := WriteLineStrings(result);
        if valid {
          layerBuilder.Add(LineStringFeature(feature.id, lines, feature.properties));
        }
      }
    }

    method ApplyGeometryPolygon(feature: Feature)
      requires feature.geometry.PolygonGeometry?
      modifies layerBuilder
      ensures layerBuilder.features == old(layerBuilder.features) + Reencoded(feature, Place(), clipLines, clipRing)
    {
      var st := DecodePolygon(feature.geometry.rings, Place(), clipRing);
      if st.valid {
        layerBuilder.Add(PolygonFeature(feature.id, st.rings, feature.properties));
      }
    }

    /** Dispatch on the geometry type; an unknown type adds nothing. */
    method Apply(feature: Feature)
      modifies layerBuilder
      ensures layerBuilder.features == old(layerBuilder.features) + Reencoded(feature, Place(), clipLines, clipRing)
    {
      match feature.geometry
      case PointGeometry(_) => ApplyGeometryPoint(feature);
      case LineStringGeometry(_) => ApplyGeometryLinestring(feature);
      case PolygonGeometry(_) => ApplyGeometryPolygon(feature);
      case UnknownGeometry =>
    }
  }
}
