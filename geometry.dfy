/**
  Integer points and boxes, and the per-point rules shared by the geometry
  handlers of src/feature_builder.hpp: the zoom transform, the closed-box
  tests of boost::geometry on boxes, the removal of consecutive repeated
  points, and the running min/max extent of a ring.
*/
module Geometry {
  import opened Ints

  /** A coordinate pair (mapbox::geometry::point). */
  datatype Point = Point(x: int, y: int)

  /** An axis-aligned box given by its min and max corners (mapbox::geometry::box). */
  datatype Box = Box(min: Point, max: Point)

  /** A decoded tile-local point scaled by the zoom factor and moved by the
      displacement of the requested tile: (x*zf - dx, y*zf - dy). */
  function Transform(p: Point, zoomFactor: int, dx: int, dy: int): Point
  {
    Point(p.x * zoomFactor - dx, p.y * zoomFactor - dy)
  }

  function TransformAll(s: seq<Point>, zoomFactor: int, dx: int, dy: int): seq<Point>
  {
    seq(|s|, i requires 0 <= i < |s| => Transform(s[i], zoomFactor, dx, dy))
  }

  lemma TransformAllAppend(s: seq<Point>, p: Point, zoomFactor: int, dx: int, dy: int)
    ensures TransformAll(s + [p], zoomFactor, dx, dy) == TransformAll(s, zoomFactor, dx, dy) + [Transform(p, zoomFactor, dx, dy)]
  {
  }

  /** For a non-zero zoom factor, distinct decoded points stay distinct. */
  lemma TransformInjective(p: Point, q: Point, zoomFactor: int, dx: int, dy: int)
    requires zoomFactor != 0
    ensures Transform(p, zoomFactor, dx, dy) == Transform(q, zoomFactor, dx, dy) ==> p == q
  {
    if Transform(p, zoomFactor, dx, dy) == Transform(q, zoomFactor, dx, dy) {
      assert (p.x - q.x) * zoomFactor == 0;
      assert (p.y - q.y) * zoomFactor == 0;
    }
  }

  /** boost::geometry::covered_by for a point and a box: the closed box. */
  predicate CoveredBy(p: Point, b: Box)
  {
    b.min.x <= p.x <= b.max.x && b.min.y <= p.y <= b.max.y
  }

  /** boost::geometry::intersects for two boxes: the closed boxes share a point. */
  predicate Intersects(a: Box, b: Box)
  {
    a.min.x <= b.max.x && b.min.x <= a.max.x && a.min.y <= b.max.y && b.min.y <= a.max.y
  }

  /** `outer` contains all of `inner`. */
  predicate Covers(outer: Box, inner: Box)
  {
    outer.min.x <= inner.min.x && inner.max.x <= outer.max.x &&
    outer.min.y <= inner.min.y && inner.max.y <= outer.max.y
  }

  // ---------------------------------------------------------------------------
  // Keeping the points inside a box
  // ---------------------------------------------------------------------------

  /** The points of `s` that lie in the closed box `b`, in their order. */
  function Covered(s: seq<Point>, b: Box): seq<Point>
    decreases |s|
  {
    if s == [] then []
    else Covered(s[..|s| - 1], b) + (if CoveredBy(s[|s| - 1], b) then [s[|s| - 1]] else [])
  }

  /** A point is kept exactly when it is one of the input points and lies in the box. */
  lemma {:induction false} CoveredMembers(s: seq<Point>, b: Box)
    ensures forall p :: p in Covered(s, b) <==> p in s && CoveredBy(p, b)
    decreases |s|
  {
    if s != [] {
      CoveredMembers(s[..|s| - 1], b);
      assert s == s[..|s| - 1] + [s[|s| - 1]];
    }
  }

  /** Filtering keeps the input order: it distributes over concatenation. */
  lemma {:induction false} CoveredAppend(s: seq<Point>, t: seq<Point>, b: Box)
    ensures Covered(s + t, b) == Covered(s, b) + Covered(t, b)
    decreases |t|
  {
    if t == [] {
      assert s + t == s;
    } else {
      var t' := t[..|t| - 1];
      assert (s + t)[..|s + t| - 1] == s + t';
      CoveredAppend(s, t', b);
    }
  }

  // ---------------------------------------------------------------------------
  // Dropping consecutive repeated points
  // ---------------------------------------------------------------------------

  /** The first point, then every point that differs from the point just before it. */
  function Dedup(s: seq<Point>): seq<Point>
    decreases |s|
  {
    if s == [] then []
    else if |s| == 1 || s[|s| - 1] != s[|s| - 2] then Dedup(s[..|s| - 1]) + [s[|s| - 1]]
    else Dedup(s[..|s| - 1])
  }

  /** Dedup seen one point at a time, as the handlers see it. */
  lemma DedupStep(s: seq<Point>, j: nat)
    requires j < |s|
    ensures Dedup(s[..j + 1]) == Dedup(s[..j]) + (if j == 0 || s[j] != s[j - 1] then [s[j]] else [])
  {
    var t := s[..j + 1];
    assert t[..|t| - 1] == s[..j];
  }

  predicate NoRepeats(s: seq<Point>)
  {
    forall i :: 0 <= i < |s| - 1 ==> s[i] != s[i + 1]
  }

  /** Dedup keeps the first and the last point, loses no point value, and
      leaves no two equal points next to each other. */
  lemma {:induction false} DedupShape(s: seq<Point>)
    ensures |Dedup(s)| <= |s|
    ensures s != [] ==> Dedup(s) != [] && Dedup(s)[0] == s[0] && Dedup(s)[|Dedup(s)| - 1] == s[|s| - 1]
    ensures NoRepeats(Dedup(s))
    ensures forall p :: p in Dedup(s) <==> p in s
    decreases |s|
  {
    if s != [] {
      var s' := s[..|s| - 1];
      DedupShape(s');
      assert s == s' + [s[|s| - 1]];
    }
  }

  /** A sequence without neighbouring repeats is left as it is. */
  lemma {:induction false} DedupKeepsNoRepeats(s: seq<Point>)
    requires NoRepeats(s)
    ensures Dedup(s) == s
    decreases |s|
  {
    if s != [] {
      var s' := s[..|s| - 1];
      DedupKeepsNoRepeats(s');
      assert s == s' + [s[|s| - 1]];
    }
  }

  lemma DedupIdempotent(s: seq<Point>)
    ensures Dedup(Dedup(s)) == Dedup(s)
  {
    DedupShape(s);
    DedupKeepsNoRepeats(Dedup(s));
  }

  /** More than one point survives exactly when some point differs from the first. */
  lemma {:induction false} DedupMoves(s: seq<Point>)
    ensures |Dedup(s)| > 1 <==> exists i :: 0 < i < |s| && s[i] != s[0]
    decreases |s|
  {
    if |s| > 1 {
      var s' := s[..|s| - 1];
      DedupMoves(s');
      DedupShape(s');
      if exists i :: 0 < i < |s'| && s'[i] != s'[0] {
        var i :| 0 < i < |s'| && s'[i] != s'[0];
        assert s[i] != s[0];
      }
      if exists i :: 0 < i < |s| && s[i] != s[0] {
        var i :| 0 < i < |s| && s[i] != s[0];
        if i < |s| - 1 {
          assert s'[i] != s'[0];
        } else if |s'| > 1 && exists j :: 0 < j < |s'| && s'[j] != s'[0] {
        } else {
          assert forall j :: 0 <= j < |s'| ==> s'[j] == s[0];
          assert s[|s| - 1] != s[|s| - 2];
        }
      }
    } else if |s| == 1 {
      assert Dedup(s) == Dedup(s[..0]) + [s[0]];
    }
  }

  /** The kept part of a decoded line or ring in output coordinates: for a
      non-zero zoom factor no two neighbouring output points are equal. */
  lemma KeptPartHasNoRepeats(s: seq<Point>, zoomFactor: int, dx: int, dy: int)
    requires zoomFactor != 0
    ensures NoRepeats(TransformAll(Dedup(s), zoomFactor, dx, dy))
  {
    DedupShape(s);
    var d := Dedup(s);
    var t := TransformAll(d, zoomFactor, dx, dy);
    forall i | 0 <= i < |t| - 1
      ensures t[i] != t[i + 1]
    {
      TransformInjective(d[i], d[i + 1], zoomFactor, dx, dy);
    }
  }

  // ---------------------------------------------------------------------------
  // Running extent of a ring
  // ---------------------------------------------------------------------------

  /** Widen a box so that it also covers `p`. */
  function Extend(b: Box, p: Point): Box
  {
    Box(Point(Min(b.min.x, p.x), Min(b.min.y, p.y)), Point(Max(b.max.x, p.x), Max(b.max.y, p.y)))
  }

  /** The extent of a non-empty point sequence, built point by point. */
  function Bounds(s: seq<Point>): Box
    requires |s| > 0
    decreases |s|
  {
    if |s| == 1 then Box(s[0], s[0]) else Extend(Bounds(s[..|s| - 1]), s[|s| - 1])
  }

  /** The extent is the smallest box holding the points: it covers every
      point, and each of its four sides is reached by some point. */
  lemma {:induction false} BoundsTight(s: seq<Point>)
    requires |s| > 0
    ensures forall p :: p in s ==> CoveredBy(p, Bounds(s))
    ensures exists i :: 0 <= i < |s| && s[i].x == Bounds(s).min.x
    ensures exists i :: 0 <= i < |s| && s[i].x == Bounds(s).max.x
    ensures exists i :: 0 <= i < |s| && s[i].y == Bounds(s).min.y
    ensures exists i :: 0 <= i < |s| && s[i].y == Bounds(s).max.y
    decreases |s|
  {
    if |s| > 1 {
      var s' := s[..|s| - 1];
      BoundsTight(s');
      assert s == s' + [s[|s| - 1]];
      var b := Bounds(s');
      var last := |s| - 1;
      var i1 :| 0 <= i1 < |s'| && s'[i1].x == b.min.x;
      var i2 :| 0 <= i2 < |s'| && s'[i2].x == b.max.x;
      var i3 :| 0 <= i3 < |s'| && s'[i3].y == b.min.y;
      var i4 :| 0 <= i4 < |s'| && s'[i4].y == b.max.y;
      assert s[if s[last].x < b.min.x then last else i1].x == Bounds(s).min.x;
      assert s[if s[last].x > b.max.x then last else i2].x == Bounds(s).max.x;
      assert s[if s[last].y < b.min.y then last else i3].y == Bounds(s).min.y;
      assert s[if s[last].y > b.max.y then last else i4].y == Bounds(s).max.y;
    } else {
      assert s[0].x == Bounds(s).min.x;
    }
  }

  /** boost::geometry::reverse on a ring or a line. */
  function Reverse<T>(s: seq<T>): seq<T>
  {
    seq(|s|, i requires 0 <= i < |s| => s[|s| - 1 - i])
  }

  /** Reversal keeps every element and adds none, and undoes itself. */
  lemma ReverseMembers<T>(s: seq<T>)
    ensures forall x :: x in Reverse(s) <==> x in s
    ensures Reverse(Reverse(s)) == s
  {
    forall x | x in s
      ensures x in Reverse(s)
    {
      var i :| 0 <= i < |s| && s[i] == x;
      assert Reverse(s)[|s| - 1 - i] == x;
    }
  }

  /** The extent depends only on which points a sequence holds, not on their
      order: two sequences with the same points have the same extent. */
  lemma BoundsSameMembers(s: seq<Point>, t: seq<Point>)
    requires |s| > 0 && |t| > 0
    requires forall p :: p in s <==> p in t
    ensures Bounds(s) == Bounds(t)
  {
    BoundsTight(s);
    BoundsTight(t);
    var a, b := Bounds(s), Bounds(t);
    var i1 :| 0 <= i1 < |s| && s[i1].x == a.min.x;
    var i2 :| 0 <= i2 < |s| && s[i2].x == a.max.x;
    var i3 :| 0 <= i3 < |s| && s[i3].y == a.min.y;
    var i4 :| 0 <= i4 < |s| && s[i4].y == a.max.y;
    var j1 :| 0 <= j1 < |t| && t[j1].x == b.min.x;
    var j2 :| 0 <= j2 < |t| && t[j2].x == b.max.x;
    var j3 :| 0 <= j3 < |t| && t[j3].y == b.min.y;
    var j4 :| 0 <= j4 < |t| && t[j4].y == b.max.y;
    assert s[i1] in t && s[i2] in t && s[i3] in t && s[i4] in t;
    assert t[j1] in s && t[j2] in s && t[j3] in s && t[j4] in s;
  }
}
