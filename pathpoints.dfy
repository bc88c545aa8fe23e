/**
 * The waypoint list of `PathPlanner.route`: the oriented geometries of the
 * route's streets are read point by point, and a point is appended unless it
 * repeats the previous one (the street ends meet). Also the turn flags the
 * scenario maker's planner derives from turn nodes.
 */
module PathPoints {
  /** A geometry point as (lon, lat). */
  type Point = (real, real)

  /** The "previous point" before the first one: `last_lon = last_lat = 0`. */
  const Origin: Point := (0.0, 0.0)

  /** All the streets' points, street after street. */
  function Flatten(geoms: seq<seq<Point>>): (pts: seq<Point>)
    ensures |geoms| > 0 ==> pts == Flatten(geoms[..|geoms| - 1]) + geoms[|geoms| - 1]
  {
    if geoms == [] then [] else Flatten(geoms[..|geoms| - 1]) + geoms[|geoms| - 1]
  }

  /** The point before position i: the origin for the first one. */
  function Prev(pts: seq<Point>, i: nat): Point
    requires i <= |pts|
  {
    if i == 0 then Origin else pts[i - 1]
  }

  /**
   * The loop as written: `if lon != last_lon and lat != last_lat`, so a
   * point is kept only when it differs from the previous one in both
   * coordinates.
   */
  function KeptAsWritten(pts: seq<Point>): (r: seq<Point>)
    ensures |r| <= |pts|
  {
    if pts == [] then []
    else
      var n := |pts|;
      var p, q := pts[n - 1], Prev(pts, n - 1);
      KeptAsWritten(pts[..n - 1]) + (if p.0 != q.0 && p.1 != q.1 then [p] else [])
  }

  /** The loop as intended: a point is dropped only when it repeats the previous one. */
  function Kept(pts: seq<Point>): (r: seq<Point>)
    ensures |r| <= |pts|
  {
    if pts == [] then []
    else
      var n := |pts|;
      Kept(pts[..n - 1]) + (if pts[n - 1] != Prev(pts, n - 1) then [pts[n - 1]] else [])
  }

  /** The last kept point is the last point read, unless nothing was kept. */
  lemma {:induction false} KeptLast(pts: seq<Point>)
    ensures Kept(pts) != [] ==> Kept(pts)[|Kept(pts)| - 1] == pts[|pts| - 1]
    ensures Kept(pts) == [] ==> forall i :: 0 <= i < |pts| ==> pts[i] == Origin
  {
    if pts != [] {
      var n := |pts|;
      KeptLast(pts[..n - 1]);
      if pts[n - 1] == Prev(pts, n - 1) && Kept(pts) == [] {
        forall i | 0 <= i < n
          ensures pts[i] == Origin
        {
          if i < n - 1 {
            assert pts[i] == pts[..n - 1][i];
          }
        }
      }
    }
  }

  /**
   * The intended list has no point twice in a row, keeps only points of the
   * geometry, and loses none of them except points at the origin.
   */
  lemma {:induction false} KeptProperties(pts: seq<Point>)
    ensures var r := Kept(pts);
            && (forall i :: 0 < i < |r| ==> r[i] != r[i - 1])
            && (forall i :: 0 <= i < |r| ==> r[i] in pts)
            && (forall i :: 0 <= i < |pts| && pts[i] != Origin ==> pts[i] in r)
  {
    if pts != [] {
      var n := |pts|;
      var init := pts[..n - 1];
      KeptProperties(init);
      KeptLast(init);
      var r := Kept(pts);
      forall i | 0 <= i < n && pts[i] != Origin
        ensures pts[i] in r
      {
        if i < n - 1 {
          assert pts[i] == init[i];
        } else if pts[n - 1] == Prev(pts, n - 1) {
          assert n >= 2 && pts[n - 2] == init[n - 2];
        }
      }
    }
  }

  /**
   * A street running exactly east-west: its second point has the same
   * latitude as the first and is dropped as written, kept as intended.
   */
  lemma SameLatitudeDropped()
    ensures KeptAsWritten([(1.0, 5.0), (2.0, 5.0)]) == [(1.0, 5.0)]
    ensures Kept([(1.0, 5.0), (2.0, 5.0)]) == [(1.0, 5.0), (2.0, 5.0)]
  {
    assert [(1.0, 5.0), (2.0, 5.0)][..1] == [(1.0, 5.0)];
  }

  /** As written, each kept point differs in both coordinates from the point read before it. */
  lemma {:induction false} KeptAsWrittenBothDiffer(pts: seq<Point>)
    ensures forall p :: p in KeptAsWritten(pts) ==>
              exists i :: 0 <= i < |pts| && p == pts[i] && p.0 != Prev(pts, i).0 && p.1 != Prev(pts, i).1
  {
    if pts != [] {
      var n := |pts|;
      KeptAsWrittenBothDiffer(pts[..n - 1]);
      forall p | p in KeptAsWritten(pts)
        ensures exists i :: 0 <= i < n && p == pts[i] && p.0 != Prev(pts, i).0 && p.1 != Prev(pts, i).1
      {
        if p in KeptAsWritten(pts[..n - 1]) {
          var i :| 0 <= i < n - 1 && p == pts[..n - 1][i] && p.0 != Prev(pts[..n - 1], i).0 && p.1 != Prev(pts[..n - 1], i).1;
          assert Prev(pts[..n - 1], i) == Prev(pts, i);
        } else {
          assert p == pts[n - 1];
        }
      }
    }
  }

  /** Reading one more point: it is kept exactly when it differs from the point read before it. */
  lemma KeptStep(done: seq<Point>, p: Point)
    ensures Kept(done + [p]) == Kept(done) + (if p != Prev(done, |done|) then [p] else [])
  {
    assert (done + [p])[..|done|] == done;
  }

  /** The kept points as latitude and longitude lists. */
  ghost predicate Listed(kept: seq<Point>, lats: seq<real>, lons: seq<real>)
  {
    |lats| == |lons| == |kept| && forall k :: 0 <= k < |kept| ==> (lons[k], lats[k]) == kept[k]
  }

  /**
   * The two nested loops of `route` over the street geometries: the kept
   * points as latitude and longitude lists.
   */
  method RoutePoints(geoms: seq<seq<Point>>) returns (lats: seq<real>, lons: seq<real>)
    ensures |lats| == |lons| == |Kept(Flatten(geoms))|
    ensures forall k :: 0 <= k < |lats| ==> (lons[k], lats[k]) == Kept(Flatten(geoms))[k]
  {
    lats, lons := [], [];
    var last := Origin;
    var e := 0;
    while e < |geoms|
      invariant 0 <= e <= |geoms|
      invariant last == Prev(Flatten(geoms[..e]), |Flatten(geoms[..e])|)
      invariant Listed(Kept(Flatten(geoms[..e])), lats, lons)
    {
      assert geoms[..e + 1][..e] == geoms[..e];
      lats, lons, last := ReadStreet(geoms[e], Flatten(geoms[..e]), lats, lons, last);
      e := e + 1;
    }
    assert geoms[..e] == geoms;
  }

  /** The inner loop of `route`: the points of one street, after the points `before`. */
  method ReadStreet(geom: seq<Point>, ghost before: seq<Point>, lats0: seq<real>, lons0: seq<real>, last0: Point)
    returns (lats: seq<real>, lons: seq<real>, last: Point)
    requires last0 == Prev(before, |before|) && Listed(Kept(before), lats0, lons0)
    ensures last == Prev(before + geom, |before + geom|) && Listed(Kept(before + geom), lats, lons)
  {
    lats, lons, last := lats0, lons0, last0;
    var idx := 0;
    assert before + geom[..0] == before;
    while idx < |geom|
      invariant 0 <= idx <= |geom|
      invariant last == Prev(before + geom[..idx], |before + geom[..idx]|)
      invariant Listed(Kept(before + geom[..idx]), lats, lons)
    {
      var p := geom[idx];
      ghost var done := before + geom[..idx];
      assert before + geom[..idx + 1] == done + [p];
      KeptStep(done, p);
      if p != last {
        lats, lons := lats + [p.1], lons + [p.0];
      }
      last := p;
      idx := idx + 1;
    }
    assert geom[..idx] == geom;
  }

  // The turn flags of the scenario maker's planner.

  /**
   * `lon_lat_list.index(...)` of a turn node's position: its first
   * position among the kept points, or 9999 when it is not there.
   */
  function TurnIndex(points: seq<Point>, p: Point): (r: int)
    ensures p in points ==> 0 <= r < |points| && points[r] == p && p !in points[..r]
    ensures p !in points ==> r == 9999
  {
    if p in points then FirstIndex(points, p) else 9999
  }

  /** The first position of a point that occurs. */
  function FirstIndex(points: seq<Point>, p: Point): (r: nat)
    requires p in points
    ensures r < |points| && points[r] == p && p !in points[..r]
  {
    if points[0] == p then 0
    else
      var r := FirstIndex(points[1..], p);
      assert points[..r + 1] == [points[0]] + points[1..][..r];
      r + 1
  }

  /** `turnbool`: for each kept point, whether its position is among the turn indices. */
  method TurnBool(n: nat, turnIndices: seq<int>) returns (turnbool: seq<bool>)
    ensures |turnbool| == n
    ensures forall i :: 0 <= i < n ==> (turnbool[i] <==> i in turnIndices)
  {
    turnbool := [];
    var idx := 0;
    while idx < n
      invariant 0 <= idx <= n && |turnbool| == idx
      invariant forall i :: 0 <= i < idx ==> (turnbool[i] <==> i in turnIndices)
    {
      turnbool := turnbool + [idx in turnIndices];
      idx := idx + 1;
    }
  }
}
