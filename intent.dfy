/**
 * The intent plugin of the decentralised concept (`Intent`): for every
 * aircraft a polyline of where it is going within the look-ahead time
 * (its own position, then the route's waypoints from the active one on
 * while they fit in `gs * dtlookahead`, then at most one point synthesised
 * on the next leg where the budget runs out) together with the altitude
 * it is heading for.
 */
module Intent {
  import opened Wrappers
  import opened Traffic

  /** `self.intent[idx]`: the `LineString` coordinates as (lon, lat) and the intent altitude. */
  datatype IntentLine = IntentLine(coords: seq<(real, real)>, alt: real)

  /**
   * The intent altitude: the selected altitude when a vertical manoeuvre is
   * going on (more than one metre from it), else the current altitude; it
   * is never more than a metre from the selected altitude.
   */
  function TargetAlt(alt: real, selalt: real): (r: real)
    ensures r == selalt || r == alt
    ensures Abs(r - selalt) <= 1.0
    ensures Abs(selalt - alt) > 1.0 ==> r == selalt
  {
    if Abs(selalt - alt) > 1.0 then selalt else alt
  }

  /** Waypoint `j` of a route as (lat, lon), with Python's negative indexing (`iactwp == -1` reads the last one). */
  function Point(route: Route, j: int): (real, real)
    requires route.Valid() && -|route.wpname| <= j < |route.wpname|
  {
    (PyIndex(route.wplat, j), PyIndex(route.wplon, j))
  }

  /** The (lon, lat) coordinate of waypoint `j`, as the line stores it. */
  function LonLat(route: Route, j: int): (real, real)
    requires route.Valid() && -|route.wpname| <= j < |route.wpname|
  {
    (Point(route, j).1, Point(route, j).0)
  }

  /** The length in metres of the leg from `from` (lat, lon) to `to`. */
  function LegLength(geo: Geo, from: (real, real), to: (real, real)): real
  {
    geo.qdrdist(from.0, from.1, to.0, to.1).1 * Nm
  }

  /** A loop index that can still be read: from -1 up to the route end, and -1 only on a non-empty route. */
  predicate Readable(route: Route, wpt: int)
  {
    -1 <= wpt <= |route.wpname| && (wpt == -1 ==> |route.wpname| > 0)
  }

  /** What the rest of the walk adds: the waypoints it absorbs, the point it synthesises if any, and the distance it ends with. */
  datatype Walked = Walked(absorbed: seq<(real, real)>, synth: Option<(real, real)>, distance: real)

  /**
   * The `while True` loop of `calc_intent` from waypoint `wpt`, the point
   * `prev` (lat, lon) and the distance already covered: the next waypoint
   * is absorbed while the covered distance plus its leg stays below
   * `dmax`, and otherwise a point is synthesised on that leg with what is
   * left of the budget. The absorbed waypoints are the route's, in order
   * from `wpt`, and a walk without a synthesised point ends at the route end.
   */
  function Walk(geo: Geo, route: Route, wpt: int, prev: (real, real), distance: real, dmax: real): (w: Walked)
    requires route.Valid() && Readable(route, wpt)
    decreases |route.wpname| - wpt
    ensures |w.absorbed| <= |route.wpname| - wpt
    ensures forall k :: 0 <= k < |w.absorbed| ==> w.absorbed[k] == LonLat(route, wpt + k)
    ensures w.synth.None? ==> wpt + |w.absorbed| == |route.wpname|
  {
    if wpt == |route.wpname| then Walked([], None, distance)
    else
      var next := Point(route, wpt);
      var leg := geo.qdrdist(prev.0, prev.1, next.0, next.1);
      if distance + leg.1 * Nm < dmax then
        var rest := Walk(geo, route, wpt + 1, next, distance + leg.1 * Nm, dmax);
        rest.(absorbed := [(next.1, next.0)] + rest.absorbed)
      else
        var end := geo.pos(prev.0, prev.1, leg.0, (dmax - distance) / Nm);
        Walked([], Some((end.1, end.0)), distance)
  }

  /** The point before waypoint `j` on a walk that started at `wpt` from `start`. */
  function Before(route: Route, start: (real, real), wpt: int, j: int): (real, real)
    requires route.Valid() && Readable(route, wpt) && wpt <= j <= |route.wpname|
  {
    if j == wpt then start else Point(route, j - 1)
  }

  /** The summed length of the legs from `prev` through waypoints `from` … `to - 1`. */
  function Legs(geo: Geo, route: Route, prev: (real, real), from: int, to: int): real
    requires route.Valid() && Readable(route, from) && from <= to <= |route.wpname|
    decreases |route.wpname| - from
  {
    if from == to then 0.0
    else LegLength(geo, prev, Point(route, from)) + Legs(geo, route, Point(route, from), from + 1, to)
  }

  /** The distance the walk ends with is the covered distance plus exactly the absorbed legs. */
  lemma {:induction false} WalkDistance(geo: Geo, route: Route, wpt: int, prev: (real, real), distance: real, dmax: real)
    requires route.Valid() && Readable(route, wpt)
    decreases |route.wpname| - wpt
    ensures var w := Walk(geo, route, wpt, prev, distance, dmax);
            w.distance == distance + Legs(geo, route, prev, wpt, wpt + |w.absorbed|)
  {
    if wpt < |route.wpname| {
      var next := Point(route, wpt);
      var d := LegLength(geo, prev, next);
      if distance + d < dmax {
        WalkDistance(geo, route, wpt + 1, next, distance + d, dmax);
      }
    }
  }

  /**
   * A walk that starts within the budget stays within it, so the budget
   * left for the synthesised point is never negative; and a point is
   * synthesised only where the next leg does not fit.
   */
  lemma {:induction false} WalkBudget(geo: Geo, route: Route, wpt: int, prev: (real, real), distance: real, dmax: real)
    requires route.Valid() && Readable(route, wpt)
    decreases |route.wpname| - wpt
    ensures var w := Walk(geo, route, wpt, prev, distance, dmax);
            && (distance <= dmax ==> 0.0 <= dmax - w.distance)
            && (w.synth.Some? ==>
                  var stop := wpt + |w.absorbed|;
                  && stop < |route.wpname|
                  && w.distance + LegLength(geo, Before(route, prev, wpt, stop), Point(route, stop)) >= dmax)
  {
    if wpt < |route.wpname| {
      var next := Point(route, wpt);
      var d := LegLength(geo, prev, next);
      if distance + d < dmax {
        WalkBudget(geo, route, wpt + 1, next, distance + d, dmax);
        var w := Walk(geo, route, wpt + 1, next, distance + d, dmax);
        if w.synth.Some? && |w.absorbed| > 0 {
          assert Before(route, next, wpt + 1, wpt + 1 + |w.absorbed|) == Before(route, prev, wpt, wpt + 1 + |w.absorbed|);
        }
      }
    }
  }

  /** `distance_max`: how far the aircraft flies at its ground speed within the look-ahead time. */
  function Reach(a: Aircraft, dtlookahead: real): real
  {
    a.gs * dtlookahead
  }

  /** The intent line: the aircraft's own (lon, lat), the absorbed waypoints and the synthesised point if any. */
  function Line(start: (real, real), w: Walked): (line: seq<(real, real)>)
    ensures |line| == 1 + |w.absorbed| + (if w.synth.Some? then 1 else 0)
    ensures line[0] == start
  {
    [start] + w.absorbed + (if w.synth.Some? then [w.synth.value] else [])
  }

  /**
   * The intent of one aircraft: the line from its own position through the
   * walk's points, and the intent altitude. An empty route makes the source
   * read `wplat[-1]` of an empty list, which raises: `None` stands for that.
   */
  function AircraftIntent(geo: Geo, a: Aircraft, selalt: real, route: Route, dtlookahead: real): (r: Option<IntentLine>)
    requires route.Valid()
    ensures r.None? <==> route.wpname == []
    ensures r.Some? ==> |r.value.coords| >= 2 && r.value.coords[0] == (a.lon, a.lat)
  {
    if route.wpname == [] then None
    else
      Some(IntentLine(Line((a.lon, a.lat), Walk(geo, route, route.iactwp, (a.lat, a.lon), 0.0, Reach(a, dtlookahead))),
                      TargetAlt(a.alt, selalt)))
  }

  /** The body of `calc_intent` for one aircraft: the `while True` loop over the route. */
  method CalcOne(geo: Geo, a: Aircraft, selalt: real, route: Route, dtlookahead: real) returns (r: Option<IntentLine>)
    requires route.Valid()
    ensures r == AircraftIntent(geo, a, selalt, route, dtlookahead)
  {
    var intentAlt := if Abs(selalt - a.alt) > 1.0 then selalt else a.alt;
    var wpt_i := route.iactwp;
    if route.wpname == [] {
      // wplat[-1] of an empty route raises IndexError
      return None;
    }
    var prev := (a.lat, a.lon);
    var distance := 0.0;
    var linecoords := [(a.lon, a.lat)];
    var distanceMax := Reach(a, dtlookahead);
    ghost var whole := Walk(geo, route, route.iactwp, (a.lat, a.lon), 0.0, distanceMax);
    while true
      invariant Readable(route, wpt_i)
      invariant var w := Walk(geo, route, wpt_i, prev, distance, distanceMax);
                linecoords + w.absorbed == [(a.lon, a.lat)] + whole.absorbed && w.synth == whole.synth
      decreases |route.wpname| - wpt_i
    {
      if wpt_i == |route.wpname| {
        assert linecoords + [] == linecoords;
        assert linecoords == Line((a.lon, a.lat), whole);
        return Some(IntentLine(linecoords, intentAlt));
      }
      var next := Point(route, wpt_i);
      var leg := geo.qdrdist(prev.0, prev.1, next.0, next.1);
      var distanceToNext := leg.1 * Nm;
      if distance + distanceToNext < distanceMax {
        distance := distance + distanceToNext;
        linecoords := linecoords + [(next.1, next.0)];
        prev := next;
        wpt_i := wpt_i + 1;
      } else {
        var travelDist := (distanceMax - distance) / Nm;
        var end := geo.pos(prev.0, prev.1, leg.0, travelDist);
        assert Walk(geo, route, wpt_i, prev, distance, distanceMax) == Walked([], Some((end.1, end.0)), distance);
        assert linecoords + [] == linecoords;
        linecoords := linecoords + [(end.1, end.0)];
        assert linecoords == Line((a.lon, a.lat), whole);
        return Some(IntentLine(linecoords, intentAlt));
      }
    }
  }

  /** The `Intent` entity: one intent per aircraft. */
  class IntentTable {
    var intent: seq<Option<IntentLine>>

    constructor ()
      ensures intent == []
    {
      intent := [];
    }

    /** `create(n)`: the arrays grow by `n` entries and every new aircraft starts without an intent. */
    method Create(n: nat)
      modifies this
      ensures intent == old(intent) + seq(n, _ => None)
    {
      intent := intent + seq(n, _ => None);
    }

    /**
     * `calc_intent`: every aircraft's intent in index order. An aircraft
     * with an empty route raises, leaving it and the aircraft after it with
     * their previous intent; `ok` says whether the pass completed.
     */
    method CalcIntent(geo: Geo, ac: seq<Aircraft>, selalt: seq<real>, route: seq<Route>, dtlookahead: real)
        returns (ok: bool)
      requires |intent| == |ac| && |selalt| == |ac| && |route| == |ac|
      requires forall i :: 0 <= i < |route| ==> route[i].Valid()
      modifies this
      ensures |intent| == |ac|
      ensures ok <==> forall i :: 0 <= i < |route| ==> route[i].wpname != []
      ensures forall i :: 0 <= i < |ac| ==>
                intent[i] == if forall j :: 0 <= j <= i ==> route[j].wpname != []
                             then AircraftIntent(geo, ac[i], selalt[i], route[i], dtlookahead)
                             else old(intent[i])
    {
      var idx := 0;
      while idx < |ac|
        invariant idx <= |ac| && |intent| == |ac|
        invariant forall j :: 0 <= j < idx ==> route[j].wpname != []
        invariant forall i :: 0 <= i < |ac| ==>
                    intent[i] == if i < idx then AircraftIntent(geo, ac[i], selalt[i], route[i], dtlookahead)
                                 else old(intent[i])
      {
        var r := CalcOne(geo, ac[idx], selalt[idx], route[idx], dtlookahead);
        if r.None? {
          return false;
        }
        intent := intent[idx := r];
        idx := idx + 1;
      }
      return true;
    }
  }
}
