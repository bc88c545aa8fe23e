/**
 * The geofence checker (`ingeoFence.checker`): it gathers every geofence
 * into one multipolygon, draws the aircraft's remaining route (its own
 * position, then the waypoints from the active one on) and stacks
 * REROUTEGEOFENCE when that line crosses a geofence while neither the
 * aircraft nor the route's end point lies inside one.
 */
module InGeoFence {
  import opened Traffic
  import opened Stack

  /** A point (lon, lat), as shapely receives it. */
  type Point = (real, real)

  /**
   * The shapely predicates, taken as given, on the multipolygon made of the
   * listed polygons (after `buffer(0)`): whether a polyline crosses it and
   * whether it contains a point.
   */
  datatype Shapes = Shapes(intersects: (seq<seq<Point>>, seq<Point>) -> bool,
                           contains: (seq<seq<Point>>, Point) -> bool)

  /**
   * The polygon of one geofence: its coordinates are stored flat as
   * lat, lon, lat, lon, …, and `zip(coords[1::2], coords[0::2])` pairs them
   * into (lon, lat) vertices, dropping an unpaired last latitude.
   */
  function Vertices(coords: seq<real>): (vs: seq<Point>)
    ensures |vs| == |coords| / 2
    ensures forall k :: 0 <= k < |vs| ==> vs[k] == (coords[2 * k + 1], coords[2 * k])
  {
    if |coords| < 2 then []
    else
      var rest := Vertices(coords[2..]);
      assert forall k :: 0 <= k < |rest| ==> rest[k] == (coords[2 * (k + 1) + 1], coords[2 * (k + 1)]);
      [(coords[1], coords[0])] + rest
  }

  /** `zip(xs, ys)`: pairs up to the shorter of the two. */
  function Zip(xs: seq<real>, ys: seq<real>): (ps: seq<Point>)
    ensures |ps| == if |xs| <= |ys| then |xs| else |ys|
    ensures forall k :: 0 <= k < |ps| ==> ps[k] == (xs[k], ys[k])
  {
    if xs == [] || ys == [] then [] else [(xs[0], ys[0])] + Zip(xs[1..], ys[1..])
  }

  /** `routecoords`: the aircraft's position, then (lon, lat) of the waypoints from `iactwp` on, Python-sliced. */
  function RouteLine(a: Aircraft, route: Route): seq<Point>
    requires route.Valid()
  {
    [(a.lon, a.lat)] + Zip(PyFrom(route.wplon, route.iactwp), PyFrom(route.wplat, route.iactwp))
  }

  /**
   * The line starts at the aircraft and then visits the waypoints from the
   * active one to the end; with no active waypoint (`iactwp == -1`) the
   * slice `[-1:]` keeps just the last waypoint, which is nothing on an
   * empty route.
   */
  lemma RouteLineShape(a: Aircraft, route: Route)
    requires route.Valid()
    ensures var line := RouteLine(a, route);
            && line[0] == (a.lon, a.lat)
            && (route.iactwp >= 0 ==>
                  |line| == 1 + |route.wpname| - route.iactwp
                  && forall k :: 1 <= k < |line| ==>
                       line[k] == (route.wplon[route.iactwp + k - 1], route.wplat[route.iactwp + k - 1]))
            && (route.iactwp == -1 && route.wpname != [] ==>
                  line == [(a.lon, a.lat), (route.wplon[|route.wpname| - 1], route.wplat[|route.wpname| - 1])])
            && (route.wpname == [] ==> line == [(a.lon, a.lat)])
  {
    var line := RouteLine(a, route);
    if route.iactwp == -1 && route.wpname != [] {
      var n := |route.wpname|;
      assert line == [(a.lon, a.lat)] + Zip(route.wplon[n - 1..], route.wplat[n - 1..]);
    }
  }

  /** The three answers `checker` computes: the route crosses a geofence, the aircraft is in one, the end point is in one. */
  datatype Assessment = Assessment(routeval: bool, acval: bool, destval: bool)

  /** The answers for one aircraft against the given geofences. */
  function Assess(shapes: Shapes, fences: seq<seq<real>>, a: Aircraft, route: Route): Assessment
    requires route.Valid()
  {
    var multi := seq(|fences|, i requires 0 <= i < |fences| => Vertices(fences[i]));
    var line := RouteLine(a, route);
    Assessment(|line| > 1 && shapes.intersects(multi, line),
               shapes.contains(multi, (a.lon, a.lat)),
               shapes.contains(multi, line[|line| - 1]))
  }

  /** REROUTEGEOFENCE is asked for exactly when the route crosses a geofence and neither ends inside one. */
  predicate Reroutes(v: Assessment)
  {
    v.routeval && !v.acval && !v.destval
  }

  /**
   * An aircraft with nothing left to fly (an empty route) never crosses a
   * geofence and is never rerouted, whatever the geofences are.
   */
  lemma NoRouteNoReroute(shapes: Shapes, fences: seq<seq<real>>, a: Aircraft, route: Route)
    requires route.Valid() && route.wpname == []
    ensures !Assess(shapes, fences, a, route).routeval
    ensures !Reroutes(Assess(shapes, fences, a, route))
  {
    RouteLineShape(a, route);
  }

  /** With an empty route the end point checked is the aircraft itself, so `destval` agrees with `acval`. */
  lemma NoRouteDestIsAircraft(shapes: Shapes, fences: seq<seq<real>>, a: Aircraft, route: Route)
    requires route.Valid() && route.wpname == []
    ensures Assess(shapes, fences, a, route).destval == Assess(shapes, fences, a, route).acval
  {
    RouteLineShape(a, route);
  }

  /**
   * `checker(acid)`: build the multipolygon from the geofences in order,
   * assess the aircraft, stack REROUTEGEOFENCE when it should be rerouted,
   * and answer (routeval, acval).
   */
  method Checker(shapes: Shapes, fences: seq<seq<real>>, id: string, a: Aircraft, route: Route, log: CommandStack)
    returns (routeval: bool, acval: bool)
    requires route.Valid()
    modifies log
    ensures routeval == Assess(shapes, fences, a, route).routeval
    ensures acval == Assess(shapes, fences, a, route).acval
    ensures log.cmds == old(log.cmds) + (if Reroutes(Assess(shapes, fences, a, route)) then [RerouteGeofence(id)] else [])
  {
    var multi: seq<seq<Point>> := [];
    var j := 0;
    while j < |fences|
      invariant 0 <= j <= |fences|
      invariant multi == seq(j, i requires 0 <= i < j => Vertices(fences[i]))
    {
      multi := multi + [Vertices(fences[j])];
      j := j + 1;
    }
    var routecoords := [(a.lon, a.lat)] + Zip(PyFrom(route.wplon, route.iactwp), PyFrom(route.wplat, route.iactwp));
    if |routecoords| > 1 {
      routeval := shapes.intersects(multi, routecoords);
    } else {
      routeval := false;
    }
    acval := shapes.contains(multi, (a.lon, a.lat));
    var destval := shapes.contains(multi, routecoords[|routecoords| - 1]);
    if routeval && !acval && !destval {
      log.Push(RerouteGeofence(id));
    }
  }
}
