/**
 * `PathPlanner.route` of the scenario maker and of the strategic router:
 * from a route of node ids to the waypoint lists, the interior angles and
 * the turn flags. The street table, the geometries, the interior-angle
 * tables and the node positions are given as maps; a failed lookup raises,
 * which is `None` here.
 */
module RoutePlanner {
  import opened Wrappers
  import opened PathPoints
  import Turns

  type Node = int
  type Edge = (Node, Node)

  /** The graph as the planner reads it. */
  datatype StreetMap = StreetMap(
    edgeIdx: set<Edge>,                   // the streets in their stored direction
    geometry: map<Edge, seq<Point>>,      // each street's line, as stored
    angles: map<Edge, map<Edge, real>>,   // interior angle towards each following street
    position: map<Node, Point>)           // each node's (lon, lat)

  /** The street (a, b) in its stored direction: as given if listed, else reversed. */
  function Oriented(m: StreetMap, a: Node, b: Node): (e: Edge)
    ensures e == (a, b) || e == (b, a)
    ensures (a, b) in m.edgeIdx ==> e == (a, b)
  {
    if (a, b) in m.edgeIdx then (a, b) else (b, a)
  }

  function Reverse(s: seq<Point>): (r: seq<Point>)
    ensures |r| == |s| && forall k :: 0 <= k < |s| ==> r[k] == s[|s| - 1 - k]
  {
    if s == [] then [] else Reverse(s[1..]) + [s[0]]
  }

  /**
   * The line of the street from a to b, running from a: the stored line,
   * reversed unless it starts at a's position. An unknown street or node, or
   * an empty line, raises.
   */
  function StreetGeometry(m: StreetMap, a: Node, b: Node): (r: Option<seq<Point>>)
    ensures r.Some? <==> Oriented(m, a, b) in m.geometry && a in m.position && m.geometry[Oriented(m, a, b)] != []
    ensures r.Some? ==> var g := m.geometry[Oriented(m, a, b)];
              && |r.value| == |g|
              && (r.value == g || r.value == Reverse(g))
              && (r.value[0] == m.position[a] || r.value == Reverse(g))
  {
    var e := Oriented(m, a, b);
    if e !in m.geometry || a !in m.position || m.geometry[e] == [] then None
    else
      var g := m.geometry[e];
      Some(if g[0] == m.position[a] then g else Reverse(g))
  }

  /** The lines of the first n streets of the route, or `None` when one raises. */
  function Geometries(m: StreetMap, route: seq<Node>, n: nat): Option<seq<seq<Point>>>
    requires n < |route| || n == 0
  {
    if n == 0 then Some([])
    else match Geometries(m, route, n - 1)
      case None => None
      case Some(gs) =>
        match StreetGeometry(m, route[n - 1], route[n])
        case None => None
        case Some(g) => Some(gs + [g])
  }

  /** The number of streets of a route. */
  function Legs(route: seq<Node>): nat
  {
    if |route| == 0 then 0 else |route| - 1
  }

  /** The lines come back exactly when every street's line does, one per street, in route order. */
  lemma {:induction false} GeometriesMeaning(m: StreetMap, route: seq<Node>, n: nat)
    requires n < |route| || n == 0
    ensures Geometries(m, route, n).Some? <==> forall k :: 0 <= k < n ==> StreetGeometry(m, route[k], route[k + 1]).Some?
    ensures Geometries(m, route, n).Some? ==>
              var gs := Geometries(m, route, n).value;
              |gs| == n && forall k :: 0 <= k < n ==> gs[k] == StreetGeometry(m, route[k], route[k + 1]).value
  {
    if n > 0 {
      GeometriesMeaning(m, route, n - 1);
      var prev := Geometries(m, route, n - 1);
      var last := StreetGeometry(m, route[n - 1], route[n]);
      if prev.Some? && last.Some? {
        var gs := Geometries(m, route, n).value;
        assert gs == prev.value + [last.value];
        forall k | 0 <= k < n
          ensures gs[k] == StreetGeometry(m, route[k], route[k + 1]).value
        {
          if k < n - 1 {
            assert gs[k] == prev.value[k];
          }
        }
      }
    }
  }

  /** The first loop of `route`: each street in its stored direction, with its line running along the route. */
  method StreetGeometries(m: StreetMap, route: seq<Node>) returns (r: Option<seq<seq<Point>>>)
    ensures r == Geometries(m, route, Legs(route))
  {
    var gs: seq<seq<Point>> := [];
    var idx := 0;
    while idx < Legs(route)
      invariant 0 <= idx <= Legs(route)
      invariant Geometries(m, route, idx) == Some(gs)
    {
      var g := StreetGeometry(m, route[idx], route[idx + 1]);
      if g.None? {
        GeometriesNoneStays(m, route, idx + 1, Legs(route));
        return None;
      }
      gs := gs + [g.value];
      idx := idx + 1;
    }
    r := Some(gs);
  }

  /**
   * The interior angle from the current street to the next one, looked up in
   * the current street's table under the next street, then under the next
   * street reversed; a second miss, or a street without a table, raises.
   */
  function InteriorAngle(m: StreetMap, current: Edge, next: Edge): (r: Option<real>)
    ensures r.Some? <==> current in m.angles && (next in m.angles[current] || (next.1, next.0) in m.angles[current])
    ensures r.Some? && next in m.angles[current] ==> r.value == m.angles[current][next]
  {
    if current !in m.angles then None
    else if next in m.angles[current] then Some(m.angles[current][next])
    else if (next.1, next.0) in m.angles[current] then Some(m.angles[current][(next.1, next.0)])
    else None
  }

  /** The angle at the k-th interior node of the route, between its k-th and (k+1)-th street. */
  function AngleAt(m: StreetMap, route: seq<Node>, k: nat): Option<real>
    requires k + 2 < |route|
  {
    InteriorAngle(m, Oriented(m, route[k], route[k + 1]), Oriented(m, route[k + 1], route[k + 2]))
  }

  /** A turn node of the scenario maker's planner: an interior angle below 180 - cutoff. */
  predicate IsTurnAngle(angle: real, cutoff: int)
  {
    angle < (180 - cutoff) as real
  }

  /**
   * The turn nodes and the interior angles of the first n interior nodes:
   * at a turn the second node of the current street, as stored, is a turn
   * node.
   */
  function TurnNodesUpTo(m: StreetMap, route: seq<Node>, cutoff: int, n: nat): Option<(seq<Node>, seq<real>)>
    requires n + 2 <= |route| || n == 0
  {
    if n == 0 then Some(([], []))
    else match TurnNodesUpTo(m, route, cutoff, n - 1)
      case None => None
      case Some(acc) =>
        match AngleAt(m, route, n - 1)
        case None => None
        case Some(angle) =>
          var node := Oriented(m, route[n - 1], route[n]).1;
          Some((acc.0 + (if IsTurnAngle(angle, cutoff) then [node] else []), acc.1 + [angle]))
  }

  /** The number of interior nodes of a route. */
  function Interior(route: seq<Node>): nat
  {
    if |route| < 2 then 0 else |route| - 2
  }

  /** Once a prefix raises, every longer one does. */
  lemma {:induction false} GeometriesNoneStays(m: StreetMap, route: seq<Node>, k: nat, n: nat)
    requires k <= n && (n < |route| || n == 0)
    requires Geometries(m, route, k).None?
    ensures Geometries(m, route, n).None?
  {
    if k < n {
      GeometriesNoneStays(m, route, k, n - 1);
    }
  }

  lemma {:induction false} TurnNodesNoneStays(m: StreetMap, route: seq<Node>, cutoff: int, k: nat, n: nat)
    requires k <= n && (n + 2 <= |route| || n == 0)
    requires TurnNodesUpTo(m, route, cutoff, k).None?
    ensures TurnNodesUpTo(m, route, cutoff, n).None?
  {
    if k < n {
      TurnNodesNoneStays(m, route, cutoff, k, n - 1);
    }
  }

  /**
   * The angles come back exactly when every interior angle can be looked up;
   * they are then those angles in route order, and there are at most as
   * many turn nodes as angles.
   */
  lemma {:induction false} TurnNodesMeaning(m: StreetMap, route: seq<Node>, cutoff: int, n: nat)
    requires n + 2 <= |route| || n == 0
    ensures TurnNodesUpTo(m, route, cutoff, n).Some? <==> forall k :: 0 <= k < n ==> AngleAt(m, route, k).Some?
    ensures TurnNodesUpTo(m, route, cutoff, n).Some? ==>
              var r := TurnNodesUpTo(m, route, cutoff, n).value;
              && |r.1| == n
              && |r.0| <= n
              && (forall k :: 0 <= k < n ==> r.1[k] == AngleAt(m, route, k).value)
  {
    if n > 0 {
      TurnNodesMeaning(m, route, cutoff, n - 1);
    }
  }

  /** t is the stored second node of one of the first n streets, with an angle below 180 - cutoff after it. */
  ghost predicate TurnNodeAmong(m: StreetMap, route: seq<Node>, cutoff: int, angles: seq<real>, n: nat, t: Node)
    requires n <= |angles| && (n < |route| || n == 0)
  {
    exists k :: 0 <= k < n && IsTurnAngle(angles[k], cutoff) && t == Oriented(m, route[k], route[k + 1]).1
  }

  /**
   * A node is a turn node exactly when it is the stored second node of a
   * street whose angle to the next street is below 180 - cutoff.
   */
  lemma {:induction false} TurnNodesMembers(m: StreetMap, route: seq<Node>, cutoff: int, n: nat)
    requires n + 2 <= |route| || n == 0
    requires TurnNodesUpTo(m, route, cutoff, n).Some?
    ensures var r := TurnNodesUpTo(m, route, cutoff, n).value;
            |r.1| == n && forall t :: t in r.0 <==> TurnNodeAmong(m, route, cutoff, r.1, n, t)
  {
    TurnNodesMeaning(m, route, cutoff, n);
    if n > 0 {
      TurnNodesMembers(m, route, cutoff, n - 1);
      var r0 := TurnNodesUpTo(m, route, cutoff, n - 1).value;
      var r := TurnNodesUpTo(m, route, cutoff, n).value;
      assert r.1[..n - 1] == r0.1;
      forall t
        ensures t in r.0 <==> TurnNodeAmong(m, route, cutoff, r.1, n, t)
      {
        if t in r0.0 {
          var k :| 0 <= k < n - 1 && IsTurnAngle(r0.1[k], cutoff) && t == Oriented(m, route[k], route[k + 1]).1;
          assert r.1[k] == r0.1[k];
        }
        if TurnNodeAmong(m, route, cutoff, r.1, n, t) {
          var k :| 0 <= k < n && IsTurnAngle(r.1[k], cutoff) && t == Oriented(m, route[k], route[k + 1]).1;
          if k < n - 1 {
            assert r0.1[k] == r.1[k];
            assert TurnNodeAmong(m, route, cutoff, r0.1, n - 1, t);
          }
        }
      }
    }
  }

  /** The second loop of `route` (angle cutoff as given, 30 by default). */
  method TurnNodes(m: StreetMap, route: seq<Node>, cutoff: int) returns (r: Option<(seq<Node>, seq<real>)>)
    ensures r == TurnNodesUpTo(m, route, cutoff, Interior(route))
  {
    var nodes: seq<Node> := [];
    var angles: seq<real> := [];
    var idx := 0;
    while idx < Interior(route)
      invariant 0 <= idx <= Interior(route)
      invariant TurnNodesUpTo(m, route, cutoff, idx) == Some((nodes, angles))
    {
      var current := Oriented(m, route[idx], route[idx + 1]);
      var next := Oriented(m, route[idx + 1], route[idx + 2]);
      var angle := InteriorAngle(m, current, next);
      if angle.None? {
        TurnNodesNoneStays(m, route, cutoff, idx + 1, Interior(route));
        return None;
      }
      assert AngleAt(m, route, idx) == angle;
      ghost var step := if IsTurnAngle(angle.value, cutoff) then [current.1] else [];
      assert TurnNodesUpTo(m, route, cutoff, idx + 1) == Some((nodes + step, angles + [angle.value]));
      if IsTurnAngle(angle.value, cutoff) {
        nodes := nodes + [current.1];
      } else {
        assert nodes + step == nodes;
      }
      angles := angles + [angle.value];
      idx := idx + 1;
    }
    r := Some((nodes, angles));
  }

  /**
   * The third loop: each turn node's first position among the kept points
   * (9999 when it is not there); a turn node without a position raises.
   */
  method TurnNodeIndices(m: StreetMap, turnNodes: seq<Node>, points: seq<Point>) returns (r: Option<seq<int>>)
    ensures r.Some? <==> forall k :: 0 <= k < |turnNodes| ==> turnNodes[k] in m.position
    ensures r.Some? ==>
              && |r.value| == |turnNodes|
              && forall k :: 0 <= k < |turnNodes| ==> r.value[k] == TurnIndex(points, m.position[turnNodes[k]])
  {
    var indices: seq<int> := [];
    var idx := 0;
    while idx < |turnNodes|
      invariant 0 <= idx <= |turnNodes| && |indices| == idx
      invariant forall k :: 0 <= k < idx ==> turnNodes[k] in m.position
      invariant forall k :: 0 <= k < idx ==> indices[k] == TurnIndex(points, m.position[turnNodes[k]])
    {
      var t := turnNodes[idx];
      if t !in m.position {
        return None;
      }
      indices := indices + [TurnIndex(points, m.position[t])];
      idx := idx + 1;
    }
    r := Some(indices);
  }

  /** What the scenario maker's `route` returns. */
  datatype PlannedRoute = PlannedRoute(lats: seq<real>, lons: seq<real>, turnBool: seq<bool>, angles: seq<real>)

  /** The kept points as (lon, lat) pairs. */
  function Zip(lats: seq<real>, lons: seq<real>): (pts: seq<Point>)
    requires |lats| == |lons|
    ensures |pts| == |lats| && forall k :: 0 <= k < |lats| ==> pts[k] == (lons[k], lats[k])
  {
    if lats == [] then [] else Zip(lats[..|lats| - 1], lons[..|lons| - 1]) + [(lons[|lons| - 1], lats[|lats| - 1])]
  }

  /**
   * The scenario maker's `route`: the waypoints are the kept points of the
   * oriented lines, the angles those of the interior nodes, and a waypoint
   * is flagged exactly when it is the first occurrence of a turn node's
   * position. It raises when a street, line, angle or position is missing.
   */
  method RouteWaypoints(m: StreetMap, route: seq<Node>, cutoff: int) returns (r: Option<PlannedRoute>)
    ensures r.Some? ==> Geometries(m, route, Legs(route)).Some? && TurnNodesUpTo(m, route, cutoff, Interior(route)).Some?
    ensures r.Some? ==>
              var pts := Kept(Flatten(Geometries(m, route, Legs(route)).value));
              var (nodes, angles) := TurnNodesUpTo(m, route, cutoff, Interior(route)).value;
              && |r.value.lats| == |r.value.lons| == |r.value.turnBool| == |pts|
              && (forall k :: 0 <= k < |pts| ==> (r.value.lons[k], r.value.lats[k]) == pts[k])
              && r.value.angles == angles
              && (forall i :: 0 <= i < |pts| ==> (r.value.turnBool[i] <==> Flagged(m, nodes, pts, i)))
    ensures Geometries(m, route, Legs(route)).Some? && TurnNodesUpTo(m, route, cutoff, Interior(route)).Some? &&
            (forall k :: 0 <= k < |TurnNodesUpTo(m, route, cutoff, Interior(route)).value.0| ==> TurnNodesUpTo(m, route, cutoff, Interior(route)).value.0[k] in m.position)
            ==> r.Some?
  {
    var geoms := StreetGeometries(m, route);
    if geoms.None? {
      return None;
    }
    var turns := TurnNodes(m, route, cutoff);
    if turns.None? {
      return None;
    }
    var lats, lons := RoutePoints(geoms.value);
    var pts := Zip(lats, lons);
    assert pts == Kept(Flatten(geoms.value));
    var indices := TurnNodeIndices(m, turns.value.0, pts);
    if indices.None? {
      return None;
    }
    var turnBool := TurnBool(|lats|, indices.value);
    FlagsAtFirstOccurrence(m, turns.value.0, pts, indices.value, turnBool);
    r := Some(PlannedRoute(lats, lons, turnBool, turns.value.1));
  }

  /**
   * Waypoint i is flagged: it is the first occurrence of a turn node's
   * position, or it is waypoint 9999, the index a turn node gets when its
   * position is not among the waypoints.
   */
  ghost predicate Flagged(m: StreetMap, nodes: seq<Node>, pts: seq<Point>, i: nat)
    requires i < |pts|
  {
    || (exists t :: t in nodes && t in m.position && pts[i] == m.position[t] && pts[i] !in pts[..i])
    || (i == 9999 && exists t :: t in nodes && t in m.position && m.position[t] !in pts)
  }

  /** A flag set from the turn indices marks exactly the flagged waypoints. */
  lemma FlagsAtFirstOccurrence(m: StreetMap, nodes: seq<Node>, pts: seq<Point>, indices: seq<int>, flags: seq<bool>)
    requires forall k :: 0 <= k < |nodes| ==> nodes[k] in m.position
    requires |indices| == |nodes| && forall k :: 0 <= k < |nodes| ==> indices[k] == TurnIndex(pts, m.position[nodes[k]])
    requires |flags| == |pts| && forall i :: 0 <= i < |pts| ==> (flags[i] <==> i in indices)
    ensures forall i :: 0 <= i < |pts| ==> (flags[i] <==> Flagged(m, nodes, pts, i))
  {
    forall i | 0 <= i < |pts|
      ensures flags[i] ==> Flagged(m, nodes, pts, i)
    {
      if flags[i] {
        var k :| 0 <= k < |indices| && indices[k] == i;
        var t := nodes[k];
        if m.position[t] in pts {
          assert pts[i] == m.position[t] && pts[i] !in pts[..i];
        } else {
          assert i == 9999;
        }
      }
    }
    forall i | 0 <= i < |pts| && Flagged(m, nodes, pts, i)
      ensures flags[i]
    {
      if exists t :: t in nodes && t in m.position && pts[i] == m.position[t] && pts[i] !in pts[..i] {
        var t :| t in nodes && t in m.position && pts[i] == m.position[t] && pts[i] !in pts[..i];
        var k :| 0 <= k < |nodes| && nodes[k] == t;
        assert indices[k] == i;
      } else {
        var t :| t in nodes && t in m.position && m.position[t] !in pts;
        var k :| 0 <= k < |nodes| && nodes[k] == t;
        assert indices[k] == 9999;
      }
    }
  }

  // The strategic router's `route`.

  /** What the strategic router's `route` returns (its angle cutoff, 25, is fixed). */
  datatype TacticalRoute = TacticalRoute(lats: seq<real>, lons: seq<real>, turnBool: seq<bool>,
                                         turnIndices: seq<nat>, turnSpeeds: seq<real>, angles: seq<real>)

  /** The cutoff `route` leaves `get_turn_arrays` at. */
  const TurnArraysCutoff: real := 25.0

  /**
   * The strategic router's `route`: the same kept points, then the turns as
   * `get_turn_arrays` finds them from the points alone, the turn positions
   * and the non-zero turn speeds, one per turn. A missing street, line or
   * position, or a route with no kept point, raises; the `logger.catch`
   * decorator turns that into `None`.
   */
  method RouteTactical(m: StreetMap, route: seq<Node>, qdr: Turns.Bearing) returns (r: Option<TacticalRoute>)
    ensures r.Some? <==> Geometries(m, route, Legs(route)).Some? && Kept(Flatten(Geometries(m, route, Legs(route)).value)) != []
    ensures r.Some? ==>
              var pts := Kept(Flatten(Geometries(m, route, Legs(route)).value));
              var t := r.value;
              && |t.lats| == |t.lons| == |t.turnBool| == |pts|
              && (forall k :: 0 <= k < |pts| ==> (t.lons[k], t.lats[k]) == pts[k])
              && (forall i :: 0 <= i < |pts| ==> t.turnBool[i] == Turns.IsTurn(qdr, t.lats, t.lons, TurnArraysCutoff, i))
              && (forall i :: i in t.turnIndices <==> 0 <= i < |pts| && t.turnBool[i])
              && t.turnIndices == Turns.Positions(t.turnBool)
              && (forall k, l :: 0 <= k < l < |t.turnIndices| ==> t.turnIndices[k] < t.turnIndices[l])
              && |t.turnSpeeds| == |t.turnIndices|
              && (forall k :: 0 <= k < |t.turnSpeeds| ==> t.turnSpeeds[k] in {10.0, 5.0, 2.0})
              && (forall k :: 0 <= k < |t.turnSpeeds| ==>
                    t.turnSpeeds[k] == Turns.ArraysTurnSpeed(Turns.Angle(qdr, t.lats, t.lons, t.turnIndices[k])))
              && |t.angles| == (if |pts| >= 2 then |pts| - 2 else 0)
              && (forall k :: 0 <= k < |t.angles| ==> t.angles[k] == Turns.Angle(qdr, t.lats, t.lons, k + 1))
  {
    var geoms := StreetGeometries(m, route);
    if geoms.None? {
      return None;
    }
    var lats, lons := RoutePoints(geoms.value);
    if |lats| == 0 {
      return None;
    }
    var turnBool, turnSpeed, turnCoords, angles := Turns.GetTurnArrays(qdr, lats, lons, TurnArraysCutoff);
    var flags := turnBool[..];
    var speeds := turnSpeed[..];
    var indices := Turns.TurnIndices(flags);
    var nonZero := Turns.NonZero(speeds);
    TurnSpeedsAtTurns(qdr, lats, lons, flags, speeds);
    r := Some(TacticalRoute(lats, lons, flags, indices, nonZero, angles));
  }

  /**
   * Filtering the zero speeds out of what `get_turn_arrays` gives leaves one
   * speed per turn, in route order, each the table speed of that turn's
   * heading change.
   */
  lemma TurnSpeedsAtTurns(qdr: Turns.Bearing, lats: seq<real>, lons: seq<real>, flags: seq<bool>, speeds: seq<real>)
    requires |lats| == |lons| == |flags| == |speeds|
    requires forall i :: 0 <= i < |lats| ==> flags[i] == Turns.IsTurn(qdr, lats, lons, TurnArraysCutoff, i)
    requires forall i :: 0 <= i < |lats| ==>
               speeds[i] == if Turns.IsTurn(qdr, lats, lons, TurnArraysCutoff, i) then Turns.ArraysTurnSpeed(Turns.Angle(qdr, lats, lons, i)) else 0.0
    ensures |Turns.NonZero(speeds)| == Turns.Count(flags) == |Turns.Positions(flags)|
    ensures forall k :: 0 <= k < |Turns.NonZero(speeds)| ==> Turns.NonZero(speeds)[k] in {10.0, 5.0, 2.0}
    ensures forall k :: 0 <= k < |Turns.Positions(flags)| ==>
              && Turns.IsTurn(qdr, lats, lons, TurnArraysCutoff, Turns.Positions(flags)[k])
              && Turns.NonZero(speeds)[k] == Turns.ArraysTurnSpeed(Turns.Angle(qdr, lats, lons, Turns.Positions(flags)[k]))
  {
    forall i | 0 <= i < |flags|
      ensures flags[i] <==> speeds[i] != 0.0
    {
      if flags[i] {
        assert speeds[i] == Turns.ArraysTurnSpeed(Turns.Angle(qdr, lats, lons, i));
      }
    }
    Turns.OneSpeedPerTurn(flags, speeds);
    NonZeroAreTurnSpeeds(qdr, lats, lons, speeds);
    Turns.NonZeroAtPositions(flags, speeds);
  }

  // `buildScenarioUnitary` reads the strategic router's result.

  /** One value of the tuple `route` returns. */
  datatype RouteValue = Reals(reals: seq<real>) | Flags(flags: seq<bool>) | Indices(indices: seq<nat>) | Cutoff(cutoff: real)

  /** `route`'s return statement: its six lists, then the angle cutoff. */
  function RouteReturn(t: TacticalRoute): (r: seq<RouteValue>)
    ensures |r| == 7 && r[6] == Cutoff(TurnArraysCutoff)
  {
    [Reals(t.lats), Reals(t.lons), Flags(t.turnBool), Indices(t.turnIndices), Reals(t.turnSpeeds), Reals(t.angles),
     Cutoff(TurnArraysCutoff)]
  }

  /** Tuple assignment to `names` names: the values in order, or ValueError (`None`) when the counts differ. */
  function Unpack(vals: seq<RouteValue>, names: nat): (r: Option<seq<RouteValue>>)
    ensures r.Some? <==> |vals| == names
    ensures r.Some? ==> r.value == vals
  {
    if |vals| == names then Some(vals) else None
  }

  /**
   * Whether a call with `given` positional arguments binds to a function
   * with `required` parameters and `optional` defaulted ones (`self` not
   * counted). A call that does not bind raises TypeError.
   */
  predicate Binds(given: nat, required: nat, optional: nat)
  {
    required <= given <= required + optional
  }

  /**
   * `route` on a planner under `logger.catch`: the seven values when the
   * planner holds its graph, `None` when `self.G` is missing (the
   * AttributeError is swallowed and the call returns `None`).
   */
  function RouteCall(hasGraph: bool, t: TacticalRoute): (r: Option<seq<RouteValue>>)
    ensures r.Some? <==> hasGraph
    ensures r.Some? ==> |r.value| == 7
  {
    if hasGraph then Some(RouteReturn(t)) else None
  }

  /** Tuple assignment of a call's result: unpacking `None` raises TypeError, anything else unpacks as Unpack. */
  function UnpackResult(res: Option<seq<RouteValue>>, names: nat): (r: Option<seq<RouteValue>>)
    ensures r.Some? ==> res.Some? && |res.value| == names
  {
    match res
    case None => None
    case Some(vals) => Unpack(vals, names)
  }

  /**
   * Line 244 of `buildScenarioUnitary` as written: three positional
   * arguments to `PathPlanner(G, angle_cutoff=25)`. The constructor's own
   * `logger.catch` swallows the TypeError, so the planner has no graph,
   * `route` returns `None`, and line 250 unpacks that into six names.
   */
  function UnitaryAsWritten(t: TacticalRoute): (r: Option<seq<RouteValue>>)
  {
    UnpackResult(RouteCall(Binds(3, 1, 1), t), 6)
  }

  /**
   * As written, the unitary scenario builder never gets the route. The
   * constructor call does not bind, so `route` gives `None` and the unpack
   * raises. Even with a planner that holds its graph, six names for the
   * seven values raise ValueError, while seven names succeed. The
   * `Dict2Scn` call at line 373 passes nine arguments to eight parameters.
   */
  lemma UnitaryUnpackAsWritten(t: TacticalRoute)
    ensures !Binds(3, 1, 1) && RouteCall(Binds(3, 1, 1), t).None?
    ensures UnitaryAsWritten(t).None?
    ensures UnpackResult(RouteCall(true, t), 6).None?
    ensures UnpackResult(RouteCall(true, t), 7) == Some(RouteReturn(t))
    ensures !Binds(9, 8, 0)
  {
  }

  /** The values the unitary scenario builder goes on with. */
  datatype UnitaryInputs = UnitaryInputs(turns: seq<bool>, turnIndexs: seq<nat>, turnSpeeds: seq<real>,
                                         intAngleList: seq<real>, angleCutOff: real)

  /**
   * As intended: the planner built from the graph alone (with the default
   * cutoff) and seven names in `route`'s order, so the turn flags, the
   * turn positions, the turn speeds, the interior angles and the cutoff of
   * 25 each land on the name that means them.
   */
  function UnitaryInputsIntended(t: TacticalRoute): (r: Option<UnitaryInputs>)
    ensures r == Some(UnitaryInputs(t.turnBool, t.turnIndices, t.turnSpeeds, t.angles, TurnArraysCutoff))
  {
    match UnpackResult(RouteCall(Binds(1, 1, 1), t), 7)
    case None => None
    case Some(v) =>
      match (v[2], v[3], v[4], v[5], v[6])
      case (Flags(f), Indices(ix), Reals(sp), Reals(a), Cutoff(c)) => Some(UnitaryInputs(f, ix, sp, a, c))
      case _ => None
  }

  /** Every speed `get_turn_arrays` gives is 0 or one of 10, 5 and 2, so the non-zero ones are turn speeds. */
  lemma NonZeroAreTurnSpeeds(qdr: Turns.Bearing, lats: seq<real>, lons: seq<real>, speeds: seq<real>)
    requires |lats| == |lons| == |speeds|
    requires forall i :: 0 <= i < |lats| ==>
               speeds[i] == if Turns.IsTurn(qdr, lats, lons, TurnArraysCutoff, i) then Turns.ArraysTurnSpeed(Turns.Angle(qdr, lats, lons, i)) else 0.0
    ensures forall k :: 0 <= k < |Turns.NonZero(speeds)| ==> Turns.NonZero(speeds)[k] in {10.0, 5.0, 2.0}
  {
    assert forall i :: 0 <= i < |speeds| ==> speeds[i] in {0.0, 10.0, 5.0, 2.0};
    NonZeroFrom(speeds);
    forall k | 0 <= k < |Turns.NonZero(speeds)|
      ensures Turns.NonZero(speeds)[k] in {10.0, 5.0, 2.0}
    {
      assert Turns.NonZero(speeds)[k] in Turns.NonZero(speeds);
    }
  }

  /** The non-zero speeds are taken from the list. */
  lemma {:induction false} NonZeroFrom(speeds: seq<real>)
    ensures forall x :: x in Turns.NonZero(speeds) ==> x in speeds
  {
    if speeds != [] {
      NonZeroFrom(speeds[..|speeds| - 1]);
    }
  }
}
