/**
 * The scenario makers: `ScenarioMaker.Drone2Scn` and `Dict2Scn` of the
 * scenario maker's planner, and `Drone2Scn` and `Dict2Scn` of the strategic
 * router. A scenario is a list of timed BlueSky command lines; the lines are
 * kept as structured commands rather than as formatted text.
 */
module Scenario {
  import opened Wrappers
  import TimeFormat

  /** The kind of a waypoint in `ADDWAYPOINTS`. */
  datatype Kind = FlyBy | TurnSpeed | FlyOver

  /** One `lat lon ,alt,spd, KIND, turnspd,` entry. */
  datatype Wpt = Wpt(lat: real, lon: real, alt: real, spd: int, kind: Kind, turnSpd: real)

  /** The commands the scenario makers write. */
  datatype Command =
    | CasMachThr(threshold: int)
    | Pan(lat: real, lon: real)
    | Zoom(level: int)
    | Cre(id: string, uav: string, lat: real, lon: real, hdg: real, alt: real)
    | SetPriority(id: string, priority: string)
    | SetSta(id: string, sta: string)
    | Alt(id: string, alt: real)
    | AtAltSpd(id: string, alt: real, spd: int)
    | AtAltLnav(id: string, alt: real)
    | AtAltVnav(id: string, alt: real)
    | SetTurns(id: string, indices: seq<int>)
    | SetTurnSpds(id: string, speeds: seq<int>)
    | AddWaypoints(id: string, wpts: seq<Wpt>)

  /** A scenario line: `time>command`, with a blank line before it for `CRE`. */
  datatype Line = Line(blankBefore: bool, time: string, cmd: Command)

  /** The bearing between two (lat, lon) positions, taken as given. */
  type Bearing = (real, real, real, real) -> real

  /** The cruise speed of a vehicle type, in knots. */
  function CruiseSpeed(uav: string): (spd: int)
    ensures spd == (if uav == "MP30" then 30 else 20)
  {
    if uav == "MP20" then 20 else if uav == "MP30" then 30 else 20
  }

  /** The turn speed before the first turn, in knots. */
  const InitialTurnSpeed: int := 10

  /** The planner's turn-speed table, by interior angle; below 25 degrees the previous speed is kept. */
  function NextTurnSpeed(prev: int, angle: real): int
  {
    if 25.0 <= angle < 100.0 then 10
    else if 100.0 <= angle < 150.0 then 5
    else if angle >= 150.0 then 2
    else prev
  }

  /** Point i is a turn waypoint: an interior point flagged as a turn. */
  predicate IsTurnPoint(lats: seq<real>, turnbool: seq<bool>, i: int)
    requires |turnbool| == |lats|
  {
    0 < i < |lats| - 1 && turnbool[i]
  }

  /** An interior or last point that is not a turn. */
  function PlainEntry(lats: seq<real>, lons: seq<real>, alts: seq<real>, cruise: int, i: int): Wpt
    requires |lons| == |lats| == |alts| && 0 < i < |lats|
  {
    if i == |lats| - 1 then Wpt(lats[i], lons[i], alts[i], 0, FlyOver, 0.0)
    else if lats[i] == lats[i - 1] && lons[i] == lons[i - 1] then Wpt(lats[i], lons[i], alts[i], 0, FlyBy, 0.0)
    else if lats[i] == lats[i + 1] && lons[i] == lons[i + 1] then Wpt(lats[i], lons[i], alts[i], 0, FlyBy, 0.0)
    else Wpt(lats[i], lons[i], alts[i], cruise, FlyBy, 0.0)
  }

  // The scenario maker's planner: the waypoints, with the running turn speed.

  /**
   * The waypoints of the first n points, the number of angles used and the
   * running turn speed; a turn beyond the angle list raises.
   */
  function WaypointsV2(lats: seq<real>, lons: seq<real>, alts: seq<real>, turnbool: seq<bool>,
                       angles: seq<real>, cruise: int, n: nat): Option<(seq<Wpt>, nat, int)>
    requires |lons| == |lats| == |alts| == |turnbool| && n <= |lats|
  {
    if n == 0 then Some(([], 0, InitialTurnSpeed))
    else match WaypointsV2(lats, lons, alts, turnbool, angles, cruise, n - 1)
      case None => None
      case Some(acc) =>
        var (w, j, ts) := acc;
        var i := n - 1;
        if i == 0 then Some((w + [Wpt(lats[0], lons[0], alts[0], 0, FlyBy, 0.0)], j, ts))
        else if IsTurnPoint(lats, turnbool, i) then
          if j < |angles| then
            var ts' := NextTurnSpeed(ts, angles[j]);
            Some((w + [Wpt(lats[i], lons[i], alts[i], cruise, TurnSpeed, ts' as real)], j + 1, ts'))
          else None
        else Some((w + [PlainEntry(lats, lons, alts, cruise, i)], j, ts))
  }

  /** The number of turn waypoints among the first n points. */
  function TurnsBefore(lats: seq<real>, turnbool: seq<bool>, n: nat): (c: nat)
    requires |turnbool| == |lats| && n <= |lats|
    ensures c <= n
  {
    if n == 0 then 0 else TurnsBefore(lats, turnbool, n - 1) + (if IsTurnPoint(lats, turnbool, n - 1) then 1 else 0)
  }

  /**
   * The turn speed after the first m turns, each applying the table to its
   * angle (turns beyond the angle list, where the loop raises, change nothing).
   */
  function TurnSpeedAfter(angles: seq<real>, m: nat): int
  {
    if m == 0 then InitialTurnSpeed
    else if m <= |angles| then NextTurnSpeed(TurnSpeedAfter(angles, m - 1), angles[m - 1])
    else TurnSpeedAfter(angles, m - 1)
  }

  /** The turn speed is always one of the table's three speeds. */
  lemma {:induction false} TurnSpeedInTable(angles: seq<real>, m: nat)
    ensures TurnSpeedAfter(angles, m) in {10, 5, 2}
  {
    if m > 0 {
      TurnSpeedInTable(angles, m - 1);
    }
  }

  /** The waypoint for point k, stated directly: the turn count and the angles before it decide its turn speed. */
  function ExpectedV2(lats: seq<real>, lons: seq<real>, alts: seq<real>, turnbool: seq<bool>,
                      angles: seq<real>, cruise: int, k: nat): Wpt
    requires |lons| == |lats| == |alts| == |turnbool| && k < |lats|
  {
    if k == 0 then Wpt(lats[0], lons[0], alts[0], 0, FlyBy, 0.0)
    else if IsTurnPoint(lats, turnbool, k) then
      Wpt(lats[k], lons[k], alts[k], cruise, TurnSpeed, TurnSpeedAfter(angles, TurnsBefore(lats, turnbool, k + 1)) as real)
    else PlainEntry(lats, lons, alts, cruise, k)
  }

  /**
   * The waypoints come back exactly when there are no more turns than
   * angles; there is then one per point, each as stated directly, and one
   * angle has been used per turn.
   */
  lemma {:induction false} WaypointsV2Meaning(lats: seq<real>, lons: seq<real>, alts: seq<real>, turnbool: seq<bool>,
                                              angles: seq<real>, cruise: int, n: nat)
    requires |lons| == |lats| == |alts| == |turnbool| && n <= |lats|
    ensures WaypointsV2(lats, lons, alts, turnbool, angles, cruise, n).Some? <==> TurnsBefore(lats, turnbool, n) <= |angles|
    ensures WaypointsV2(lats, lons, alts, turnbool, angles, cruise, n).Some? ==>
              var r := WaypointsV2(lats, lons, alts, turnbool, angles, cruise, n).value;
              && r.1 == TurnsBefore(lats, turnbool, n)
              && r.2 == TurnSpeedAfter(angles, r.1)
              && |r.0| == n
    ensures WaypointsV2(lats, lons, alts, turnbool, angles, cruise, n).Some? ==>
              var r := WaypointsV2(lats, lons, alts, turnbool, angles, cruise, n).value;
              forall k :: 0 <= k < n ==> r.0[k] == ExpectedV2(lats, lons, alts, turnbool, angles, cruise, k)
  {
    if n > 0 {
      WaypointsV2Meaning(lats, lons, alts, turnbool, angles, cruise, n - 1);
      var prev := WaypointsV2(lats, lons, alts, turnbool, angles, cruise, n - 1);
      if prev.Some? && TurnsBefore(lats, turnbool, n) <= |angles| {
        var r0 := prev.value;
        var r := WaypointsV2(lats, lons, alts, turnbool, angles, cruise, n).value;
        assert r.0[..n - 1] == r0.0;
        forall k: nat | k < n
          ensures r.0[k] == ExpectedV2(lats, lons, alts, turnbool, angles, cruise, k)
        {
          if k < n - 1 {
            assert r.0[k] == r0.0[k];
          }
        }
      }
    }
  }

  /**
   * What each waypoint says: the first is a fly-by at speed 0, the last a
   * fly-over at speed 0, an interior turn a turn-speed point at cruise speed
   * with a speed from the table, and an interior non-turn a fly-by at speed
   * 0 when it repeats a neighbour and at cruise speed otherwise.
   */
  lemma WaypointKinds(lats: seq<real>, lons: seq<real>, alts: seq<real>, turnbool: seq<bool>,
                      angles: seq<real>, uav: string, k: nat)
    requires |lons| == |lats| == |alts| == |turnbool| && k < |lats|
    ensures var w := ExpectedV2(lats, lons, alts, turnbool, angles, CruiseSpeed(uav), k);
            && (w.lat, w.lon, w.alt) == (lats[k], lons[k], alts[k])
            && (w.kind == FlyOver <==> k == |lats| - 1 && k > 0)
            && (w.kind == TurnSpeed <==> IsTurnPoint(lats, turnbool, k))
            && (w.kind == TurnSpeed ==> w.turnSpd in {10.0, 5.0, 2.0})
            && (w.kind != TurnSpeed ==> w.turnSpd == 0.0)
            && (w.spd == 0 <==>
                  || k == 0 || k == |lats| - 1
                  || (!IsTurnPoint(lats, turnbool, k) &&
                      ((lats[k], lons[k]) == (lats[k - 1], lons[k - 1]) || (lats[k], lons[k]) == (lats[k + 1], lons[k + 1]))))
  {
    if IsTurnPoint(lats, turnbool, k) {
      TurnSpeedInTable(angles, TurnsBefore(lats, turnbool, k + 1));
    }
  }

  /** The waypoint loop of the planner's `Drone2Scn`. */
  method WaypointLoopV2(lats: seq<real>, lons: seq<real>, alts: seq<real>, turnbool: seq<bool>,
                        angles: seq<real>, cruise: int) returns (r: Option<seq<Wpt>>)
    requires |lons| == |lats| == |alts| == |turnbool|
    ensures r.Some? <==> WaypointsV2(lats, lons, alts, turnbool, angles, cruise, |lats|).Some?
    ensures r.Some? ==> r.value == WaypointsV2(lats, lons, alts, turnbool, angles, cruise, |lats|).value.0
  {
    var wpts: seq<Wpt> := [];
    var turnSpeed := InitialTurnSpeed;
    var j: nat := 0;
    var i := 0;
    while i < |lats|
      invariant 0 <= i <= |lats|
      invariant WaypointsV2(lats, lons, alts, turnbool, angles, cruise, i) == Some((wpts, j, turnSpeed))
    {
      if i == 0 {
        wpts := wpts + [Wpt(lats[0], lons[0], alts[0], 0, FlyBy, 0.0)];
      } else if i < |lats| - 1 && turnbool[i] {
        if j >= |angles| {
          WaypointsV2NoneStays(lats, lons, alts, turnbool, angles, cruise, i + 1, |lats|);
          return None;
        }
        turnSpeed := NextTurnSpeed(turnSpeed, angles[j]);
        j := j + 1;
        wpts := wpts + [Wpt(lats[i], lons[i], alts[i], cruise, TurnSpeed, turnSpeed as real)];
      } else {
        wpts := wpts + [PlainEntry(lats, lons, alts, cruise, i)];
      }
      i := i + 1;
    }
    r := Some(wpts);
  }

  lemma {:induction false} WaypointsV2NoneStays(lats: seq<real>, lons: seq<real>, alts: seq<real>, turnbool: seq<bool>,
                                                angles: seq<real>, cruise: int, k: nat, n: nat)
    requires |lons| == |lats| == |alts| == |turnbool| && k <= n <= |lats|
    requires WaypointsV2(lats, lons, alts, turnbool, angles, cruise, k).None?
    ensures WaypointsV2(lats, lons, alts, turnbool, angles, cruise, n).None?
  {
    if k < n {
      WaypointsV2NoneStays(lats, lons, alts, turnbool, angles, cruise, k, n - 1);
    }
  }

  /** The flight's own lines before its waypoints: creation, priority, STA, altitude and the three ATALT lines. */
  function PreambleV2(id: string, t: string, lats: seq<real>, lons: seq<real>, alts: seq<real>,
                      priority: string, sta: string, uav: string, qdr: Bearing): seq<Line>
    requires |lons| == |lats| == |alts| && |lats| >= 2
  {
    var opAlt := alts[|alts| / 2];
    [ Line(true, t, Cre(id, uav, lats[0], lons[0], qdr(lats[0], lons[0], lats[1], lons[1]), alts[0])),
      Line(false, t, SetPriority(id, priority)),
      Line(false, t, SetSta(id, sta)),
      Line(false, t, Alt(id, opAlt)),
      Line(false, t, AtAltSpd(id, opAlt, CruiseSpeed(uav))),
      Line(false, t, AtAltLnav(id, opAlt)),
      Line(false, t, AtAltVnav(id, opAlt)) ]
  }

  /** The planner's `Drone2Scn`; a route of fewer than two points or too few angles raises. */
  function ScenarioV2(id: string, startTime: real, lats: seq<real>, lons: seq<real>, turnbool: seq<bool>, alts: seq<real>,
                      priority: string, sta: string, uav: string, angles: seq<real>, qdr: Bearing): Option<seq<Line>>
    requires |lons| == |lats| == |alts| == |turnbool|
  {
    if |lats| < 2 then None
    else match WaypointsV2(lats, lons, alts, turnbool, angles, CruiseSpeed(uav), |lats|)
      case None => None
      case Some(acc) =>
        var t := TimeToStr(startTime);
        Some(PreambleV2(id, t, lats, lons, alts, priority, sta, uav, qdr) + [Line(false, t, AddWaypoints(id, acc.0))])
  }

  function TimeToStr(time: real): string
  {
    TimeFormat.TimeToStr(time)
  }

  /**
   * A scenario comes back exactly for two points or more and no more turns
   * than angles: eight lines at the start time, the creation at the first
   * point heading for the second, the altitude of the middle point, and one
   * waypoint per point.
   */
  lemma ScenarioV2Shape(id: string, startTime: real, lats: seq<real>, lons: seq<real>, turnbool: seq<bool>, alts: seq<real>,
                        priority: string, sta: string, uav: string, angles: seq<real>, qdr: Bearing)
    requires |lons| == |lats| == |alts| == |turnbool|
    ensures var r := ScenarioV2(id, startTime, lats, lons, turnbool, alts, priority, sta, uav, angles, qdr);
            && (r.Some? <==> |lats| >= 2 && TurnsBefore(lats, turnbool, |lats|) <= |angles|)
            && (r.Some? ==>
                  && |r.value| == 8
                  && (forall k :: 0 <= k < 8 ==> r.value[k].time == TimeToStr(startTime) && (r.value[k].blankBefore <==> k == 0))
                  && r.value[0].cmd == Cre(id, uav, lats[0], lons[0], qdr(lats[0], lons[0], lats[1], lons[1]), alts[0])
                  && r.value[3].cmd == Alt(id, alts[|lats| / 2])
                  && r.value[7].cmd.AddWaypoints?
                  && |r.value[7].cmd.wpts| == |lats|
                  && forall k :: 0 <= k < |lats| ==>
                       r.value[7].cmd.wpts[k] == ExpectedV2(lats, lons, alts, turnbool, angles, CruiseSpeed(uav), k))
  {
    WaypointsV2Meaning(lats, lons, alts, turnbool, angles, CruiseSpeed(uav), |lats|);
  }

  /** The planner's `Drone2Scn`: the creation lines, then the waypoint loop. */
  method Drone2ScnV2(id: string, startTime: real, lats: seq<real>, lons: seq<real>, turnbool: seq<bool>, alts: seq<real>,
                     priority: string, sta: string, uav: string, angles: seq<real>, qdr: Bearing) returns (lines: Option<seq<Line>>)
    requires |lons| == |lats| == |alts| == |turnbool|
    ensures lines == ScenarioV2(id, startTime, lats, lons, turnbool, alts, priority, sta, uav, angles, qdr)
  {
    if |lats| < 2 {
      return None;
    }
    var t := TimeToStr(startTime);
    var wpts := WaypointLoopV2(lats, lons, alts, turnbool, angles, CruiseSpeed(uav));
    if wpts.None? {
      return None;
    }
    lines := Some(PreambleV2(id, t, lats, lons, alts, priority, sta, uav, qdr) + [Line(false, t, AddWaypoints(id, wpts.value))]);
  }

  // The scenario header and `Dict2Scn`.

  /** The three lines put in front of the first scenario: Mach threshold, view centre and zoom. */
  const Header: seq<Line> := [
    Line(false, "00:00:00", CasMachThr(0)),
    Line(false, "00:00:00", Pan(48.223775, 16.337976)),
    Line(false, "00:00:00", Zoom(60))]

  /** One drone's entry of the dictionary; a key that is missing is `None`. */
  datatype DroneRecord = DroneRecord(startTime: Option<real>, lats: Option<seq<real>>, lons: Option<seq<real>>,
                                     turnbool: Option<seq<bool>>, alts: Option<seq<real>>)

  /** All the keys `Dict2Scn` reads are there. */
  predicate Complete(d: DroneRecord)
  {
    d.startTime.Some? && d.lats.Some? && d.lons.Some? && d.turnbool.Some? && d.alts.Some?
  }

  /** The lists of a complete entry line up, one entry per point. */
  predicate Aligned(d: DroneRecord)
  {
    Complete(d) ==> |d.lons.value| == |d.lats.value| == |d.alts.value| == |d.turnbool.value|
  }

  /** The scenario maker of the planner, which adds the header once. */
  class ScenarioMaker {
    var headerAdded: bool

    constructor ()
      ensures !headerAdded
    {
      headerAdded := false;
    }

    /**
     * `Dict2Scn`: the scenario of the first drone of the dictionary only, in
     * its insertion order. An empty dictionary or a missing key gives nothing
     * and no change; otherwise the header goes in front of the first
     * scenario this maker writes.
     */
    method Dict2Scn(drones: seq<(string, DroneRecord)>, priority: string, sta: string, uav: string,
                    angles: seq<real>, qdr: Bearing) returns (lines: Option<seq<Line>>)
      requires drones != [] ==> Aligned(drones[0].1)
      modifies this
      ensures drones == [] || !Complete(drones[0].1) ==> lines.None? && headerAdded == old(headerAdded)
      ensures drones != [] && Complete(drones[0].1) ==>
                var (id, d) := drones[0];
                var s := ScenarioV2(id, d.startTime.value, d.lats.value, d.lons.value, d.turnbool.value, d.alts.value,
                                    priority, sta, uav, angles, qdr);
                && (s.None? ==> lines.None? && headerAdded == old(headerAdded))
                && (s.Some? ==> lines == Some((if old(headerAdded) then [] else Header) + s.value) && headerAdded)
    {
      if drones == [] || !Complete(drones[0].1) {
        return None;
      }
      var (id, d) := drones[0];
      var s := Drone2ScnV2(id, d.startTime.value, d.lats.value, d.lons.value, d.turnbool.value, d.alts.value,
                           priority, sta, uav, angles, qdr);
      if s.None? {
        return None;
      }
      var body := s.value;
      if !headerAdded {
        body := Header + body;
        headerAdded := true;
      } else {
        assert [] + body == body;
      }
      lines := Some(body);
    }
  }

  /**
   * Two scenarios from one new maker: the first carries the header in front
   * of its creation line, the second starts right at its creation line.
   */
  method HeaderOnlyOnce(first: seq<(string, DroneRecord)>, second: seq<(string, DroneRecord)>, priority: string, sta: string,
                        uav: string, angles: seq<real>, qdr: Bearing) returns (a: Option<seq<Line>>, b: Option<seq<Line>>)
    requires first != [] ==> Aligned(first[0].1)
    requires second != [] ==> Aligned(second[0].1)
    ensures a.Some? ==> |a.value| == 11 && a.value[..3] == Header && a.value[3].cmd.Cre?
    ensures a.Some? && b.Some? ==> |b.value| == 8 && b.value[0].cmd.Cre?
  {
    var maker := new ScenarioMaker();
    a := maker.Dict2Scn(first, priority, sta, uav, angles, qdr);
    if a.Some? {
      var (id, d) := first[0];
      ScenarioV2Shape(id, d.startTime.value, d.lats.value, d.lons.value, d.turnbool.value, d.alts.value, priority, sta, uav, angles, qdr);
    }
    b := maker.Dict2Scn(second, priority, sta, uav, angles, qdr);
    if b.Some? {
      var (id, d) := second[0];
      ScenarioV2Shape(id, d.startTime.value, d.lats.value, d.lons.value, d.turnbool.value, d.alts.value, priority, sta, uav, angles, qdr);
    }
  }

  // The strategic router's scenario maker.

  /** `int(x)` of a float: the integer part, truncated toward zero. */
  function Trunc(x: real): (r: int)
    ensures x >= 0.0 ==> r as real <= x < r as real + 1.0
    ensures x < 0.0 ==> r as real - 1.0 < x <= r as real
  {
    if x >= 0.0 then x.Floor else -((-x).Floor)
  }

  /**
   * The router's waypoints of the first n points: the first point is left
   * out, and the k-th turn takes the k-th given turn speed; a turn beyond
   * the speed list raises.
   */
  function WaypointsTactical(lats: seq<real>, lons: seq<real>, alts: seq<real>, turnbool: seq<bool>,
                             speeds: seq<real>, cruise: int, n: nat): Option<(seq<Wpt>, nat)>
    requires |lons| == |lats| == |alts| == |turnbool| && n <= |lats|
  {
    if n == 0 then Some(([], 0))
    else match WaypointsTactical(lats, lons, alts, turnbool, speeds, cruise, n - 1)
      case None => None
      case Some(acc) =>
        var i := n - 1;
        if i == 0 then Some(acc)
        else if IsTurnPoint(lats, turnbool, i) then
          if acc.1 < |speeds| then Some((acc.0 + [Wpt(lats[i], lons[i], alts[i], cruise, TurnSpeed, speeds[acc.1])], acc.1 + 1))
          else None
        else Some((acc.0 + [PlainEntry(lats, lons, alts, cruise, i)], acc.1))
  }

  /** The router's waypoint for point k > 0, stated directly. */
  function ExpectedTactical(lats: seq<real>, lons: seq<real>, alts: seq<real>, turnbool: seq<bool>,
                            speeds: seq<real>, cruise: int, k: nat): Wpt
    requires |lons| == |lats| == |alts| == |turnbool| && 0 < k < |lats|
  {
    if IsTurnPoint(lats, turnbool, k) then
      var m := TurnsBefore(lats, turnbool, k);
      Wpt(lats[k], lons[k], alts[k], cruise, TurnSpeed, if m < |speeds| then speeds[m] else 0.0)
    else PlainEntry(lats, lons, alts, cruise, k)
  }

  /**
   * The router's waypoints come back exactly when there are no more turns
   * than turn speeds; there is then one per point after the first, each as
   * stated directly, and one speed has been used per turn.
   */
  lemma {:induction false} WaypointsTacticalMeaning(lats: seq<real>, lons: seq<real>, alts: seq<real>, turnbool: seq<bool>,
                                                    speeds: seq<real>, cruise: int, n: nat)
    requires |lons| == |lats| == |alts| == |turnbool| && n <= |lats|
    ensures WaypointsTactical(lats, lons, alts, turnbool, speeds, cruise, n).Some? <==> TurnsBefore(lats, turnbool, n) <= |speeds|
    ensures WaypointsTactical(lats, lons, alts, turnbool, speeds, cruise, n).Some? ==>
              var r := WaypointsTactical(lats, lons, alts, turnbool, speeds, cruise, n).value;
              && r.1 == TurnsBefore(lats, turnbool, n)
              && |r.0| == (if n == 0 then 0 else n - 1)
    ensures WaypointsTactical(lats, lons, alts, turnbool, speeds, cruise, n).Some? ==>
              var r := WaypointsTactical(lats, lons, alts, turnbool, speeds, cruise, n).value;
              forall k :: 0 <= k < |r.0| ==> r.0[k] == ExpectedTactical(lats, lons, alts, turnbool, speeds, cruise, k + 1)
  {
    if n > 0 {
      WaypointsTacticalMeaning(lats, lons, alts, turnbool, speeds, cruise, n - 1);
      var prev := WaypointsTactical(lats, lons, alts, turnbool, speeds, cruise, n - 1);
      if prev.Some? && TurnsBefore(lats, turnbool, n) <= |speeds| && n > 1 {
        var r0 := prev.value;
        var r := WaypointsTactical(lats, lons, alts, turnbool, speeds, cruise, n).value;
        assert r.0[..n - 2] == r0.0;
        forall k | 0 <= k < |r.0|
          ensures r.0[k] == ExpectedTactical(lats, lons, alts, turnbool, speeds, cruise, k + 1)
        {
          if k < n - 2 {
            assert r.0[k] == r0.0[k];
          }
        }
      }
    }
  }

  /**
   * Both makers write the same waypoints after the first point when the
   * router's k-th turn speed is the speed the planner's table reaches at
   * its k-th turn.
   */
  lemma SameWaypointsAfterFirst(lats: seq<real>, lons: seq<real>, alts: seq<real>, turnbool: seq<bool>,
                                angles: seq<real>, speeds: seq<real>, cruise: int, k: nat)
    requires |lons| == |lats| == |alts| == |turnbool| && 0 < k < |lats|
    requires forall m :: 0 <= m < |speeds| ==> speeds[m] == TurnSpeedAfter(angles, m + 1) as real
    requires TurnsBefore(lats, turnbool, k + 1) <= |speeds|
    ensures ExpectedTactical(lats, lons, alts, turnbool, speeds, cruise, k) == ExpectedV2(lats, lons, alts, turnbool, angles, cruise, k)
  {
  }

  /** The waypoint loop of the router's `Drone2Scn`. */
  method WaypointLoopTactical(lats: seq<real>, lons: seq<real>, alts: seq<real>, turnbool: seq<bool>,
                              speeds: seq<real>, cruise: int) returns (r: Option<seq<Wpt>>)
    requires |lons| == |lats| == |alts| == |turnbool|
    ensures r.Some? <==> WaypointsTactical(lats, lons, alts, turnbool, speeds, cruise, |lats|).Some?
    ensures r.Some? ==> r.value == WaypointsTactical(lats, lons, alts, turnbool, speeds, cruise, |lats|).value.0
  {
    var wpts: seq<Wpt> := [];
    var j: nat := 0;
    var i := 0;
    while i < |lats|
      invariant 0 <= i <= |lats|
      invariant WaypointsTactical(lats, lons, alts, turnbool, speeds, cruise, i) == Some((wpts, j))
    {
      if i == 0 {
        // the first point gets no entry
      } else if i < |lats| - 1 && turnbool[i] {
        if j >= |speeds| {
          WaypointsTacticalNoneStays(lats, lons, alts, turnbool, speeds, cruise, i + 1, |lats|);
          return None;
        }
        wpts := wpts + [Wpt(lats[i], lons[i], alts[i], cruise, TurnSpeed, speeds[j])];
        j := j + 1;
      } else {
        wpts := wpts + [PlainEntry(lats, lons, alts, cruise, i)];
      }
      i := i + 1;
    }
    r := Some(wpts);
  }

  lemma {:induction false} WaypointsTacticalNoneStays(lats: seq<real>, lons: seq<real>, alts: seq<real>, turnbool: seq<bool>,
                                                      speeds: seq<real>, cruise: int, k: nat, n: nat)
    requires |lons| == |lats| == |alts| == |turnbool| && k <= n <= |lats|
    requires WaypointsTactical(lats, lons, alts, turnbool, speeds, cruise, k).None?
    ensures WaypointsTactical(lats, lons, alts, turnbool, speeds, cruise, n).None?
  {
    if k < n {
      WaypointsTacticalNoneStays(lats, lons, alts, turnbool, speeds, cruise, k, n - 1);
    }
  }

  /**
   * The router's `Drone2Scn`: the turn indices, the turn speeds as integers
   * and the waypoints, at the start time. The heading is taken towards the
   * third point, so fewer than three points raise, and the `logger.catch`
   * decorator turns that into `None`.
   */
  function ScenarioTactical(id: string, startTime: real, lats: seq<real>, lons: seq<real>, turnbool: seq<bool>, alts: seq<real>,
                            uav: string, turnIndices: seq<int>, turnSpeeds: seq<real>): Option<seq<Line>>
    requires |lons| == |lats| == |alts| == |turnbool|
  {
    if |lats| < 3 then None
    else match WaypointsTactical(lats, lons, alts, turnbool, turnSpeeds, CruiseSpeed(uav), |lats|)
      case None => None
      case Some(acc) =>
        var t := TimeToStr(startTime);
        Some([Line(false, t, SetTurns(id, turnIndices)),
              Line(false, t, SetTurnSpds(id, seq(|turnSpeeds|, k requires 0 <= k < |turnSpeeds| => Trunc(turnSpeeds[k])))),
              Line(false, t, AddWaypoints(id, acc.0))])
  }

  /**
   * A scenario comes back exactly for three points or more and no more turns
   * than turn speeds: three lines at the start time with the indices as
   * given, each speed truncated, and one waypoint per point after the first.
   */
  lemma ScenarioTacticalShape(id: string, startTime: real, lats: seq<real>, lons: seq<real>, turnbool: seq<bool>, alts: seq<real>,
                              uav: string, turnIndices: seq<int>, turnSpeeds: seq<real>)
    requires |lons| == |lats| == |alts| == |turnbool|
    ensures var r := ScenarioTactical(id, startTime, lats, lons, turnbool, alts, uav, turnIndices, turnSpeeds);
            && (r.Some? <==> |lats| >= 3 && TurnsBefore(lats, turnbool, |lats|) <= |turnSpeeds|)
            && (r.Some? ==>
                  && |r.value| == 3
                  && (forall k :: 0 <= k < 3 ==> r.value[k].time == TimeToStr(startTime) && !r.value[k].blankBefore)
                  && r.value[0].cmd == SetTurns(id, turnIndices)
                  && r.value[1].cmd.SetTurnSpds? && |r.value[1].cmd.speeds| == |turnSpeeds|
                  && (forall k :: 0 <= k < |turnSpeeds| ==> r.value[1].cmd.speeds[k] == Trunc(turnSpeeds[k]))
                  && r.value[2].cmd.AddWaypoints?
                  && |r.value[2].cmd.wpts| == |lats| - 1
                  && forall k :: 0 <= k < |lats| - 1 ==>
                       r.value[2].cmd.wpts[k] == ExpectedTactical(lats, lons, alts, turnbool, turnSpeeds, CruiseSpeed(uav), k + 1))
  {
    WaypointsTacticalMeaning(lats, lons, alts, turnbool, turnSpeeds, CruiseSpeed(uav), |lats|);
  }

  /** The router's `Drone2Scn`: the turn lines, then the waypoint loop. */
  method Drone2ScnTactical(id: string, startTime: real, lats: seq<real>, lons: seq<real>, turnbool: seq<bool>, alts: seq<real>,
                           uav: string, turnIndices: seq<int>, turnSpeeds: seq<real>) returns (lines: Option<seq<Line>>)
    requires |lons| == |lats| == |alts| == |turnbool|
    ensures lines == ScenarioTactical(id, startTime, lats, lons, turnbool, alts, uav, turnIndices, turnSpeeds)
  {
    if |lats| < 3 {
      return None;
    }
    var t := TimeToStr(startTime);
    var ints: seq<int> := [];
    var k := 0;
    while k < |turnSpeeds|
      invariant 0 <= k <= |turnSpeeds| && |ints| == k
      invariant forall m :: 0 <= m < k ==> ints[m] == Trunc(turnSpeeds[m])
    {
      ints := ints + [Trunc(turnSpeeds[k])];
      k := k + 1;
    }
    assert ints == seq(|turnSpeeds|, m requires 0 <= m < |turnSpeeds| => Trunc(turnSpeeds[m]));
    var wpts := WaypointLoopTactical(lats, lons, alts, turnbool, turnSpeeds, CruiseSpeed(uav));
    if wpts.None? {
      return None;
    }
    lines := Some([Line(false, t, SetTurns(id, turnIndices)), Line(false, t, SetTurnSpds(id, ints)), Line(false, t, AddWaypoints(id, wpts.value))]);
  }

  /** The last four characters of a path, or all of it when shorter (`filepath[-4:]`). */
  function Last4(path: string): (r: string)
    ensures |r| == if |path| >= 4 then 4 else |path|
  {
    if |path| >= 4 then path[|path| - 4..] else path
  }

  /** The scenario file a path names: ".scn" is added unless the path already ends with it. */
  function ScnPath(path: string): string
  {
    if Last4(path) != ".scn" then path + ".scn" else path
  }

  /** The file always ends in ".scn", a path is only ever extended, and naming it twice changes nothing. */
  lemma ScnPathProperties(path: string)
    ensures Last4(ScnPath(path)) == ".scn"
    ensures ScnPath(path)[..|path|] == path
    ensures ScnPath(path) == path <==> Last4(path) == ".scn"
    ensures ScnPath(ScnPath(path)) == ScnPath(path)
  {
    if Last4(path) != ".scn" {
      assert Last4(path + ".scn") == ".scn";
    }
  }

  /**
   * The router's `Dict2Scn`: the first drone's scenario, appended to the
   * scenario file the path names; an empty dictionary, a missing key or a
   * scenario that raises writes nothing.
   */
  function Dict2ScnTactical(path: string, drones: seq<(string, DroneRecord)>, uav: string,
                            turnIndices: seq<int>, turnSpeeds: seq<real>): (r: Option<(string, seq<Line>)>)
    requires drones != [] ==> Aligned(drones[0].1)
  {
    if drones == [] || !Complete(drones[0].1) then None
    else
      var (id, d) := drones[0];
      match ScenarioTactical(id, d.startTime.value, d.lats.value, d.lons.value, d.turnbool.value, d.alts.value,
                             uav, turnIndices, turnSpeeds)
      case None => None
      case Some(lines) => Some((ScnPath(path), lines))
  }

  /** What the router's `Dict2Scn` writes is the first drone's scenario, to a ".scn" file. */
  lemma Dict2ScnTacticalWrites(path: string, drones: seq<(string, DroneRecord)>, uav: string,
                               turnIndices: seq<int>, turnSpeeds: seq<real>)
    requires drones != [] ==> Aligned(drones[0].1)
    ensures var r := Dict2ScnTactical(path, drones, uav, turnIndices, turnSpeeds);
            && (r.Some? <==>
                  && drones != []
                  && Complete(drones[0].1)
                  && ScenarioTactical(drones[0].0, drones[0].1.startTime.value, drones[0].1.lats.value, drones[0].1.lons.value,
                                      drones[0].1.turnbool.value, drones[0].1.alts.value, uav, turnIndices, turnSpeeds).Some?)
            && (r.Some? ==> Last4(r.value.0) == ".scn" && r.value.1[0].cmd == SetTurns(drones[0].0, turnIndices))
  {
    if drones != [] && Complete(drones[0].1) {
      var (id, d) := drones[0];
      ScnPathProperties(path);
      ScenarioTacticalShape(id, d.startTime.value, d.lats.value, d.lons.value, d.turnbool.value, d.alts.value, uav, turnIndices, turnSpeeds);
    }
  }
}
