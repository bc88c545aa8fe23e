/**
 * The `REROUTE acid` command of the tactical rerouting plugin: a new route
 * from the aircraft's position to its last waypoint along the shortest path
 * of the resolution-layer graph, flown at the top of layer 'reso_0'.
 */
module Reroute {
  import opened Wrappers
  import opened Traffic
  import opened Stack

  type Node = int

  /** A graph node's position as the node table stores it: (x, y). */
  type NodeXY = (real, real)

  /** The speed used for an aircraft type missing from the performance table, in m/s. */
  const DefaultVmax: real := 12.8611

  /** The name of the layer whose upper altitude the new route is flown at. */
  const ResoLayer: string := "reso_0"

  /** `np.where(layernames == name)[0][0]`: the first layer of that name, if any. */
  function FirstLayerNamed(layers: seq<Layer>, name: string): (r: Option<nat>)
    ensures r.Some? ==> r.value < |layers| && layers[r.value].name == name
    ensures r.Some? ==> forall k :: 0 <= k < r.value ==> layers[k].name != name
    ensures r.None? ==> forall k :: 0 <= k < |layers| ==> layers[k].name != name
  {
    if layers == [] then None
    else if layers[0].name == name then Some(0)
    else match FirstLayerNamed(layers[1..], name)
      case None => None
      case Some(k) => Some(k + 1)
  }

  /** What the command works out before it stacks anything. */
  datatype Plan = Plan(alt: real, gs: real, pts: seq<NodeXY>)

  /** The (lat, lon) the route ends at: its waypoint with the greatest name. */
  function Destination(route: Route): (real, real)
    requires route.Valid() && route.wpname != []
  {
    var last := ArgMax(route.wpname);
    (route.wplat[last], route.wplon[last])
  }

  /** The positions of the path's nodes, or `None` when one is not in the node table. */
  function Positions(nodes: map<Node, NodeXY>, path: seq<Node>): (r: Option<seq<NodeXY>>)
    ensures r.Some? <==> forall k :: 0 <= k < |path| ==> path[k] in nodes
    ensures r.Some? ==> |r.value| == |path| && forall k :: 0 <= k < |path| ==> r.value[k] == nodes[path[k]]
  {
    if path == [] then Some([])
    else match Positions(nodes, path[..|path| - 1])
      case None => None
      case Some(ps) =>
        if path[|path| - 1] in nodes then Some(ps + [nodes[path[|path| - 1]]]) else None
  }

  /**
   * The values `reroute` computes: the path from the aircraft's position to
   * its destination, the altitude (the upper altitude of 'reso_0' in feet)
   * and the speed (the type's maximum speed in knots, or 12.8611 m/s in
   * knots for an unknown type). An empty route, a missing path or node, or
   * no 'reso_0' layer raises.
   */
  function MakePlan(ac: Aircraft, acType: string, route: Route, layers: seq<Layer>, nodes: map<Node, NodeXY>,
                    vmax: map<string, real>, shortestPath: ((real, real), (real, real)) -> Option<seq<Node>>): Option<Plan>
    requires route.Valid()
  {
    if route.wpname == [] then None
    else match shortestPath((ac.lat, ac.lon), Destination(route))
      case None => None
      case Some(path) =>
        match Positions(nodes, path)
        case None => None
        case Some(pts) =>
          match FirstLayerNamed(layers, ResoLayer)
          case None => None
          case Some(k) =>
            var gs := if acType in vmax then vmax[acType] / Kts else DefaultVmax / Kts;
            Some(Plan(layers[k].upperAlt / Ft, gs, pts))
  }

  /**
   * A plan exists exactly when the route has a waypoint, the path exists,
   * every path node has a position and a 'reso_0' layer exists; it then
   * holds one point per path node in path order, the altitude of the first
   * 'reso_0' layer, and the fallback speed exactly for an unknown type.
   */
  lemma MakePlanCases(ac: Aircraft, acType: string, route: Route, layers: seq<Layer>, nodes: map<Node, NodeXY>,
                      vmax: map<string, real>, shortestPath: ((real, real), (real, real)) -> Option<seq<Node>>)
    requires route.Valid()
    ensures var p := MakePlan(ac, acType, route, layers, nodes, vmax, shortestPath);
            && (p.Some? <==>
                  && route.wpname != []
                  && shortestPath((ac.lat, ac.lon), Destination(route)).Some?
                  && (forall k :: 0 <= k < |shortestPath((ac.lat, ac.lon), Destination(route)).value| ==>
                        shortestPath((ac.lat, ac.lon), Destination(route)).value[k] in nodes)
                  && exists k :: 0 <= k < |layers| && layers[k].name == ResoLayer)
            && (p.Some? ==>
                  var path := shortestPath((ac.lat, ac.lon), Destination(route)).value;
                  && |p.value.pts| == |path|
                  && (forall k :: 0 <= k < |path| ==> p.value.pts[k] == nodes[path[k]])
                  && p.value.alt == layers[FirstLayerNamed(layers, ResoLayer).value].upperAlt / Ft
                  && (acType in vmax ==> p.value.gs == vmax[acType] / Kts)
                  && (acType !in vmax ==> p.value.gs == 12.8611 / Kts))
  {
  }

  /**
   * The commands `reroute` stacks: delete the route, stop, climb, one
   * conditional ADDWPT per path node (its y, then its x), and the
   * conditional speed command.
   */
  function RerouteCmds(id: string, p: Plan): (cs: seq<Cmd>)
  {
    Prefix(id, p) + AddWpts(id, p, |p.pts|) + [SpdAtAlt(id, p.alt, p.gs)]
  }

  function Prefix(id: string, p: Plan): seq<Cmd>
  {
    [DelRte(id), Spd(id, 0.0), Alt(id, p.alt)]
  }

  /** The ADDWPT commands of the first n path nodes. */
  function AddWpts(id: string, p: Plan, n: nat): (cs: seq<Cmd>)
    requires n <= |p.pts|
    ensures |cs| == n
  {
    if n == 0 then [] else AddWpts(id, p, n - 1) + [AddWptAtAlt(id, p.alt, p.pts[n - 1].1, p.pts[n - 1].0, p.alt, p.gs)]
  }

  /** The k-th ADDWPT command is the k-th path node's, at the plan's altitude and speed. */
  lemma {:induction false} AddWptsAt(id: string, p: Plan, n: nat)
    requires n <= |p.pts|
    ensures forall k :: 0 <= k < n ==> AddWpts(id, p, n)[k] == AddWptAtAlt(id, p.alt, p.pts[k].1, p.pts[k].0, p.alt, p.gs)
  {
    if n > 0 {
      AddWptsAt(id, p, n - 1);
    }
  }

  /**
   * n + 4 commands for n path nodes: the three prefix commands, then the
   * path nodes in order, all at one altitude and one speed, then the speed
   * command; every command names the aircraft.
   */
  lemma RerouteCmdsShape(id: string, p: Plan)
    ensures var cs := RerouteCmds(id, p);
            && |cs| == |p.pts| + 4
            && cs[0] == DelRte(id) && cs[1] == Spd(id, 0.0) && cs[2] == Alt(id, p.alt)
            && (forall k :: 0 <= k < |p.pts| ==>
                  cs[3 + k].AddWptAtAlt? && cs[3 + k].acid == id
                  && cs[3 + k].alt == cs[3 + k].wpalt == p.alt && cs[3 + k].spd == p.gs
                  && (cs[3 + k].lon, cs[3 + k].lat) == p.pts[k])
            && cs[|cs| - 1] == SpdAtAlt(id, p.alt, p.gs)
  {
    AddWptsAt(id, p, |p.pts|);
  }

  /** The plugin entity; it keeps no state. */
  class TacticalReroute {
    constructor ()
    {
    }

    /**
     * `reroute(acid)`: stacks the rerouting commands and answers
     * (True, "<id> has a new route"); when a lookup raises nothing is stacked.
     */
    method Reroute(ac: Aircraft, acType: string, route: Route, layers: seq<Layer>, nodes: map<Node, NodeXY>,
                   vmax: map<string, real>, shortestPath: ((real, real), (real, real)) -> Option<seq<Node>>,
                   log: CommandStack) returns (r: Option<(bool, string)>)
      requires route.Valid()
      modifies log
      ensures var p := MakePlan(ac, acType, route, layers, nodes, vmax, shortestPath);
              && (p.None? ==> r.None? && log.cmds == old(log.cmds))
              && (p.Some? ==> r == Some((true, ac.id + " has a new route")) && log.cmds == old(log.cmds) + RerouteCmds(ac.id, p.value))
    {
      var p := MakePlan(ac, acType, route, layers, nodes, vmax, shortestPath);
      if p.None? {
        return None;
      }
      StackPlan(ac.id, p.value, log);
      r := Some((true, ac.id + " has a new route"));
    }

    /** The stacking half of `reroute`: pushes the plan's commands in order. */
    method StackPlan(id: string, plan: Plan, log: CommandStack)
      modifies log
      ensures log.cmds == old(log.cmds) + RerouteCmds(id, plan)
    {
      ghost var head := old(log.cmds) + Prefix(id, plan);
      log.PushAll(Prefix(id, plan));
      var k := 0;
      while k < |plan.pts|
        invariant 0 <= k <= |plan.pts|
        invariant log.cmds == head + AddWpts(id, plan, k)
      {
        var c := AddWptAtAlt(id, plan.alt, plan.pts[k].1, plan.pts[k].0, plan.alt, plan.gs);
        log.Push(c);
        assert AddWpts(id, plan, k + 1) == AddWpts(id, plan, k) + [c];
        k := k + 1;
      }
      log.Push(SpdAtAlt(id, plan.alt, plan.gs));
    }
  }
}
