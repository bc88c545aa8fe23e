/**
 * The strategic router's evaluation of one flight plan on one layer
 * (`RoutingAlgorithm.fp_evaluations`): walk the shortest route street by
 * street, timing each street and checking that both its nodes and the
 * street itself are free for that slot against the layer's occupancy; on the
 * first refusal make that street expensive and ask for another route, and
 * when the whole route fits append every slot to the occupancy.
 */
module FpEvaluation {
  import opened Wrappers
  import opened Occupancy
  import opened TimeFormat
  import opened Routing

  type Edge = (Node, Node)

  /** What the router keeps of a street: its length, its occupation field and its interior angles to the next streets. */
  datatype EdgeInfo = EdgeInfo(length: real, occ: Occupation<Option<Slot>>, turnAngles: map<Edge, real>)

  /**
   * A layer of the street graph as the router reads it back from its data
   * frames: the nodes' occupation fields, the streets, and their `pesoL`
   * routing weights.
   */
  datatype Graph = Graph(nodeOcc: map<Node, Occupation<Slot>>, edges: map<Edge, EdgeInfo>, pesoL: map<Edge, real>)

  const MaxPesoL: real := 99999.9
  const NodeOccupationTimePass: int := 0
  const NodeOccupationTimeVert: int := 4
  const AscendingTakeoff: int := 5

  /**
   * `nodeIsFree(node, slot, nodes)` as the evaluation sees it: a node the
   * data frame does not hold makes the test raise, which the `logger.catch`
   * decorator turns into `None`, which counts as occupied.
   */
  predicate NodeFree(g: Graph, n: Node, slot: Slot)
  {
    n in g.nodeOcc && NodeIsFree(g.nodeOcc[n], slot)
  }

  /** The loop state of the walk: the street's first node, the look-ahead index, the time reached, the streets accepted and the slots recorded. */
  datatype WalkState = WalkState(nodeA: Node, indexAux: nat, last: int, cont: nat,
                                 nodesTime: map<Node, Slot>, edgesSlot: map<Edge, Slot>)

  /** How the walk over the route ends. */
  datatype WalkResult =
    | Geofence                    // `travel_time` gave `None`
    | Blocked(edge: Edge)         // a node or the street refused the slot
    | MissingEdge                 // the street is not in the frame: `list.index` raises
    | Done(w: WalkState)

  /** The slot reserved for the street starting at time `last` and taking `time` seconds. */
  function LegSlot(last: int, time: int, cont: nat, layer: int): (slot: Slot)
    ensures slot.0 == last
    ensures slot.1 == last + time + (if cont == 0 && layer == 0 then AscendingTakeoff else 0)
  {
    var tB := last + time + NodeOccupationTimePass;
    if cont == 0 && layer == 0 then (last, tB + NodeOccupationTimePass + AscendingTakeoff) else (last, tB)
  }

  /** The turn angle from the street (a, b) into (b, c), when the street's table has it. */
  function AngleTo(e: EdgeInfo, b: Node, c: Node): Option<real>
  {
    if (b, c) in e.turnAngles then Some(e.turnAngles[(b, c)]) else None
  }

  /**
   * The `for node_id in nodes_route` loop from position i on. A repeat of
   * the current node is skipped without moving the look-ahead index.
   */
  function Walk(g: Graph, route: seq<Node>, departure: string, speed: real, cutoff: int, layer: int, i: nat, w: WalkState): WalkResult
    requires i <= |route|
    decreases |route| - i
  {
    if i == |route| then Done(w)
    else
      var a, b := w.nodeA, route[i];
      if a == b then Walk(g, route, departure, speed, cutoff, layer, i + 1, w)
      else if (a, b) !in g.edges then MissingEdge
      else
        var c := if w.indexAux < |route| - 2 then route[w.indexAux + 2] else b;
        var e := g.edges[(a, b)];
        match TravelTime(a, b, c, departure, e.length, speed, AngleTo(e, b, c), cutoff)
        case None => Geofence
        case Some(time) =>
          var slot := LegSlot(w.last, time, w.cont, layer);
          if NodeFree(g, a, slot) && NodeFree(g, b, slot) && EdgeIsFree(a, b, e.occ, slot) then
            var w' := WalkState(b, w.indexAux + 1, slot.1, w.cont + 1,
                                w.nodesTime[a := slot][b := slot], w.edgesSlot[(a, b) := slot]);
            Walk(g, route, departure, speed, cutoff, layer, i + 1, w')
          else Blocked((a, b))
  }

  /** Every slot recorded so far was free, against the occupancy before the evaluation, where it was recorded. */
  ghost predicate RecordedFree(g: Graph, route: seq<Node>, w: WalkState)
  {
    && w.nodeA in route
    && (forall n :: n in w.nodesTime ==> n in route && NodeFree(g, n, w.nodesTime[n]))
    && (forall e :: e in w.edgesSlot ==>
          e.0 in route && e.1 in route && e in g.edges && EdgeIsFree(e.0, e.1, g.edges[e].occ, w.edgesSlot[e]))
  }

  /** Recording a slot that is free on both nodes and on the street between them keeps every recorded slot free. */
  lemma RecordStep(g: Graph, route: seq<Node>, w: WalkState, b: Node, slot: Slot)
    requires RecordedFree(g, route, w) && b in route
    requires NodeFree(g, w.nodeA, slot) && NodeFree(g, b, slot)
    requires (w.nodeA, b) in g.edges && EdgeIsFree(w.nodeA, b, g.edges[(w.nodeA, b)].occ, slot)
    ensures RecordedFree(g, route, WalkState(b, w.indexAux + 1, slot.1, w.cont + 1,
                                             w.nodesTime[w.nodeA := slot][b := slot], w.edgesSlot[(w.nodeA, b) := slot]))
  {
  }

  /**
   * A walk that reaches the end of the route only recorded free slots on
   * route nodes and on streets of the layer; a walk that is refused is
   * refused on a street of the layer between route nodes.
   */
  lemma {:induction false} WalkRecordsFree(g: Graph, route: seq<Node>, departure: string, speed: real, cutoff: int,
                                           layer: int, i: nat, w: WalkState)
    requires i <= |route|
    requires RecordedFree(g, route, w)
    ensures var r := Walk(g, route, departure, speed, cutoff, layer, i, w);
            && (r.Done? ==> RecordedFree(g, route, r.w))
            && (r.Blocked? ==> r.edge in g.edges && r.edge.0 in route && r.edge.1 in route)
    decreases |route| - i
  {
    if i < |route| {
      var a, b := w.nodeA, route[i];
      if a == b {
        WalkRecordsFree(g, route, departure, speed, cutoff, layer, i + 1, w);
      } else if (a, b) in g.edges {
        var c := if w.indexAux < |route| - 2 then route[w.indexAux + 2] else b;
        var e := g.edges[(a, b)];
        var t := TravelTime(a, b, c, departure, e.length, speed, AngleTo(e, b, c), cutoff);
        if t.Some? {
          var slot := LegSlot(w.last, t.value, w.cont, layer);
          if NodeFree(g, a, slot) && NodeFree(g, b, slot) && EdgeIsFree(a, b, e.occ, slot) {
            var w' := WalkState(b, w.indexAux + 1, slot.1, w.cont + 1,
                                w.nodesTime[a := slot][b := slot], w.edgesSlot[(a, b) := slot]);
            RecordStep(g, route, w, b, slot);
            WalkRecordsFree(g, route, departure, speed, cutoff, layer, i + 1, w');
          }
        }
      }
    }
  }

  /** What `fp_evaluations` returns as its first element. */
  datatype Verdict =
    | Delay                   // -1: the same route as the previous attempt, or the take-off slot is taken
    | Retry                   // 0: a street was refused and made expensive
    | NoRoute                 // None: not pending, no route, or a geofenced street
    | Routed(route: seq<Node>)
    | Raised                  // an exception, turned into `None` by `logger.catch`

  /** The take-off slot checked at the route's first node on the bottom layer: 5 s take-off plus two 4 s vertical segments. */
  function PreflightSlot(departure: int): (slot: Slot)
    ensures slot == (departure, departure + 13)
  {
    (departure, departure + AscendingTakeoff + NodeOccupationTimeVert * 2)
  }

  /**
   * Where the horizontal walk starts in time: the departure on the bottom
   * layer; above it the end of the last slot on the first node, when that
   * node lists any (an empty list raises).
   */
  function StartTime(g: Graph, n: Node, departure: int, layer: int): Option<int>
  {
    if layer <= 0 || n !in g.nodeOcc then Some(departure)
    else match g.nodeOcc[n]
      case Unset => Some(departure)
      case Listed(slots) => if slots == [] then None else Some(slots[|slots| - 1].1)
  }

  /** The occupancy after a successful walk: each node and street gets its recorded slot appended. */
  function Commit(g: Graph, w: WalkState): Graph
  {
    Graph(map n | n in g.nodeOcc :: if n in w.nodesTime then Reserve(g.nodeOcc[n], w.nodesTime[n]) else g.nodeOcc[n],
          map e | e in g.edges ::
            if e in w.edgesSlot then g.edges[e].(occ := Reserve(g.edges[e].occ, Some(w.edgesSlot[e]))) else g.edges[e],
          g.pesoL)
  }

  /**
   * `fp_evaluations(fp, G, layer_index, solution1_shortest_path)`, with the
   * route the shortest-path search returned and the vehicle's cruising
   * speed as inputs: the verdict and the layer afterwards.
   */
  function Evaluate(g: Graph, fp: FlightPlan, route: Option<seq<Node>>, previous: Option<seq<Node>>,
                    speed: real, cutoff: int, layer: int): (Verdict, Graph)
  {
    if fp.status != Pending || route.None? then (NoRoute, g)
    else if route == previous then (Delay, g)
    else match GetSec(fp.departure)
      case None => (Raised, g)
      case Some(dep) =>
        var nodes := route.value;
        if |nodes| == 0 then (Raised, g)
        else if layer == 0 && !NodeFree(g, nodes[0], PreflightSlot(dep)) then (Delay, g)
        else match StartTime(g, nodes[0], dep, layer)
          case None => (Raised, g)
          case Some(start) =>
            match Walk(g, nodes, fp.departure, speed, cutoff, layer, 0, WalkState(nodes[0], 0, start, 0, map[], map[]))
            case Geofence => (NoRoute, g)
            case MissingEdge => (Raised, g)
            case Blocked(e) => (Retry, g.(pesoL := g.pesoL[e := MaxPesoL]))
            case Done(w) => (Routed(nodes), Commit(g, w))
  }

  /** The field `after` is `before` with at most one slot appended. */
  ghost predicate AppendedAtMostOnce<T(!new)>(before: Occupation<T>, after: Occupation<T>)
  {
    after == before || exists v :: after == Reserve(before, v)
  }

  /**
   * Asking again with the route of the previous attempt gives -1 and leaves
   * the layer as it was.
   */
  lemma SameRouteDelays(g: Graph, fp: FlightPlan, route: seq<Node>, speed: real, cutoff: int, layer: int)
    requires fp.status == Pending
    ensures Evaluate(g, fp, Some(route), Some(route), speed, cutoff, layer) == (Delay, g)
  {
  }

  /**
   * A refused street gives 0 and changes only that street's weight, to the
   * maximum; the street joins two nodes of the route.
   */
  lemma RetryMarksOneStreet(g: Graph, fp: FlightPlan, route: Option<seq<Node>>, previous: Option<seq<Node>>,
                            speed: real, cutoff: int, layer: int)
    ensures var (v, g') := Evaluate(g, fp, route, previous, speed, cutoff, layer);
            v.Retry? ==>
              && route.Some?
              && g'.nodeOcc == g.nodeOcc && g'.edges == g.edges
              && exists e :: e in g.edges && e.0 in route.value && e.1 in route.value && g'.pesoL == g.pesoL[e := MaxPesoL]
  {
    var (v, g') := Evaluate(g, fp, route, previous, speed, cutoff, layer);
    if v.Retry? {
      var nodes := route.value;
      var dep := GetSec(fp.departure).value;
      var start := StartTime(g, nodes[0], dep, layer).value;
      var w0 := WalkState(nodes[0], 0, start, 0, map[], map[]);
      WalkRecordsFree(g, nodes, fp.departure, speed, cutoff, layer, 0, w0);
      var r := Walk(g, nodes, fp.departure, speed, cutoff, layer, 0, w0);
      assert r.Blocked?;
      assert g'.pesoL == g.pesoL[r.edge := MaxPesoL];
    }
  }

  /**
   * An evaluation never removes a reservation: every node and street keeps
   * its field or gets one slot appended, and only a route that fits
   * appends; the set of nodes and streets never changes.
   */
  lemma OccupancyOnlyGrows(g: Graph, fp: FlightPlan, route: Option<seq<Node>>, previous: Option<seq<Node>>,
                           speed: real, cutoff: int, layer: int)
    ensures var (v, g') := Evaluate(g, fp, route, previous, speed, cutoff, layer);
            && g'.nodeOcc.Keys == g.nodeOcc.Keys && g'.edges.Keys == g.edges.Keys
            && (forall n :: n in g.nodeOcc ==> AppendedAtMostOnce(g.nodeOcc[n], g'.nodeOcc[n]))
            && (forall e :: e in g.edges ==> AppendedAtMostOnce(g.edges[e].occ, g'.edges[e].occ))
            && (!v.Routed? ==> g'.nodeOcc == g.nodeOcc && g'.edges == g.edges)
  {
    var (v, g') := Evaluate(g, fp, route, previous, speed, cutoff, layer);
    if v.Routed? {
      var nodes := route.value;
      var dep := GetSec(fp.departure).value;
      var start := StartTime(g, nodes[0], dep, layer).value;
      var r := Walk(g, nodes, fp.departure, speed, cutoff, layer, 0, WalkState(nodes[0], 0, start, 0, map[], map[]));
      assert r.Done? && g' == Commit(g, r.w);
      CommitAppends(g, r.w);
    }
  }

  /** Committing a walk appends at most one slot to each field and keeps the nodes and streets. */
  lemma CommitAppends(g: Graph, w: WalkState)
    ensures var g' := Commit(g, w);
            && g'.nodeOcc.Keys == g.nodeOcc.Keys && g'.edges.Keys == g.edges.Keys
            && (forall n :: n in g.nodeOcc ==> AppendedAtMostOnce(g.nodeOcc[n], g'.nodeOcc[n]))
            && (forall e :: e in g.edges ==> AppendedAtMostOnce(g.edges[e].occ, g'.edges[e].occ))
  {
    var g' := Commit(g, w);
    forall n | n in g.nodeOcc
      ensures AppendedAtMostOnce(g.nodeOcc[n], g'.nodeOcc[n])
    {
      if n in w.nodesTime {
        assert g'.nodeOcc[n] == Reserve(g.nodeOcc[n], w.nodesTime[n]);
      }
    }
    forall e | e in g.edges
      ensures AppendedAtMostOnce(g.edges[e].occ, g'.edges[e].occ)
    {
      if e in w.edgesSlot {
        assert g'.edges[e].occ == Reserve(g.edges[e].occ, Some(w.edgesSlot[e]));
      }
    }
  }

  /**
   * When the route fits, every slot it appends was free, against the
   * occupancy before the evaluation, on a node of the route or a street
   * between route nodes; nothing off the route is touched, and the weights
   * stay as they were.
   */
  lemma RoutedSlotsWereFree(g: Graph, fp: FlightPlan, route: Option<seq<Node>>, previous: Option<seq<Node>>,
                            speed: real, cutoff: int, layer: int)
    ensures var (v, g') := Evaluate(g, fp, route, previous, speed, cutoff, layer);
            v.Routed? ==>
              && route == Some(v.route) && g'.pesoL == g.pesoL
              && g'.nodeOcc.Keys == g.nodeOcc.Keys && g'.edges.Keys == g.edges.Keys
              && (forall n :: n in g.nodeOcc && g'.nodeOcc[n] != g.nodeOcc[n] ==>
                    n in v.route && exists s :: NodeFree(g, n, s) && g'.nodeOcc[n] == Reserve(g.nodeOcc[n], s))
              && (forall e :: e in g.edges && g'.edges[e] != g.edges[e] ==>
                    e.0 in v.route && e.1 in v.route &&
                    exists s :: EdgeIsFree(e.0, e.1, g.edges[e].occ, s) && g'.edges[e].occ == Reserve(g.edges[e].occ, Some(s)))
  {
    var (v, g') := Evaluate(g, fp, route, previous, speed, cutoff, layer);
    if v.Routed? {
      var nodes := route.value;
      var dep := GetSec(fp.departure).value;
      var start := StartTime(g, nodes[0], dep, layer).value;
      var w0 := WalkState(nodes[0], 0, start, 0, map[], map[]);
      WalkRecordsFree(g, nodes, fp.departure, speed, cutoff, layer, 0, w0);
      var r := Walk(g, nodes, fp.departure, speed, cutoff, layer, 0, w0);
      assert r.Done? && g' == Commit(g, r.w);
      forall n | n in g.nodeOcc && g'.nodeOcc[n] != g.nodeOcc[n]
        ensures n in v.route && exists s :: NodeFree(g, n, s) && g'.nodeOcc[n] == Reserve(g.nodeOcc[n], s)
      {
        var s := r.w.nodesTime[n];
        assert NodeFree(g, n, s);
      }
      forall e | e in g.edges && g'.edges[e] != g.edges[e]
        ensures e.0 in v.route && e.1 in v.route &&
                exists s :: EdgeIsFree(e.0, e.1, g.edges[e].occ, s) && g'.edges[e].occ == Reserve(g.edges[e].occ, Some(s))
      {
        var s := r.w.edgesSlot[e];
        assert EdgeIsFree(e.0, e.1, g.edges[e].occ, s);
      }
    }
  }

  /** The router object: the streets it has made expensive so far, and its turn cutoff. */
  class Planner {
    var edgesPesoL: seq<Edge>
    const angleCutoff: int

    constructor (angleCutoff: int)
      ensures edgesPesoL == [] && this.angleCutoff == angleCutoff
    {
      edgesPesoL := [];
      this.angleCutoff := angleCutoff;
    }

    /**
     * The `for` loop of `fp_evaluations` over the route, from the first
     * node at time `start`.
     */
    method WalkRoute(g: Graph, route: seq<Node>, departure: string, speed: real, layer: int, start: int)
      returns (r: WalkResult)
      requires |route| > 0
      ensures r == Walk(g, route, departure, speed, angleCutoff, layer, 0, WalkState(route[0], 0, start, 0, map[], map[]))
    {
      var nodeA := route[0];
      var indexAux: nat := 0;
      var lastTimeCheckpoint := start;
      var contNodesEval: nat := 0;
      var nodesTime: map<Node, Slot> := map[];
      var edgesSlotTime: map<Edge, Slot> := map[];
      ghost var total := Walk(g, route, departure, speed, angleCutoff, layer, 0, WalkState(route[0], 0, start, 0, map[], map[]));
      var i := 0;
      while i < |route|
        invariant 0 <= i <= |route|
        invariant Walk(g, route, departure, speed, angleCutoff, layer, i,
                       WalkState(nodeA, indexAux, lastTimeCheckpoint, contNodesEval, nodesTime, edgesSlotTime)) == total
      {
        var nodeB := route[i];
        var nodeC := nodeB;
        if indexAux < |route| - 2 {
          nodeC := route[indexAux + 2];
        }
        if nodeA == nodeB {
          i := i + 1;
          continue;
        }
        if (nodeA, nodeB) !in g.edges {
          return MissingEdge;
        }
        var e := g.edges[(nodeA, nodeB)];
        var time := TravelTime(nodeA, nodeB, nodeC, departure, e.length, speed, AngleTo(e, nodeB, nodeC), angleCutoff);
        if time.None? {
          return Geofence;
        }
        var slot := LegSlot(lastTimeCheckpoint, time.value, contNodesEval, layer);
        if NodeFree(g, nodeA, slot) && NodeFree(g, nodeB, slot) {
          if EdgeIsFree(nodeA, nodeB, e.occ, slot) {
            contNodesEval := contNodesEval + 1;
            nodesTime := nodesTime[nodeA := slot];
            nodesTime := nodesTime[nodeB := slot];
            lastTimeCheckpoint := slot.1;
            edgesSlotTime := edgesSlotTime[(nodeA, nodeB) := slot];
          } else {
            return Blocked((nodeA, nodeB));
          }
        } else {
          return Blocked((nodeA, nodeB));
        }
        nodeA := nodeB;
        indexAux := indexAux + 1;
        i := i + 1;
      }
      return Done(WalkState(nodeA, indexAux, lastTimeCheckpoint, contNodesEval, nodesTime, edgesSlotTime));
    }

    /**
     * `fp_evaluations`: the verdict and the layer as `Evaluate` gives them;
     * a refused street is also appended to `edges_pesoL`, and nothing else
     * is.
     */
    method FpEvaluations(g: Graph, fp: FlightPlan, route: Option<seq<Node>>, previous: Option<seq<Node>>,
                         speed: real, layer: int)
      returns (v: Verdict, g': Graph)
      modifies this
      ensures (v, g') == Evaluate(g, fp, route, previous, speed, angleCutoff, layer)
      ensures !v.Retry? ==> edgesPesoL == old(edgesPesoL)
      ensures v.Retry? ==> exists e :: edgesPesoL == old(edgesPesoL) + [e] && g' == g.(pesoL := g.pesoL[e := MaxPesoL])
    {
      if fp.status != Pending || route.None? {
        return NoRoute, g;
      }
      if route == previous {
        return Delay, g;
      }
      var departure := GetSec(fp.departure);
      if departure.None? {
        return Raised, g;
      }
      var nodes := route.value;
      if |nodes| == 0 {
        return Raised, g;
      }
      if layer == 0 && !NodeFree(g, nodes[0], PreflightSlot(departure.value)) {
        return Delay, g;
      }
      var start := StartTime(g, nodes[0], departure.value, layer);
      if start.None? {
        return Raised, g;
      }
      var r := WalkRoute(g, nodes, fp.departure, speed, layer, start.value);
      match r
      case Geofence =>
        v, g' := NoRoute, g;
      case MissingEdge =>
        v, g' := Raised, g;
      case Blocked(e) =>
        edgesPesoL := edgesPesoL + [e];
        v, g' := Retry, g.(pesoL := g.pesoL[e := MaxPesoL]);
      case Done(w) =>
        v, g' := Routed(nodes), Commit(g, w);
    }
  }
}
