/**
 * The earlier strategic-deconfliction script (`GaphOcupation_Script.py`):
 * node fields list bare arrival times, street fields list slots, and a slot
 * is refused only when it repeats one exactly. `fp_evaluations` walks the
 * shortest route, checking each node at its arrival time and each street for
 * its slot; `get_paths` evaluates the plans in order, retrying every plan
 * after the first until it is not refused. The script has no exception
 * handling: whatever raises ends it.
 */
module Prototype {
  import opened Wrappers
  import opened Occupancy
  import opened TimeFormat
  import opened Routing

  type Edge = (Node, Node)

  /** A street of the script's edge frame: its length and its occupation field. */
  datatype Street = Street(length: real, occ: Occupation<Slot>)

  /** The node and edge frames: arrival times per node, streets, and `pesoL` weights. */
  datatype Frames = Frames(nodeOcc: map<Node, Occupation<int>>, streets: map<Edge, Street>, pesoL: map<Edge, real>)

  const MaxPesoL: real := 99999.9

  /**
   * `travel_time(A, B, speed, t, edges)`: 0 between a node and itself,
   * otherwise the street's crossing time rounded up plus t; `None` where it
   * raises (an unknown street, or speed 0).
   */
  function TravelTimeAsWritten(f: Frames, a: Node, b: Node, speed: real, t: int): (r: Option<int>)
    ensures a == b ==> r == Some(0)
    ensures a != b ==> (r.Some? <==> (a, b) in f.streets && speed != 0.0)
    ensures a != b && r.Some? ==>
              var x := f.streets[(a, b)].length / speed;
              (r.value - t - 1) as real < x <= (r.value - t) as real
  {
    if a == b then Some(0)
    else if (a, b) !in f.streets || speed == 0.0 then None
    else Some(Ceil(f.streets[(a, b)].length / speed) + t)
  }

  // The arrival times along a route.

  /** The sum of the legs' crossing times. */
  function Sum(legs: seq<int>): int
  {
    if legs == [] then 0 else Sum(legs[..|legs| - 1]) + legs[|legs| - 1]
  }

  /**
   * The node times of the script's loop on a route of distinct consecutive
   * nodes whose legs take `legs` seconds: the first node is checked at
   * `travel_time(A, A, …) == 0`, and each later node at its leg plus
   * `departure_time + timestamp_nodeA`, where `timestamp_nodeA` already
   * holds the previous absolute time.
   */
  function ArrivalsAsWritten(departure: int, legs: seq<int>): (times: seq<int>)
    ensures |times| == |legs| + 1
  {
    if legs == [] then [0]
    else
      var prev := ArrivalsAsWritten(departure, legs[..|legs| - 1]);
      prev + [legs[|legs| - 1] + departure + prev[|prev| - 1]]
  }

  /** The node times as intended: the departure, then each leg added to the previous time. */
  function Arrivals(departure: int, legs: seq<int>): (times: seq<int>)
    ensures |times| == |legs| + 1
  {
    if legs == [] then [departure]
    else
      var prev := Arrivals(departure, legs[..|legs| - 1]);
      prev + [NextTime(prev[|prev| - 1], legs[|legs| - 1])]
  }

  /** The time at the end of a leg that starts at t. */
  function NextTime(t: int, leg: int): int
  {
    t + leg
  }

  /** As written, node k ≥ 1 is checked at k times the departure plus the legs so far. */
  lemma {:induction false} ArrivalsAsWrittenValue(departure: int, legs: seq<int>)
    ensures ArrivalsAsWritten(departure, legs)[0] == 0
    ensures forall k :: 1 <= k <= |legs| ==> ArrivalsAsWritten(departure, legs)[k] == k * departure + Sum(legs[..k])
  {
    if legs != [] {
      var n := |legs|;
      var init := legs[..n - 1];
      ArrivalsAsWrittenValue(departure, init);
      var prev := ArrivalsAsWritten(departure, init);
      var times := ArrivalsAsWritten(departure, legs);
      assert times == prev + [legs[n - 1] + departure + prev[n - 1]];
      forall k | 1 <= k <= n
        ensures times[k] == k * departure + Sum(legs[..k])
      {
        if k < n {
          assert times[k] == prev[k];
          assert init[..k] == legs[..k];
        } else {
          assert legs[..n][..n - 1] == init;
          assert Sum(legs[..n]) == Sum(init) + legs[n - 1];
          if n > 1 {
            assert init[..n - 1] == init;
            assert (n - 1) * departure + departure == n * departure;
          }
        }
      }
    }
  }

  /** As intended, node k is reached at the departure plus the legs so far, never before the departure when legs are not negative. */
  lemma {:induction false} ArrivalsValue(departure: int, legs: seq<int>)
    ensures forall k :: 0 <= k <= |legs| ==> Arrivals(departure, legs)[k] == departure + Sum(legs[..k])
    ensures (forall k :: 0 <= k < |legs| ==> legs[k] >= 0) ==>
              forall k :: 0 <= k <= |legs| ==> Arrivals(departure, legs)[k] >= departure
  {
    if legs != [] {
      var n := |legs|;
      var init := legs[..n - 1];
      ArrivalsValue(departure, init);
      assert forall k :: 0 <= k <= n - 1 ==> Arrivals(departure, legs)[k] == Arrivals(departure, init)[k];
      assert forall k :: 0 <= k <= n - 1 ==> init[..k] == legs[..k];
      assert legs[..n] == legs && legs[..n][..n - 1] == init;
      SumNonNegative(legs);
    }
  }

  lemma {:induction false} SumNonNegative(legs: seq<int>)
    ensures (forall k :: 0 <= k < |legs| ==> legs[k] >= 0) ==> forall k :: 0 <= k <= |legs| ==> Sum(legs[..k]) >= 0
  {
    if legs != [] && forall k :: 0 <= k < |legs| ==> legs[k] >= 0 {
      var n := |legs|;
      SumNonNegative(legs[..n - 1]);
      assert forall k :: 0 <= k <= n - 1 ==> legs[..n - 1][..k] == legs[..k];
      assert legs[..n] == legs && legs[..n][..n - 1] == legs[..n - 1];
    }
  }

  /**
   * Three nodes, two 10 m streets at 10 m/s, departure 100 s: the script
   * checks the nodes at 0, 101 and 202 s, where they are reached at 100,
   * 101 and 102 s.
   */
  lemma DepartureAddedEveryStep()
    ensures ArrivalsAsWritten(100, [1, 1]) == [0, 101, 202]
    ensures Arrivals(100, [1, 1]) == [100, 101, 102]
  {
    assert [1, 1][..1] == [1];
    assert [1][..0] == [];
  }

  // The walk and the evaluation.

  /** How the walk over the route ends. */
  datatype WalkResult =
    | Busy(edge: Edge)                                         // a node or the street is taken
    | Crash                                                    // a lookup or the division raises
    | Done(nodesTime: map<Node, int>, edgesSlot: map<Edge, Slot>)

  /**
   * The `for node_id in nodes_route` loop from position i on, at node `a`
   * reached at time `t`, with the arrival times of `Arrivals`: the node
   * `node_id` must be free at its arrival time and the street for the slot
   * from t to it; a node repeated in place records nothing.
   */
  function Walk(f: Frames, route: seq<Node>, speed: real, i: nat, a: Node, t: int,
                nodesTime: map<Node, int>, edgesSlot: map<Edge, Slot>): WalkResult
    requires i <= |route|
    decreases |route| - i
  {
    if i == |route| then Done(nodesTime, edgesSlot)
    else
      var b := route[i];
      if a != b && ((a, b) !in f.streets || speed == 0.0) then Crash
      else
        var time := if a == b then t else NextTime(t, Ceil(f.streets[(a, b)].length / speed));
        if b !in f.nodeOcc || f.nodeOcc[b] == Listed([]) then Crash
        else if !NodeIsFreeExact(f.nodeOcc[b], time) then Busy((a, b))
        else if a != b && !EdgeIsFreeExact(a, b, f.streets[(a, b)].occ, (t, time)) then Busy((a, b))
        else if a == b then Walk(f, route, speed, i + 1, b, time, nodesTime, edgesSlot)
        else Walk(f, route, speed, i + 1, b, time, nodesTime[b := time], edgesSlot[(a, b) := (t, time)])
  }

  /** What `fp_evaluations` returns as its code. */
  datatype Evaluation = Refused | Planned(route: seq<Node>) | Raised

  /** Every time and slot recorded so far was free, on a node or street of the route. */
  ghost predicate RecordedFree(f: Frames, route: seq<Node>, a: Node, nodesTime: map<Node, int>, edgesSlot: map<Edge, Slot>)
  {
    && a in route
    && (forall n :: n in nodesTime ==> n in route && n in f.nodeOcc && NodeIsFreeExact(f.nodeOcc[n], nodesTime[n]))
    && (forall e :: e in edgesSlot ==>
          e.0 in route && e.1 in route && e in f.streets && EdgeIsFreeExact(e.0, e.1, f.streets[e].occ, edgesSlot[e]))
  }

  /** A walk that ends recorded only free times and slots; a refusal names a street from a route node to a route node. */
  lemma {:induction false} WalkRecordsFree(f: Frames, route: seq<Node>, speed: real, i: nat, a: Node, t: int,
                                           nodesTime: map<Node, int>, edgesSlot: map<Edge, Slot>)
    requires i <= |route|
    requires RecordedFree(f, route, a, nodesTime, edgesSlot)
    ensures var r := Walk(f, route, speed, i, a, t, nodesTime, edgesSlot);
            && (r.Done? ==> RecordedFree(f, route, a, r.nodesTime, r.edgesSlot))
            && (r.Busy? ==> r.edge.0 in route && r.edge.1 in route)
    decreases |route| - i
  {
    if i < |route| {
      var b := route[i];
      if !(a != b && ((a, b) !in f.streets || speed == 0.0)) {
        var time := if a == b then t else NextTime(t, Ceil(f.streets[(a, b)].length / speed));
        if b in f.nodeOcc && f.nodeOcc[b] != Listed([]) && NodeIsFreeExact(f.nodeOcc[b], time) {
          if a == b {
            WalkRecordsFree(f, route, speed, i + 1, b, time, nodesTime, edgesSlot);
          } else if EdgeIsFreeExact(a, b, f.streets[(a, b)].occ, (t, time)) {
            assert RecordedFree(f, route, b, nodesTime[b := time], edgesSlot[(a, b) := (t, time)]);
            WalkRecordsFree(f, route, speed, i + 1, b, time, nodesTime[b := time], edgesSlot[(a, b) := (t, time)]);
            assert RecordedFree(f, route, a, nodesTime[b := time], edgesSlot[(a, b) := (t, time)]);
          }
        }
      }
    }
  }

  /** Appending the recorded times and slots to the frames. */
  function Commit(f: Frames, nodesTime: map<Node, int>, edgesSlot: map<Edge, Slot>): Frames
  {
    Frames(map n | n in f.nodeOcc :: if n in nodesTime then Reserve(f.nodeOcc[n], nodesTime[n]) else f.nodeOcc[n],
           map e | e in f.streets ::
             if e in edgesSlot then f.streets[e].(occ := Reserve(f.streets[e].occ, edgesSlot[e])) else f.streets[e],
           f.pesoL)
  }

  /**
   * `fp_evaluations(fp, G, nodes, edges)` with the shortest route and the
   * vehicle's speed as inputs: the code, the frames and the plan afterwards.
   * A plan that is not pending, a missing or empty route and an unreadable
   * departure all raise.
   */
  function Evaluate(f: Frames, fp: FlightPlan, route: Option<seq<Node>>, speed: real): (Evaluation, Frames, FlightPlan)
  {
    if fp.status != Pending || route.None? || route.value == [] || GetSec(fp.departure).None? then (Raised, f, fp)
    else
      var nodes := route.value;
      match Walk(f, nodes, speed, 0, nodes[0], GetSec(fp.departure).value, map[], map[])
      case Busy(e) => (Refused, f.(pesoL := f.pesoL[e := MaxPesoL]), fp)
      case Crash => (Raised, f, fp)
      case Done(nt, es) => (Planned(nodes), Commit(f, nt, es), fp.(status := Approved))
  }

  /**
   * A refused plan leaves the occupancy and the plan as they were and raises
   * one street's weight, between route nodes, to the maximum.
   */
  lemma RefusedMarksOneStreet(f: Frames, fp: FlightPlan, route: Option<seq<Node>>, speed: real)
    ensures var (r, f', fp') := Evaluate(f, fp, route, speed);
            r.Refused? ==>
              && route.Some? && fp' == fp && f'.nodeOcc == f.nodeOcc && f'.streets == f.streets
              && exists e: Edge :: e.0 in route.value && e.1 in route.value && f'.pesoL == f.pesoL[e := MaxPesoL]
  {
    var (r, f', fp') := Evaluate(f, fp, route, speed);
    if r.Refused? {
      var nodes := route.value;
      var dep := GetSec(fp.departure).value;
      WalkRecordsFree(f, nodes, speed, 0, nodes[0], dep, map[], map[]);
      var w := Walk(f, nodes, speed, 0, nodes[0], dep, map[], map[]);
      assert w.Busy? && f'.pesoL == f.pesoL[w.edge := MaxPesoL];
    }
  }

  /**
   * An approved plan is marked APPROVED, keeps the weights, and each node or
   * street field gains at most one entry, one that was free before.
   */
  lemma ApprovedAppendsFree(f: Frames, fp: FlightPlan, route: Option<seq<Node>>, speed: real)
    ensures var (r, f', fp') := Evaluate(f, fp, route, speed);
            r.Planned? ==>
              && fp' == fp.(status := Approved) && f'.pesoL == f.pesoL
              && f'.nodeOcc.Keys == f.nodeOcc.Keys && f'.streets.Keys == f.streets.Keys
              && (forall n :: n in f.nodeOcc && f'.nodeOcc[n] != f.nodeOcc[n] ==>
                    n in r.route && exists t :: NodeIsFreeExact(f.nodeOcc[n], t) && f'.nodeOcc[n] == Reserve(f.nodeOcc[n], t))
              && (forall e :: e in f.streets && f'.streets[e] != f.streets[e] ==>
                    exists s :: EdgeIsFreeExact(e.0, e.1, f.streets[e].occ, s) && f'.streets[e].occ == Reserve(f.streets[e].occ, s))
  {
    var (r, f', fp') := Evaluate(f, fp, route, speed);
    if r.Planned? {
      var nodes := route.value;
      var dep := GetSec(fp.departure).value;
      WalkRecordsFree(f, nodes, speed, 0, nodes[0], dep, map[], map[]);
      var w := Walk(f, nodes, speed, 0, nodes[0], dep, map[], map[]);
      assert w.Done? && f' == Commit(f, w.nodesTime, w.edgesSlot);
      forall n | n in f.nodeOcc && f'.nodeOcc[n] != f.nodeOcc[n]
        ensures n in r.route && exists t :: NodeIsFreeExact(f.nodeOcc[n], t) && f'.nodeOcc[n] == Reserve(f.nodeOcc[n], t)
      {
        assert NodeIsFreeExact(f.nodeOcc[n], w.nodesTime[n]);
      }
      forall e | e in f.streets && f'.streets[e] != f.streets[e]
        ensures exists s :: EdgeIsFreeExact(e.0, e.1, f.streets[e].occ, s) && f'.streets[e].occ == Reserve(f.streets[e].occ, s)
      {
        assert EdgeIsFreeExact(e.0, e.1, f.streets[e].occ, w.edgesSlot[e]);
      }
    }
  }

  /** The script's data frames, which every evaluation updates in place, and the flight plans' rows. */
  class Script {
    var frames: Frames

    constructor (f: Frames)
      ensures frames == f
    {
      frames := f;
    }

    /** `fp_evaluations`: updates the frames and returns the code and the plan's row. */
    method FpEvaluations(fp: FlightPlan, route: Option<seq<Node>>, speed: real) returns (r: Evaluation, fp': FlightPlan)
      modifies this
      ensures (r, frames, fp') == Evaluate(old(frames), fp, route, speed)
    {
      var (code, f, row) := Evaluate(frames, fp, route, speed);
      r, fp' := code, row;
      frames := f;
    }

    /**
     * `get_paths`: the first plan is evaluated once, every later plan again
     * and again on the updated frames until it is not refused; the shortest
     * route and the speed of a plan are given as functions of the plan and
     * the current weights. `None` when the script raises, or when a plan is
     * still refused after `fuel` attempts.
     */
    method GetPaths(plans: seq<FlightPlan>, shortest: (FlightPlan, map<Edge, real>) -> Option<seq<Node>>,
                    speedOf: FlightPlan -> real, fuel: nat)
      returns (paths: Option<seq<Evaluation>>)
      modifies this
      ensures paths.Some? ==> |paths.value| == |plans|
      ensures paths.Some? ==> forall k :: 0 < k < |plans| ==> paths.value[k].Planned?
      ensures paths.Some? ==> forall k :: 0 <= k < |plans| ==> !paths.value[k].Raised?
    {
      var acc: seq<Evaluation> := [];
      var i := 0;
      while i < |plans|
        invariant 0 <= i <= |plans| && |acc| == i
        invariant forall k :: 0 < k < i ==> acc[k].Planned?
        invariant forall k :: 0 <= k < i ==> !acc[k].Raised?
      {
        var fp := plans[i];
        var r, row := FpEvaluations(fp, shortest(fp, frames.pesoL), speedOf(fp));
        if i > 0 {
          var tries := 1;
          while r.Refused?
            invariant tries >= 1
            decreases fuel - tries
          {
            if tries >= fuel {
              return None;
            }
            r, row := FpEvaluations(fp, shortest(fp, frames.pesoL), speedOf(fp));
            tries := tries + 1;
          }
        }
        if r.Raised? {
          return None;
        }
        acc := acc + [r];
        i := i + 1;
      }
      return Some(acc);
    }
  }
}
