/**
 * The strategic router's per-leg rules (`routingTactical.RoutingAlgorithm`
 * and `PathPlanner`): the time to cross a street with its turn penalty, the
 * 30-second departure delay of a pending flight plan, the turn arrays of a
 * route and the turn-speed tables.
 */
module Routing {
  import opened Wrappers
  import opened Occupancy
  import opened TimeFormat

  /** `math.ceil` of a real. */
  function Ceil(x: real): (n: int)
    ensures (n - 1) as real < x <= n as real
  {
    -((-x).Floor)
  }

  /** The street length that marks a geofenced street. */
  const GeofenceLength: real := 9999.9

  /** The extra seconds spent on a turn node, by interior angle (the S2, S5, S10 and default settings). */
  function TurnDuration(angle: real): int
  {
    if 25.0 <= angle < 100.0 then 8
    else if 100.0 <= angle < 150.0 then 5
    else if angle >= 150.0 then 3
    else 3
  }

  /**
   * The turn penalty of `travel_time`: only when the street is followed by
   * another one (B != C), the interior angle between them could be looked up
   * (a failed lookup is swallowed) and it is below 180 - cutoff.
   */
  function TurnPenalty(b: Node, c: Node, angle: Option<real>, cutoff: int): (p: int)
    ensures p == 0 || p == 3 || p == 5 || p == 8
  {
    if b != c && angle.Some? && angle.value < (180 - cutoff) as real then TurnDuration(angle.value) else 0
  }

  /**
   * `travel_time(A, B, speed, …, C, edge)`: for A == B the departure time of
   * the plan in seconds; otherwise the seconds to cover the street, rounded
   * up, plus the turn penalty, or `None` on a geofenced street. A speed of 0
   * raises, which the `logger.catch` decorator turns into `None`.
   */
  function TravelTime(a: Node, b: Node, c: Node, departure: string, length: real, speed: real,
                      angle: Option<real>, cutoff: int): Option<int>
  {
    if a == b then GetSec(departure)
    else if speed == 0.0 then None
    else
      var slot := Ceil(length / speed) + TurnPenalty(b, c, angle, cutoff);
      if length == GeofenceLength then None else Some(slot)
  }

  /**
   * Between two distinct nodes the time is `None` exactly on a geofenced
   * street or at speed 0; otherwise it is the crossing time rounded up to
   * the next second, plus 8, 5 or 3 s when B is a turn node with an
   * interior angle in [25, 100), [100, 150) or elsewhere below 180 - cutoff.
   */
  lemma TravelTimeCases(a: Node, b: Node, c: Node, departure: string, length: real, speed: real,
                        angle: Option<real>, cutoff: int)
    requires a != b
    ensures var r := TravelTime(a, b, c, departure, length, speed, angle, cutoff);
            && (r.None? <==> length == 9999.9 || speed == 0.0)
            && (r.Some? ==>
                  var turn := b != c && angle.Some? && angle.value < (180 - cutoff) as real;
                  var extra := r.value - Ceil(length / speed);
                  && length / speed <= r.value as real < length / speed + 1.0 + extra as real
                  && (!turn ==> extra == 0)
                  && (turn && 25.0 <= angle.value < 100.0 ==> extra == 8)
                  && (turn && 100.0 <= angle.value < 150.0 ==> extra == 5)
                  && (turn && !(25.0 <= angle.value < 150.0) ==> extra == 3))
  {
  }

  /** Between a node and itself the "travel time" is the plan's departure time of day. */
  lemma TravelTimeSameNode(a: Node, c: Node, departure: string, length: real, speed: real, angle: Option<real>, cutoff: int)
    ensures TravelTime(a, a, c, departure, length, speed, angle, cutoff) == GetSec(departure)
  {
  }

  // Flight plans and the departure delay.

  /** The fields of a flight plan the router reads and writes. */
  datatype FlightPlan = FlightPlan(id: string, status: string, departure: string, priority: string, vehicle: string)

  const Pending: string := "PENDING"
  const Approved: string := "APPROVED"
  const DepartureDelay: int := 30
  const MaxDelayedTime: int := 300

  /**
   * `delayPendingFplan`: a pending plan whose departure, moved 30 s later,
   * is still at most 300 s into the day gets that new departure; every
   * other plan gives `None` (as does a departure that does not parse).
   */
  function DelayPending(fp: FlightPlan): (r: Option<FlightPlan>)
    ensures r.Some? <==> fp.status == Pending && GetSec(fp.departure).Some? && GetSec(fp.departure).value + 30 <= 300
    ensures r.Some? ==> && r.value.(departure := fp.departure) == fp
                        && GetSec(r.value.departure) == Some(GetSec(fp.departure).value + 30)
  {
    if fp.status != Pending then None
    else match GetSec(fp.departure)
      case None => None
      case Some(current) =>
        var delay := current + DepartureDelay;
        if delay <= MaxDelayedTime then GetSecGetMin(delay); Some(fp.(departure := GetMin(delay))) else None
  }
}
