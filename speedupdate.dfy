/**
 * The speed-update hysteresis (`speed_update.setSpeed`): an aircraft cruising
 * in a cruising layer whose estimated time of arrival is off by more than 25
 * seconds is told to fly at its layer's upper or lower speed limit, and the
 * `speedupdate` flag remembers it; the aircraft goes back to its waypoint
 * speeds once the difference is under 15 seconds, on a turn, on the 19-knot
 * condition, or close to its destination.
 */
module SpeedUpdate {
  import opened Traffic
  import opened Stack

  /** `re.match('cruising.+', name)`: "cruising" at the start, then at least one character other than a newline. */
  predicate CruisingLayer(name: string)
  {
    |name| > 8 && name[..8] == "cruising" && name[8] != '\n'
  }

  /** Python's `int(x)` on a float: truncation toward zero. */
  function Trunc(x: real): (n: int)
    ensures x >= 0.0 ==> n as real <= x < n as real + 1.0
    ensures x < 0.0 ==> n as real - 1.0 < x <= n as real
  {
    if x >= 0.0 then x.Floor else -((-x).Floor)
  }

  /** What `setSpeed` reads about aircraft `idxown` besides its flag and `diff`. */
  datatype Situation = Situation(
    id: string,
    layer: Layer,            // the entry of the layer table named `aclayername[idxown]`
    phase: int,              // flightphase
    route: Route,
    turns: seq<int>,         // traf.turns[idxown]: indices of the route's turn waypoints
    swvnav: bool, swvnavspd: bool,
    gs: real)
  {
    ghost predicate Valid() { route.Valid() }

    /** The gate of the whole function: a cruising layer, cruising flight phase, past the first waypoint. */
    predicate Applies()
    {
      CruisingLayer(layer.name) && phase == 0 && route.iactwp > 0
    }

    /** `np.argmax(wpname)`, which exists once the gate holds. */
    function Last(): int
      requires Valid() && Applies()
    {
      ArgMax(route.wpname) as int
    }

    /** Neither the active waypoint nor the next one is a turn. */
    predicate Straight()
    {
      route.iactwp !in turns && route.iactwp + 1 !in turns
    }

    /** The 19-knot condition: VNAV on, VNAV speed off, ground speed truncating to 19 knots. */
    predicate NineteenKts()
    {
      swvnav && !swvnavspd && Trunc(gs / Kts) == 19
    }
  }

  /** The new flag and the commands stacked, in order. */
  datatype Outcome = Outcome(flag: bool, cmds: seq<Cmd>)

  /** SPD to the limit, twice, then the ECHO. */
  function SpeedChange(id: string, spd: real, msg: string): seq<Cmd>
  {
    [Spd(id, spd), Spd(id, spd), Echo(id + msg)]
  }

  /** LNAV ON, VNAV ON, then the ECHO. */
  function BackToWpt(id: string, msg: string): seq<Cmd>
  {
    [LnavOn(id), VnavOn(id), Echo(id + msg)]
  }

  /** The layer's speed limits in knots. */
  function Upper(s: Situation): real { s.layer.upperSpd / Kts }

  function Lower(s: Situation): real { s.layer.lowerSpd / Kts }

  /** The first block: start a speed change, or end one. */
  function Adjust(flag: bool, s: Situation, diff: real): Outcome
    requires s.Valid() && s.Applies()
  {
    var last := s.Last();
    var iactwp := s.route.iactwp;
    if !flag && iactwp != last && iactwp != last - 1 then
      if diff < -25.0 && s.Straight() then Outcome(true, SpeedChange(s.id, Upper(s), " is speeding up"))
      else if diff > 25.0 && s.Straight() then Outcome(true, SpeedChange(s.id, Lower(s), " is slowing down"))
      else Outcome(flag, [])
    else if Abs(diff) < 15.0 then Outcome(false, BackToWpt(s.id, " is going back to wpt speed"))
    else if iactwp + 1 in s.turns || iactwp in s.turns then Outcome(false, BackToWpt(s.id, " is going back to wpt speed"))
    else if s.NineteenKts() then Outcome(false, BackToWpt(s.id, " 19kts bug"))
    else Outcome(flag, [])
  }

  /**
   * The last test, `speedupdate and iactwp == last or iactwp == last - 1`,
   * which Python reads as `(speedupdate and iactwp == last) or iactwp == last - 1`.
   */
  predicate NearEnd(flag: bool, s: Situation)
    requires s.Valid() && s.Applies()
  {
    (flag && s.route.iactwp == s.Last()) || s.route.iactwp == s.Last() - 1
  }

  /** `setSpeed(idxown, diff)` on the flag `speedupdate[idxown]`. */
  function SetSpeedSpec(flag: bool, s: Situation, diff: real): Outcome
    requires s.Valid()
  {
    if !s.Applies() then Outcome(flag, [])
    else
      var first := Adjust(flag, s, diff);
      if NearEnd(first.flag, s) then
        Outcome(false, first.cmds + BackToWpt(s.id, " close to destination, back to wpt speed"))
      else first
  }

  /** Outside a cruising layer, out of cruise or before the first waypoint is passed, nothing happens. */
  lemma OnlyInCruise(flag: bool, s: Situation, diff: real)
    requires s.Valid() && !s.Applies()
    ensures SetSpeedSpec(flag, s, diff) == Outcome(flag, [])
  {
  }

  /**
   * With the flag down and the active waypoint neither the last nor the one
   * before it: more than 25 s late speeds up to the upper limit, more than
   * 25 s early slows down to the lower limit, both only on a straight leg
   * and both raising the flag; within ±25 s nothing happens.
   */
  lemma StartCases(s: Situation, diff: real)
    requires s.Valid() && s.Applies()
    requires s.route.iactwp != s.Last() && s.route.iactwp != s.Last() - 1
    ensures var o := SetSpeedSpec(false, s, diff);
            && (diff < -25.0 && s.Straight() ==> o == Outcome(true, SpeedChange(s.id, Upper(s), " is speeding up")))
            && (diff > 25.0 && s.Straight() ==> o == Outcome(true, SpeedChange(s.id, Lower(s), " is slowing down")))
            && (-25.0 <= diff <= 25.0 || !s.Straight() ==> o == Outcome(false, []))
  {
  }

  /** The flag is raised only by a speed change, which stacks the same SPD twice and then an ECHO. */
  lemma RaisedOnlyBySpeedChange(flag: bool, s: Situation, diff: real)
    requires s.Valid()
    ensures var o := SetSpeedSpec(flag, s, diff);
            !flag && o.flag ==>
              |o.cmds| == 3 && o.cmds[0] == o.cmds[1] && o.cmds[0].Spd? && o.cmds[0].acid == s.id
              && (o.cmds[0].spd == Upper(s) || o.cmds[0].spd == Lower(s)) && o.cmds[2].Echo?
  {
  }

  /** A raised flag is lowered only together with LNAV ON and VNAV ON, so the aircraft is back on its waypoint speeds. */
  lemma LoweredWithNavOn(flag: bool, s: Situation, diff: real)
    requires s.Valid()
    ensures var o := SetSpeedSpec(flag, s, diff);
            flag && !o.flag ==> LnavOn(s.id) in o.cmds && VnavOn(s.id) in o.cmds
  {
  }

  /**
   * With the flag raised, a difference under 15 s, a turn at the active or
   * the next waypoint, or the 19-knot condition lowers it; otherwise it
   * stays raised unless the aircraft is at its last waypoint.
   */
  lemma ReleaseCases(s: Situation, diff: real)
    requires s.Valid() && s.Applies()
    ensures var o := SetSpeedSpec(true, s, diff);
            && (Abs(diff) < 15.0 || !s.Straight() || s.NineteenKts() ==> !o.flag)
            && (!(Abs(diff) < 15.0 || !s.Straight() || s.NineteenKts()) ==>
                  (o.flag <==> s.route.iactwp != s.Last() && s.route.iactwp != s.Last() - 1))
  {
  }

  /** At the waypoint before the last one the flag always ends lowered, with the close-to-destination commands last. */
  lemma NearDestinationReleases(flag: bool, s: Situation, diff: real)
    requires s.Valid() && s.Applies() && s.route.iactwp == s.Last() - 1
    ensures var o := SetSpeedSpec(flag, s, diff);
            && !o.flag
            && |o.cmds| >= 3
            && o.cmds[|o.cmds| - 3..] == BackToWpt(s.id, " close to destination, back to wpt speed")
  {
  }

  /** `traf.speedupdate`, the one array `setSpeed` writes. */
  class Flags {
    var speedupdate: seq<bool>

    constructor (n: nat)
      ensures speedupdate == seq(n, _ => false)
    {
      speedupdate := seq(n, _ => false);
    }

    /** `setSpeed(idxown, diff)`: only `speedupdate[idxown]` and the command stack change. */
    method SetSpeed(idxown: nat, s: Situation, diff: real, log: CommandStack)
      requires idxown < |speedupdate| && s.Valid()
      modifies this, log
      ensures speedupdate == old(speedupdate)[idxown := SetSpeedSpec(old(speedupdate[idxown]), s, diff).flag]
      ensures log.cmds == old(log.cmds) + SetSpeedSpec(old(speedupdate[idxown]), s, diff).cmds
    {
      var iactwp := s.route.iactwp;
      if CruisingLayer(s.layer.name) && s.phase == 0 && iactwp > 0 {
        ghost var before := log.cmds;
        AdjustSpeed(idxown, s, diff, log);
        ghost var adjusted := log.cmds;
        var last := ArgMax(s.route.wpname) as int;
        if (speedupdate[idxown] && iactwp == last) || iactwp == last - 1 {
          log.PushAll(BackToWpt(s.id, " close to destination, back to wpt speed"));
          speedupdate := speedupdate[idxown := false];
        }
        StackedInBlocks(before, adjusted[|before|..], log.cmds[|adjusted|..]);
      }
    }

    /** The first block of `setSpeed`: start a speed change, or end one. */
    method AdjustSpeed(idxown: nat, s: Situation, diff: real, log: CommandStack)
      requires idxown < |speedupdate| && s.Valid() && s.Applies()
      modifies this, log
      ensures speedupdate == old(speedupdate)[idxown := Adjust(old(speedupdate[idxown]), s, diff).flag]
      ensures log.cmds == old(log.cmds) + Adjust(old(speedupdate[idxown]), s, diff).cmds
    {
      var iactwp := s.route.iactwp;
      var lowerSpdLimit := s.layer.lowerSpd / Kts;
      var upperSpdLimit := s.layer.upperSpd / Kts;
      var last := ArgMax(s.route.wpname) as int;
      if !speedupdate[idxown] && iactwp != last && iactwp != last - 1 {
        if diff < -25.0 && iactwp !in s.turns && iactwp + 1 !in s.turns {
          speedupdate := speedupdate[idxown := true];
          log.PushAll(SpeedChange(s.id, upperSpdLimit, " is speeding up"));
        } else if diff > 25.0 && iactwp !in s.turns && iactwp + 1 !in s.turns {
          speedupdate := speedupdate[idxown := true];
          log.PushAll(SpeedChange(s.id, lowerSpdLimit, " is slowing down"));
        }
      } else if Abs(diff) < 15.0 {
        log.PushAll(BackToWpt(s.id, " is going back to wpt speed"));
        speedupdate := speedupdate[idxown := false];
      } else if iactwp + 1 in s.turns || iactwp in s.turns {
        log.PushAll(BackToWpt(s.id, " is going back to wpt speed"));
        speedupdate := speedupdate[idxown := false];
      } else if s.swvnav && !s.swvnavspd && Trunc(s.gs / Kts) == 19 {
        log.PushAll(BackToWpt(s.id, " 19kts bug"));
        speedupdate := speedupdate[idxown := false];
      }
    }
  }
}
