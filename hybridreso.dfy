/**
 * `resumenav` of plugins/m2/hybridreso.py. The retention pass is the one of
 * module ResumeNav (with `HybridResoRules`); what differs is what follows.
 * While an aircraft stays under resolution its targets are written back
 * into the autopilot and into the active waypoint of its flight plan every
 * tick; once it is no longer under resolution its four channels are
 * switched off and, when the conflict probe allows, the flight plan saved
 * before the resolution (`preresoroute`) is restored and the aircraft is
 * sent back to the waypoint's speed and altitude.
 */
module HybridReso {
  import opened Wrappers
  import opened Traffic
  import opened Stack
  import RN = ResumeNav

  /** A strategy that recovery knows: one of the nine, not "None" and not an unknown string. */
  predicate Known(s: Strategy)
  {
    s != NoReso && !s.Other?
  }

  // ---------------------------------------------------------------- holding a resolution

  /** The autopilot targets an aircraft keeps while it flies its resolution. */
  function HeldAp(row: ResoRow, ap: Autopilot): Autopilot
  {
    match row.strategy
    case Reso1 => ap.(alt := row.resoalt, selalt := row.resoalt)
    case Reso3 => ap.(vs := row.resovs, tas := row.resospd, alt := row.resoalt, selalt := row.resoalt)
    case Reso5 => ap.(alt := row.resoalt, selalt := row.resoalt)
    case Reso6 => ap.(vs := row.resovs, tas := row.resospd, alt := row.resoalt, selalt := row.resoalt)
    case Reso7 => ap.(vs := row.resovs, tas := row.resospd, alt := row.resoalt, selalt := row.resoalt)
    case Reso8 => ap.(vs := row.resovs)
    case _ => ap
  }

  /**
   * Which targets are held: RESO3/6/7 the resolution speed, RESO3/6/7 and
   * RESO8 the resolution vertical speed, RESO1/3/5/6/7 the resolution
   * altitude (also as selected altitude); every other target is kept.
   */
  lemma HeldTargets(row: ResoRow, ap: Autopilot)
    ensures var out := HeldAp(row, ap);
            && out.tas == (if row.strategy in {Reso3, Reso6, Reso7} then row.resospd else ap.tas)
            && out.vs == (if row.strategy in {Reso3, Reso6, Reso7, Reso8} then row.resovs else ap.vs)
            && (row.strategy in {Reso1, Reso3, Reso5, Reso6, Reso7} ==> out.alt == row.resoalt && out.selalt == row.resoalt)
            && (row.strategy !in {Reso1, Reso3, Reso5, Reso6, Reso7} ==> out.alt == ap.alt && out.selalt == ap.selalt)
  {
  }

  /**
   * The flight plan of an aircraft flying its resolution: RESO1 and RESO5
   * put the resolution altitude, RESO2, RESO5 and RESO9 the resolution
   * speed, into the active waypoint. Nothing else of the plan changes.
   */
  function HeldRoute(row: ResoRow, r: Route, iwpid: nat): (out: Route)
    requires r.Valid() && iwpid < |r.wpname|
    ensures out.Valid() && out.wpname == r.wpname
  {
    match row.strategy
    case Reso1 => r.(wpalt := r.wpalt[iwpid := row.resoalt])
    case Reso2 => r.(wpspd := r.wpspd[iwpid := row.resospd])
    case Reso5 => r.(wpalt := r.wpalt[iwpid := row.resoalt], wpspd := r.wpspd[iwpid := row.resospd])
    case Reso9 => r.(wpspd := r.wpspd[iwpid := row.resospd])
    case _ => r
  }

  /**
   * While active, RESO1 and RESO5 hold the resolution altitude, and RESO2,
   * RESO5 and RESO9 the resolution speed, in the active waypoint; the rest
   * of the flight plan is left as it was.
   */
  lemma HeldWaypoint(row: ResoRow, r: Route, iwpid: nat)
    requires r.Valid() && iwpid < |r.wpname|
    ensures var out := HeldRoute(row, r, iwpid);
            && out.wplat == r.wplat && out.wplon == r.wplon && out.iactwp == r.iactwp
            && |out.wpalt| == |r.wpalt| && |out.wpspd| == |r.wpspd|
            && (forall k :: 0 <= k < |r.wpalt| ==>
                  out.wpalt[k] == if k == iwpid && row.strategy in {Reso1, Reso5} then row.resoalt else r.wpalt[k])
            && (forall k :: 0 <= k < |r.wpspd| ==>
                  out.wpspd[k] == if k == iwpid && row.strategy in {Reso2, Reso5, Reso9} then row.resospd else r.wpspd[k])
  {
  }

  /** The ownship's resolution is written back this tick: it is marked active and has an active waypoint. */
  predicate Holds(changeactive: map<nat, bool>, act: seq<int>, i: nat)
  {
    i in changeactive && changeactive[i] && i < |act| && act[i] > -1
  }

  /** The autopilot targets after the second loop: the write-back of every ownship whose resolution holds. */
  function HeldAps(changeactive: map<nat, bool>, act: seq<int>, reso: seq<ResoRow>, ap: seq<Autopilot>): (aps: seq<Autopilot>)
    requires |ap| == |reso|
    ensures |aps| == |ap|
  {
    seq(|ap|, i requires 0 <= i < |ap| => if Holds(changeactive, act, i) then HeldAp(reso[i], ap[i]) else ap[i])
  }

  /** The flight plans after the second loop: the write-back of every ownship whose resolution holds. */
  function HeldRoutes(changeactive: map<nat, bool>, act: seq<int>, reso: seq<ResoRow>, route: seq<Route>): (routes: seq<Route>)
    requires |route| == |reso| && RN.ActiveWaypoints(route, act)
    ensures RN.ActiveWaypoints(routes, act)
  {
    seq(|route|, i requires 0 <= i < |route| =>
                   if Holds(changeactive, act, i) then HeldRoute(reso[i], route[i], act[i] as nat) else route[i])
  }

  /**
   * The arrays after the second loop has visited the keys in `done`: every
   * visited ownship has its flag set and, if its resolution holds, its
   * targets written back; every other aircraft is as it was.
   */
  ghost predicate HeldSoFar(changeactive: map<nat, bool>, act: seq<int>, reso: seq<ResoRow>, done: set<nat>,
                            active0: seq<bool>, ap0: seq<Autopilot>, route0: seq<Route>,
                            active: seq<bool>, ap: seq<Autopilot>, route: seq<Route>)
    requires |route0| == |reso| && RN.ActiveWaypoints(route0, act)
  {
    |active0| == |reso| && |ap0| == |reso| && |active| == |reso| && |ap| == |reso| && |route| == |reso|
    && forall i :: 0 <= i < |reso| ==>
         var visited := i in done && i in changeactive;
         && active[i] == (if visited then changeactive[i] else active0[i])
         && ap[i] == (if visited && Holds(changeactive, act, i) then HeldAp(reso[i], ap0[i]) else ap0[i])
         && route[i] == (if visited && Holds(changeactive, act, i) then HeldRoute(reso[i], route0[i], act[i] as nat)
                         else route0[i])
  }

  /** Visiting one more key sets its flag and, if its resolution holds, writes its targets back. */
  lemma HoldStep(changeactive: map<nat, bool>, act: seq<int>, reso: seq<ResoRow>, done: set<nat>, k: nat,
                 active0: seq<bool>, ap0: seq<Autopilot>, route0: seq<Route>,
                 active: seq<bool>, ap: seq<Autopilot>, route: seq<Route>)
    requires |route0| == |reso| && RN.ActiveWaypoints(route0, act)
    requires HeldSoFar(changeactive, act, reso, done, active0, ap0, route0, active, ap, route)
    requires k in changeactive && k !in done && k < |reso|
    ensures var holds := changeactive[k] && act[k] > -1;
            HeldSoFar(changeactive, act, reso, done + {k}, active0, ap0, route0,
                      active[k := changeactive[k]],
                      if holds then ap[k := HeldAp(reso[k], ap[k])] else ap,
                      if holds then route[k := HeldRoute(reso[k], route[k], act[k] as nat)] else route)
  {
  }

  /** Once every key is visited, the targets are those of HeldAps and HeldRoutes. */
  lemma HeldAll(changeactive: map<nat, bool>, act: seq<int>, reso: seq<ResoRow>,
                active0: seq<bool>, ap0: seq<Autopilot>, route0: seq<Route>,
                active: seq<bool>, ap: seq<Autopilot>, route: seq<Route>)
    requires |route0| == |reso| && RN.ActiveWaypoints(route0, act)
    requires HeldSoFar(changeactive, act, reso, changeactive.Keys, active0, ap0, route0, active, ap, route)
    ensures ap == HeldAps(changeactive, act, reso, ap0) && route == HeldRoutes(changeactive, act, reso, route0)
    ensures forall i :: 0 <= i < |active| ==> active[i] == if i in changeactive then changeactive[i] else active0[i]
  {
  }

  /**
   * The second loop of `resumenav`, over the keys of `changeactive`: each
   * ownship's flag is set, and an active one with an active waypoint has
   * its resolution targets written back.
   */
  method SetActiveAndHold(traf: Traf, changeactive: map<nat, bool>, act: seq<int>)
    requires traf.Valid() && RN.ActiveWaypoints(traf.route, act)
    requires forall i :: i in changeactive ==> i < |traf.ac|
    modifies traf`active, traf`ap, traf`route
    ensures traf.Valid() && RN.ActiveWaypoints(traf.route, act)
    ensures |traf.active| == |old(traf.active)|
    ensures forall i :: 0 <= i < |traf.active| ==>
              traf.active[i] == if i in changeactive then changeactive[i] else old(traf.active[i])
    ensures traf.ap == HeldAps(changeactive, act, traf.reso, old(traf.ap))
    ensures traf.route == HeldRoutes(changeactive, act, traf.reso, old(traf.route))
  {
    ghost var active0, ap0, route0 := traf.active, traf.ap, traf.route;
    var todo := changeactive.Keys;
    assert HeldSoFar(changeactive, act, traf.reso, changeactive.Keys - todo, active0, ap0, route0,
                     traf.active, traf.ap, traf.route);
    while todo != {}
      invariant todo <= changeactive.Keys
      invariant traf.Valid() && RN.ActiveWaypoints(traf.route, act)
      invariant HeldSoFar(changeactive, act, traf.reso, changeactive.Keys - todo, active0, ap0, route0,
                          traf.active, traf.ap, traf.route)
      decreases todo
    {
      var k :| k in todo;
      HoldStep(changeactive, act, traf.reso, changeactive.Keys - todo, k, active0, ap0, route0,
               traf.active, traf.ap, traf.route);
      HoldOne(traf, changeactive[k], act, k);
      assert changeactive.Keys - (todo - {k}) == (changeactive.Keys - todo) + {k};
      todo := todo - {k};
    }
    HeldAll(changeactive, act, traf.reso, active0, ap0, route0, traf.active, traf.ap, traf.route);
  }

  /** One key of the second loop: `active[idx] = active`, then the write-back if it holds. */
  method HoldOne(traf: Traf, active: bool, act: seq<int>, idx: nat)
    requires traf.Valid() && RN.ActiveWaypoints(traf.route, act) && idx < |traf.ac|
    modifies traf`active, traf`ap, traf`route
    ensures traf.Valid() && RN.ActiveWaypoints(traf.route, act)
    ensures traf.active == old(traf.active)[idx := active]
    ensures traf.ap == if active && act[idx] > -1 then old(traf.ap)[idx := HeldAp(traf.reso[idx], old(traf.ap[idx]))]
                       else old(traf.ap)
    ensures traf.route == if active && act[idx] > -1
                          then old(traf.route)[idx := HeldRoute(traf.reso[idx], old(traf.route[idx]), act[idx] as nat)]
                          else old(traf.route)
  {
    traf.active := traf.active[idx := active];
    if active {
      var iwpid := act[idx];
      if iwpid > -1 {
        traf.ap := traf.ap[idx := HeldAp(traf.reso[idx], traf.ap[idx])];
        traf.route := traf.route[idx := HeldRoute(traf.reso[idx], traf.route[idx], iwpid as nat)];
      }
    }
  }

  // ---------------------------------------------------------------- recovery of one aircraft

  /**
   * The conflict probe lets the aircraft give its resolution up: it foresees
   * no conflict descending back (RESO1), at the recovery speed (RESO2,
   * RESO9), resuming the climb or descent (RESO3/6/7), or in a layer's climb
   * or descent (RESO8); RESO5 stays only while both the descent and the
   * recovery speed would conflict.
   */
  predicate Frees(a: Aircraft, i: nat, row: ResoRow, r: Route, iwpid: nat, probe: ProbeQuery -> bool)
    requires r.Valid() && iwpid < |r.wpname|
  {
    var climbing := RN.Climbing(r, iwpid, a.alt);
    match row.strategy
    case Reso1 => !probe(DescendProbe(i, None))
    case Reso2 => !probe(SpeedProbe(i, row.recoveryspd))
    case Reso9 => !probe(SpeedProbe(i, row.recoveryspd))
    case Reso3 => !probe(RN.VerticalProbe(i, climbing))
    case Reso6 => !probe(RN.VerticalProbe(i, climbing))
    case Reso7 => !probe(RN.VerticalProbe(i, climbing))
    case Reso5 => !(probe(DescendProbe(i, None)) && probe(SpeedProbe(i, row.recoveryspd)))
    case Reso8 => !probe(if climbing then ClimbLayerProbe(i) else DescendLayerProbe(i))
    case _ => true
  }

  /** RESO5 recovers as soon as either the descent or the recovery speed is free of conflict. */
  lemma Reso5FreesOnEither(a: Aircraft, i: nat, row: ResoRow, r: Route, iwpid: nat, probe: ProbeQuery -> bool)
    requires r.Valid() && iwpid < |r.wpname| && row.strategy == Reso5
    ensures Frees(a, i, row, r, iwpid, probe) <==> !probe(DescendProbe(i, None)) || !probe(SpeedProbe(i, row.recoveryspd))
  {
  }

  /** The aircraft has a waypoint and a known strategy, and the probe does not let it recover yet. */
  predicate Keeps(a: Aircraft, i: nat, row: ResoRow, r: Route, iwpid: int, probe: ProbeQuery -> bool)
    requires r.Valid() && -1 <= iwpid < |r.wpname|
  {
    iwpid > -1 && Known(row.strategy) && !Frees(a, i, row, r, iwpid, probe)
  }

  /** The aircraft has a waypoint and a known strategy, and the probe lets it recover: its old plan comes back. */
  predicate Restores(a: Aircraft, i: nat, row: ResoRow, r: Route, iwpid: int, probe: ProbeQuery -> bool)
    requires r.Valid() && -1 <= iwpid < |r.wpname|
  {
    iwpid > -1 && Known(row.strategy) && Frees(a, i, row, r, iwpid, probe)
  }

  /** The four channels switched off, the strategy kept. */
  function ChannelsOff(row: ResoRow): (r: ResoRow)
    ensures r.Idle() && r.strategy == row.strategy && r.resoidint == row.resoidint
  {
    row.(hdgActive := false, tasActive := false, altActive := false, vsActive := false)
  }

  /**
   * The row of an inactive aircraft after recovery: channels off first; the
   * strategy becomes "None" unless the aircraft keeps its resolution.
   */
  function RecoveredRow(a: Aircraft, i: nat, row: ResoRow, r: Route, iwpid: int, probe: ProbeQuery -> bool): (out: ResoRow)
    requires r.Valid() && -1 <= iwpid < |r.wpname|
    ensures out.Idle() && out.resoidint == row.resoidint
  {
    var off := ChannelsOff(row);
    if iwpid <= -1 then off.(strategy := NoReso)
    else
      match row.strategy
      case NoReso => off.(strategy := NoReso)
      case Other(_) => off.(strategy := NoReso)
      case _ => if Frees(a, i, row, r, iwpid, probe) then off.(strategy := NoReso) else off
  }

  /**
   * Recovery always switches the channels off; the strategy becomes "None"
   * unless the aircraft keeps its resolution, in which case it stays.
   */
  lemma RecoveredStrategy(a: Aircraft, i: nat, row: ResoRow, r: Route, iwpid: int, probe: ProbeQuery -> bool)
    requires r.Valid() && -1 <= iwpid < |r.wpname|
    ensures var out := RecoveredRow(a, i, row, r, iwpid, probe);
            out == if Keeps(a, i, row, r, iwpid, probe) then ChannelsOff(row) else row.Released()
  {
  }

  /**
   * The autopilot targets after recovery: held while the resolution is
   * kept (RESO1 and RESO5 the altitude, RESO3/6/7 speed, vertical speed and
   * altitude, RESO8 the vertical speed); a recovering RESO8 takes its
   * recovery vertical speed back.
   */
  function RecoveredAp(a: Aircraft, i: nat, row: ResoRow, ap: Autopilot, r: Route, iwpid: int,
                       probe: ProbeQuery -> bool): Autopilot
    requires r.Valid() && -1 <= iwpid < |r.wpname|
  {
    if iwpid > -1 then
      var frees := Frees(a, i, row, r, iwpid, probe);
      match row.strategy
      case Reso1 => if frees then ap else ap.(alt := row.resoalt, selalt := row.resoalt)
      case Reso2 => ap
      case Reso9 => ap
      case Reso3 => if frees then ap else ap.(vs := row.resovs, tas := row.resospd, alt := row.resoalt, selalt := row.resoalt)
      case Reso6 => if frees then ap else ap.(vs := row.resovs, tas := row.resospd, alt := row.resoalt, selalt := row.resoalt)
      case Reso7 => if frees then ap else ap.(vs := row.resovs, tas := row.resospd, alt := row.resoalt, selalt := row.resoalt)
      case Reso5 => if frees then ap else ap.(alt := row.resoalt, selalt := row.resoalt)
      case Reso8 => if frees then ap.(vs := row.recoveryvs) else ap.(vs := row.resovs)
      case NoReso => ap
      case Other(_) => ap
    else ap
  }

  /**
   * The flight plan after recovery: the saved plan when the aircraft
   * recovers from a known strategy; while the resolution is kept, RESO1,
   * RESO2, RESO5 and RESO9 keep their targets in the active waypoint.
   */
  function RecoveredRoute(a: Aircraft, i: nat, row: ResoRow, r: Route, pre: Route, iwpid: int,
                          probe: ProbeQuery -> bool): Route
    requires r.Valid() && -1 <= iwpid < |r.wpname|
  {
    if iwpid > -1 then
      var frees := Frees(a, i, row, r, iwpid, probe);
      match row.strategy
      case Reso1 => if frees then pre else r.(wpalt := r.wpalt[iwpid := row.resoalt])
      case Reso2 => if frees then pre else r.(wpspd := r.wpspd[iwpid := row.resospd])
      case Reso9 => if frees then pre else r.(wpspd := r.wpspd[iwpid := row.resospd])
      case Reso5 => if frees then pre else r.(wpalt := r.wpalt[iwpid := row.resoalt], wpspd := r.wpspd[iwpid := row.resospd])
      case NoReso => r
      case Other(_) => r
      case _ => if frees then pre else r
    else r
  }

  /** `SPD`, `ALT` and `ATALT … VNAV ON`, `ATALT … LNAV ON`: back to the waypoint's speed (kts) and altitude (ft). */
  function ResumeAltitude(id: string, wpspd: real, wpalt: real): seq<Cmd>
  {
    var spd, alt := wpspd / Kts, wpalt / Ft;
    [Spd(id, spd), Alt(id, alt), AtAltVnavOn(id, alt), AtAltLnavOn(id, alt)]
  }

  /** `SPD`, `ALT` and `ATSPD … VNAV ON`, `ATSPD … LNAV ON`: back to the waypoint's speed (kts) and altitude (ft). */
  function ResumeSpeed(id: string, wpspd: real, wpalt: real): seq<Cmd>
  {
    var spd, alt := wpspd / Kts, wpalt / Ft;
    [Spd(id, spd), Alt(id, alt), AtSpdVnavOn(id, spd), AtSpdLnavOn(id, spd)]
  }

  /**
   * The commands of one aircraft's recovery. A recovering aircraft is sent
   * back to the restored plan's active waypoint (RESO8 silently); RESO5 that
   * keeps its resolution, and an unknown strategy, fly direct to it.
   */
  function RecoveryCommandsAt(a: Aircraft, i: nat, row: ResoRow, r: Route, pre: Route, iwpid: int,
                              probe: ProbeQuery -> bool): seq<Cmd>
    requires r.Valid() && -1 <= iwpid < |r.wpname| && pre.Valid() && iwpid < |pre.wpname|
  {
    if iwpid > -1 then
      var frees := Frees(a, i, row, r, iwpid, probe);
      match row.strategy
      case Reso1 => if frees then ResumeAltitude(a.id, pre.wpspd[iwpid], pre.wpalt[iwpid]) else []
      case Reso2 => if frees then ResumeSpeed(a.id, pre.wpspd[iwpid], pre.wpalt[iwpid]) else []
      case Reso9 => if frees then ResumeSpeed(a.id, pre.wpspd[iwpid], pre.wpalt[iwpid]) else []
      case Reso3 => if frees then RN.ResumeVertical(a.id, pre.wpalt[iwpid]) else []
      case Reso6 => if frees then RN.ResumeVertical(a.id, pre.wpalt[iwpid]) else []
      case Reso7 => if frees then RN.ResumeVertical(a.id, pre.wpalt[iwpid]) else []
      case Reso5 => if frees then ResumeAltitude(a.id, pre.wpspd[iwpid], pre.wpalt[iwpid]) else [Direct(a.id, r.wpname[iwpid])]
      case Reso8 => []
      case NoReso => []
      case Other(_) => [Direct(a.id, r.wpname[iwpid])]
    else []
  }

  /**
   * What recovery does to the autopilot and the flight plan. Holding holds
   * exactly what the write-back of an active aircraft holds; recovering
   * from a known strategy brings the saved plan back (RESO8 also its
   * recovery vertical speed); otherwise nothing changes.
   */
  lemma RecoveredTargets(a: Aircraft, i: nat, row: ResoRow, ap: Autopilot, r: Route, pre: Route, iwpid: int,
                         probe: ProbeQuery -> bool)
    requires r.Valid() && -1 <= iwpid < |r.wpname|
    ensures var ap' := RecoveredAp(a, i, row, ap, r, iwpid, probe);
            var r' := RecoveredRoute(a, i, row, r, pre, iwpid, probe);
            if Keeps(a, i, row, r, iwpid, probe) then ap' == HeldAp(row, ap) && r' == HeldRoute(row, r, iwpid as nat)
            else if Restores(a, i, row, r, iwpid, probe) then
              r' == pre && ap' == if row.strategy == Reso8 then ap.(vs := row.recoveryvs) else ap
            else ap' == ap && r' == r
  {
  }

  /**
   * The commands of recovery: none without a waypoint or a strategy; an
   * unknown strategy, and RESO5 while it holds, fly direct to the active
   * waypoint; a restore is silent only for RESO8, otherwise it commands
   * the restored waypoint's altitude, first its speed for RESO1/2/5/9.
   */
  lemma RecoveryCommandsCases(a: Aircraft, i: nat, row: ResoRow, r: Route, pre: Route, iwpid: int,
                              probe: ProbeQuery -> bool)
    requires r.Valid() && -1 <= iwpid < |r.wpname| && pre.Valid() && iwpid < |pre.wpname|
    ensures var cmds := RecoveryCommandsAt(a, i, row, r, pre, iwpid, probe);
            && (iwpid == -1 || row.strategy == NoReso ==> cmds == [])
            && (iwpid > -1 && row.strategy.Other? ==> cmds == [Direct(a.id, r.wpname[iwpid])])
            && (Keeps(a, i, row, r, iwpid, probe) ==>
                  cmds == if row.strategy == Reso5 then [Direct(a.id, r.wpname[iwpid])] else [])
            && (Restores(a, i, row, r, iwpid, probe) ==>
                  && (cmds == [] <==> row.strategy == Reso8)
                  && (row.strategy != Reso8 ==> Alt(a.id, pre.wpalt[iwpid] / Ft) in cmds)
                  && (row.strategy in {Reso1, Reso2, Reso5, Reso9} ==> cmds[0] == Spd(a.id, pre.wpspd[iwpid] / Kts)))
  {
  }

  /** Recovery gives up at most once: a released row goes through it unchanged and silent. */
  lemma RecoveryOfReleased(a: Aircraft, i: nat, row: ResoRow, ap: Autopilot, r: Route, pre: Route, iwpid: int,
                           probe: ProbeQuery -> bool)
    requires r.Valid() && -1 <= iwpid < |r.wpname| && pre.Valid() && iwpid < |pre.wpname|
    ensures RecoveredRow(a, i, row.Released(), r, iwpid, probe) == row.Released()
    ensures RecoveredAp(a, i, row.Released(), ap, r, iwpid, probe) == ap
    ensures RecoveredRoute(a, i, row.Released(), r, pre, iwpid, probe) == r
    ensures RecoveryCommandsAt(a, i, row.Released(), r, pre, iwpid, probe) == []
  {
  }

  // ---------------------------------------------------------------- the recovery loop

  /** The saved plans cover the active waypoints, so the commands of a restore can read them. */
  ghost predicate PreResoCovers(pre: seq<Route>, act: seq<int>)
  {
    |pre| == |act| && forall i :: 0 <= i < |pre| ==> pre[i].Valid() && act[i] < |pre[i].wpname|
  }

  /** What the recovery loop reads: the arrays as the second loop left them. */
  datatype Tick = Tick(ac: seq<Aircraft>, reso: seq<ResoRow>, ap: seq<Autopilot>, route: seq<Route>,
                       pre: seq<Route>, act: seq<int>, active: seq<bool>, probe: ProbeQuery -> bool)
  {
    ghost predicate Valid()
    {
      |reso| == |ac| && |ap| == |ac| && |route| == |ac| && |pre| == |ac| && |active| == |ac|
      && RN.ActiveWaypoints(route, act) && PreResoCovers(pre, act)
    }

    function Row(i: nat): ResoRow
      requires Valid() && i < |ac|
    {
      if active[i] then reso[i] else RecoveredRow(ac[i], i, reso[i], route[i], act[i], probe)
    }

    function Ap(i: nat): Autopilot
      requires Valid() && i < |ac|
    {
      if active[i] then ap[i] else RecoveredAp(ac[i], i, reso[i], ap[i], route[i], act[i], probe)
    }

    function Plan(i: nat): Route
      requires Valid() && i < |ac|
    {
      if active[i] then route[i] else RecoveredRoute(ac[i], i, reso[i], route[i], pre[i], act[i], probe)
    }

    function CmdsAt(i: nat): seq<Cmd>
      requires Valid() && i < |ac|
    {
      if active[i] then [] else RecoveryCommandsAt(ac[i], i, reso[i], route[i], pre[i], act[i], probe)
    }

    /** The commands the loop issues for the first n aircraft, in index order. */
    function Cmds(n: nat): seq<Cmd>
      requires Valid() && n <= |ac|
    {
      if n == 0 then [] else Cmds(n - 1) + CmdsAt(n - 1)
    }
  }

  /** An aircraft that has no active waypoint or no strategy is not addressed by the recovery loop. */
  lemma {:induction false} QuietWithoutResolutions(t: Tick, n: nat)
    requires t.Valid() && n <= |t.ac|
    requires forall i :: 0 <= i < |t.ac| ==> t.act[i] == -1 || t.reso[i].strategy == NoReso
    ensures t.Cmds(n) == []
  {
    if n > 0 {
      QuietWithoutResolutions(t, n - 1);
    }
  }

  /** The arrays after the recovery loop has visited the first n aircraft. */
  ghost predicate Visited(t: Tick, n: nat, reso: seq<ResoRow>, ap: seq<Autopilot>, route: seq<Route>)
    requires t.Valid() && n <= |t.ac|
  {
    |reso| == |t.ac| && |ap| == |t.ac| && |route| == |t.ac|
    && forall i :: 0 <= i < |t.ac| ==>
         && reso[i] == (if i < n then t.Row(i) else t.reso[i])
         && ap[i] == (if i < n then t.Ap(i) else t.ap[i])
         && route[i] == (if i < n then t.Plan(i) else t.route[i])
  }

  /** Before the loop nothing has been visited. */
  lemma VisitedNone(t: Tick)
    requires t.Valid()
    ensures Visited(t, 0, t.reso, t.ap, t.route) && t.Cmds(0) == []
  {
  }

  /** Visiting aircraft n replaces its entries, and only them, by their recovered values. */
  lemma VisitStep(t: Tick, n: nat, reso: seq<ResoRow>, ap: seq<Autopilot>, route: seq<Route>)
    requires t.Valid() && n < |t.ac| && Visited(t, n, reso, ap, route)
    ensures Visited(t, n + 1, reso[n := t.Row(n)], ap[n := t.Ap(n)], route[n := t.Plan(n)])
  {
  }

  /** The commands of aircraft n follow those of the aircraft before it. */
  lemma CmdsStep(t: Tick, n: nat, cmds0: seq<Cmd>)
    requires t.Valid() && n < |t.ac|
    ensures cmds0 + t.Cmds(n + 1) == (cmds0 + t.Cmds(n)) + t.CmdsAt(n)
    ensures t.active[n] ==> cmds0 + t.Cmds(n + 1) == cmds0 + t.Cmds(n)
  {
    assert t.active[n] ==> t.CmdsAt(n) == [];
    assert t.Cmds(n) + [] == t.Cmds(n);
  }

  /** After the loop every inactive aircraft has its four channels off. */
  lemma InactiveIdle(t: Tick, reso: seq<ResoRow>, ap: seq<Autopilot>, route: seq<Route>)
    requires t.Valid() && Visited(t, |t.ac|, reso, ap, route)
    ensures forall i :: 0 <= i < |t.ac| && !t.active[i] ==> reso[i].Idle()
  {
  }

  /** One aircraft of the third loop: an inactive one is recovered and its commands are stacked. */
  method VisitRecovery(traf: Traf, t: Tick, log: CommandStack, idx: nat, ghost cmds0: seq<Cmd>)
    requires t.Valid() && traf.Valid() && idx < |t.ac|
    requires traf.ac == t.ac && traf.active == t.active
    requires Visited(t, idx, traf.reso, traf.ap, traf.route)
    requires log.cmds == cmds0 + t.Cmds(idx)
    modifies traf`reso, traf`ap, traf`route, log
    ensures traf.Valid() && traf.ac == t.ac && traf.active == t.active
    ensures Visited(t, idx + 1, traf.reso, traf.ap, traf.route)
    ensures log.cmds == cmds0 + t.Cmds(idx + 1)
  {
    VisitStep(t, idx, traf.reso, traf.ap, traf.route);
    CmdsStep(t, idx, cmds0);
    if !traf.active[idx] {
      var row' := t.Row(idx);
      RN.ReplaceRowKeepsNoDup(traf.reso, idx, row', traf.reso[idx := row']);
      traf.reso := traf.reso[idx := row'];
      traf.ap := traf.ap[idx := t.Ap(idx)];
      traf.route := traf.route[idx := t.Plan(idx)];
      var cmds := t.CmdsAt(idx);
      log.PushAll(cmds);
    } else {
      assert traf.reso[idx := t.Row(idx)] == traf.reso && traf.ap[idx := t.Ap(idx)] == traf.ap
             && traf.route[idx := t.Plan(idx)] == traf.route;
    }
  }

  /**
   * The third loop of `resumenav`: every aircraft whose resolution is not
   * active, in index order, has its channels switched off and goes through
   * recovery.
   */
  method RecoverAll(traf: Traf, t: Tick, log: CommandStack)
    requires traf.Valid() && t.Valid()
    requires t == Tick(traf.ac, traf.reso, traf.ap, traf.route, traf.preresoroute, t.act, traf.active, t.probe)
    modifies traf`reso, traf`ap, traf`route, log
    ensures traf.Valid() && traf.ac == t.ac && traf.active == t.active
    ensures Visited(t, |t.ac|, traf.reso, traf.ap, traf.route)
    ensures log.cmds == old(log.cmds) + t.Cmds(|t.ac|)
  {
    ghost var cmds0 := log.cmds;
    VisitedNone(t);
    assert log.cmds == cmds0 + [];
    var idx := 0;
    while idx < |traf.ac|
      invariant 0 <= idx <= |t.ac|
      invariant traf.Valid() && traf.ac == t.ac && traf.active == t.active
      invariant Visited(t, idx, traf.reso, traf.ap, traf.route)
      invariant log.cmds == cmds0 + t.Cmds(idx)
    {
      VisitRecovery(traf, t, log, idx, cmds0);
      idx := idx + 1;
    }
  }

  // ---------------------------------------------------------------- the whole tick

  /**
   * The first two loops of `resumenav` with the rules of hybridreso.py: the
   * new conflict pairs join resopairs, the pairs not kept leave it and
   * their intruders leave the ownships' resoidint; then every ownship's
   * flag is set and the targets of those still resolving are written back.
   */
  method RetainAndHold(traf: Traf, sc: RN.Scene, confpairs: seq<RN.Pair>)
    requires traf.Valid() && sc.Valid() && sc.ac == traf.ac && sc.reso == traf.reso && sc.route == traf.route
    modifies traf`resopairs, traf`reso, traf`active, traf`ap, traf`route
    ensures traf.Valid() && RN.ActiveWaypoints(traf.route, sc.act)
    ensures var all := old(traf.resopairs) + (set p | p in confpairs);
            var changeactive := RN.ChangeActive(RN.HybridResoRules, sc, all);
            var retained := RN.RetainedRows(RN.HybridResoRules, sc, all);
            && traf.resopairs == (set p | p in all && RN.Kept(RN.HybridResoRules, sc, p))
            && traf.reso == retained
            && (forall i :: 0 <= i < |traf.ac| ==>
                  traf.active[i] == if i in changeactive then changeactive[i] else old(traf.active[i]))
            && traf.ap == HeldAps(changeactive, sc.act, retained, old(traf.ap))
            && traf.route == HeldRoutes(changeactive, sc.act, retained, old(traf.route))
  {
    ghost var all := traf.resopairs + (set p | p in confpairs);
    traf.resopairs := traf.resopairs + (set p | p in confpairs);
    var delpairs, changeactive := RN.ScanPairs(traf, RN.HybridResoRules, sc);
    RN.KeptPairs(RN.HybridResoRules, sc, all);
    traf.resopairs := traf.resopairs - delpairs;
    RN.OwnersExist(sc, all);
    SetActiveAndHold(traf, changeactive, sc.act);
  }

  /**
   * `resumenav` of hybridreso.py: the retention pass of module ResumeNav
   * (with `HybridResoRules`), the second loop that sets `active` and writes
   * the targets of the aircraft still resolving back, then recovery of
   * every aircraft left inactive.
   */
  method ResumeNav(traf: Traf, confpairs: seq<RN.Pair>, geometry: RN.Pair -> RN.PairGeometry,
                   probe: ProbeQuery -> bool, act: seq<int>, log: CommandStack)
    requires traf.Valid() && RN.ActiveWaypoints(traf.route, act) && PreResoCovers(traf.preresoroute, act)
    modifies traf`resopairs, traf`reso, traf`active, traf`ap, traf`route, log
    ensures traf.Valid()
    ensures var sc := RN.Scene(traf.ac, old(traf.reso), old(traf.route), act, traf.layerHeight, geometry, probe);
            var all := old(traf.resopairs) + (set p | p in confpairs);
            var changeactive := RN.ChangeActive(RN.HybridResoRules, sc, all);
            var retained := RN.RetainedRows(RN.HybridResoRules, sc, all);
            var t := Tick(traf.ac, retained, HeldAps(changeactive, act, retained, old(traf.ap)),
                          HeldRoutes(changeactive, act, retained, old(traf.route)), traf.preresoroute, act, traf.active, probe);
            && traf.resopairs == (set p | p in all && RN.Kept(RN.HybridResoRules, sc, p))
            && (forall i :: 0 <= i < |traf.ac| ==>
                  traf.active[i] == if i in changeactive then changeactive[i] else old(traf.active[i]))
            && t.Valid()
            && Visited(t, |t.ac|, traf.reso, traf.ap, traf.route)
            && log.cmds == old(log.cmds) + t.Cmds(|t.ac|)
    ensures forall i :: 0 <= i < |traf.ac| && !traf.active[i] ==> traf.reso[i].Idle()
  {
    var sc := RN.Scene(traf.ac, traf.reso, traf.route, act, traf.layerHeight, geometry, probe);
    RetainAndHold(traf, sc, confpairs);
    var t := Tick(traf.ac, traf.reso, traf.ap, traf.route, traf.preresoroute, act, traf.active, probe);
    RecoverAll(traf, t, log);
    InactiveIdle(t, traf.reso, traf.ap, traf.route);
  }
}
