/**
 * The descend checker (`descendcheck`): an aircraft that is not resolving a
 * conflict and whose active waypoint is the top of descent (the waypoint
 * just before the greatest-named one) is told to stop over that waypoint,
 * descend to -5 and be deleted on reaching altitude 0.
 */
module DescendCheck {
  import opened Traffic
  import opened Stack

  /** The ATDIST trigger distance around the top of descent, in nm. */
  const TodDist: real := 0.0215982

  /**
   * The commands `update` stacks for one aircraft: none unless it has an
   * active waypoint, its strategy is "None" and conflict resolution is not
   * active for it; then, when the active waypoint is the one before
   * `np.argmax(wpname)`, the stop, the descent and the delete.
   */
  function DescendCmdsAt(a: Aircraft, route: Route, strategy: Strategy, active: bool): seq<Cmd>
    requires route.Valid()
  {
    if route.iactwp > -1 && strategy == NoReso && !active then
      var sec := ArgMax(route.wpname) as int - 1;
      var lat := PyIndex(route.wplat, sec);
      var lon := PyIndex(route.wplon, sec);
      if route.iactwp == sec then
        [AtDistSpd(a.id, lat, lon, TodDist, 0.0),
         AtDistAtSpdAlt(a.id, lat, lon, TodDist, 0.0, -5.0),
         AtAltDel(a.id, 0.0)]
      else []
    else []
  }

  /** The aircraft descends from its active waypoint exactly when it is the top of descent and nothing else is going on. */
  predicate AtTopOfDescent(route: Route, strategy: Strategy, active: bool)
    requires route.Valid()
  {
    route.iactwp >= 0 && strategy == NoReso && !active && route.iactwp == ArgMax(route.wpname) as int - 1
  }

  /**
   * The descent is commanded exactly at the top of descent, anchored on the
   * active waypoint itself; otherwise nothing is stacked.
   */
  lemma DescendCmdsAtCases(a: Aircraft, route: Route, strategy: Strategy, active: bool)
    requires route.Valid()
    ensures var cs := DescendCmdsAt(a, route, strategy, active);
            && (cs != [] <==> AtTopOfDescent(route, strategy, active))
            && (cs != [] ==>
                  var (lat, lon) := (route.wplat[route.iactwp], route.wplon[route.iactwp]);
                  cs == [AtDistSpd(a.id, lat, lon, TodDist, 0.0),
                         AtDistAtSpdAlt(a.id, lat, lon, TodDist, 0.0, -5.0),
                         AtAltDel(a.id, 0.0)])
  {
  }

  /** The top of descent is never the greatest-named waypoint itself, so a one-waypoint route never descends this way. */
  lemma NoDescentOnSingleWaypoint(a: Aircraft, route: Route, strategy: Strategy, active: bool)
    requires route.Valid() && |route.wpname| == 1
    ensures DescendCmdsAt(a, route, strategy, active) == []
  {
  }

  /** The commands one update stacks for aircraft 0 .. n-1. */
  function DescendCmds(ac: seq<Aircraft>, route: seq<Route>, reso: seq<ResoRow>, active: seq<bool>, n: nat): (cs: seq<Cmd>)
    requires n <= |ac| == |route| == |reso| == |active|
    requires forall i :: 0 <= i < |route| ==> route[i].Valid()
    ensures |cs| <= 3 * n
  {
    if n == 0 then []
    else DescendCmds(ac, route, reso, active, n - 1)
         + DescendCmdsAt(ac[n - 1], route[n - 1], reso[n - 1].strategy, active[n - 1])
  }

  /** One aircraft's commands hold a delete-on-landing for x exactly when it is at its top of descent under callsign x. */
  lemma DeleteAt(a: Aircraft, route: Route, strategy: Strategy, active: bool, x: string)
    requires route.Valid()
    ensures AtAltDel(x, 0.0) in DescendCmdsAt(a, route, strategy, active) <==> AtTopOfDescent(route, strategy, active) && a.id == x
  {
    DescendCmdsAtCases(a, route, strategy, active);
  }

  /** Aircraft j is at its top of descent under callsign x. */
  predicate DescendsAs(ac: seq<Aircraft>, route: seq<Route>, reso: seq<ResoRow>, active: seq<bool>, j: nat, x: string)
    requires j < |ac| == |route| == |reso| == |active| && route[j].Valid()
  {
    AtTopOfDescent(route[j], reso[j].strategy, active[j]) && ac[j].id == x
  }

  /** A delete-on-landing for callsign x is stacked exactly when some aircraft under x is at its top of descent. */
  lemma {:induction false} DescendDeletes(ac: seq<Aircraft>, route: seq<Route>, reso: seq<ResoRow>, active: seq<bool>,
                                          n: nat, x: string)
    requires n <= |ac| == |route| == |reso| == |active|
    requires forall i :: 0 <= i < |route| ==> route[i].Valid()
    ensures AtAltDel(x, 0.0) in DescendCmds(ac, route, reso, active, n)
            <==> exists j :: 0 <= j < n && DescendsAs(ac, route, reso, active, j, x)
  {
    if n > 0 {
      var pre := DescendCmds(ac, route, reso, active, n - 1);
      var cs := DescendCmdsAt(ac[n - 1], route[n - 1], reso[n - 1].strategy, active[n - 1]);
      DescendDeletes(ac, route, reso, active, n - 1, x);
      DeleteAt(ac[n - 1], route[n - 1], reso[n - 1].strategy, active[n - 1], x);
      assert DescendCmds(ac, route, reso, active, n) == pre + cs;
      if AtAltDel(x, 0.0) in pre {
        var j :| 0 <= j < n - 1 && DescendsAs(ac, route, reso, active, j, x);
      } else if AtAltDel(x, 0.0) in cs {
        assert DescendsAs(ac, route, reso, active, n - 1, x);
      }
      if exists j :: 0 <= j < n && DescendsAs(ac, route, reso, active, j, x) {
        var j :| 0 <= j < n && DescendsAs(ac, route, reso, active, j, x);
        if j < n - 1 {
          assert AtAltDel(x, 0.0) in pre;
        } else {
          assert AtAltDel(x, 0.0) in cs;
        }
      }
    }
  }

  /** With unique callsigns, aircraft i's delete-on-landing is stacked exactly when it is at its top of descent. */
  lemma DescendCmdsMembers(ac: seq<Aircraft>, route: seq<Route>, reso: seq<ResoRow>, active: seq<bool>, n: nat, i: nat)
    requires i < n <= |ac| == |route| == |reso| == |active|
    requires forall k :: 0 <= k < |route| ==> route[k].Valid()
    requires UniqueCallsigns(ac)
    ensures AtAltDel(ac[i].id, 0.0) in DescendCmds(ac, route, reso, active, n)
            <==> AtTopOfDescent(route[i], reso[i].strategy, active[i])
  {
    DescendDeletes(ac, route, reso, active, n, ac[i].id);
    if AtAltDel(ac[i].id, 0.0) in DescendCmds(ac, route, reso, active, n) {
      var j :| 0 <= j < n && DescendsAs(ac, route, reso, active, j, ac[i].id);
      assert j == i;
    } else {
      assert !DescendsAs(ac, route, reso, active, i, ac[i].id);
    }
  }

  /** Aircraft n's commands extend the stacked prefix by one aircraft. */
  lemma DescendStep(ac: seq<Aircraft>, route: seq<Route>, reso: seq<ResoRow>, active: seq<bool>, n: nat, before: seq<Cmd>)
    requires n < |ac| == |route| == |reso| == |active|
    requires forall i :: 0 <= i < |route| ==> route[i].Valid()
    ensures before + DescendCmds(ac, route, reso, active, n) + DescendCmdsAt(ac[n], route[n], reso[n].strategy, active[n])
            == before + DescendCmds(ac, route, reso, active, n + 1)
  {
  }

  /** `update`: every aircraft in index order; only the command stack changes. */
  method Update(traf: Traf, log: CommandStack)
    requires traf.Valid()
    requires forall i :: 0 <= i < |traf.route| ==> traf.route[i].Valid()
    modifies log
    ensures log.cmds == old(log.cmds) + DescendCmds(traf.ac, traf.route, traf.reso, traf.active, |traf.ac|)
  {
    ghost var base := log.cmds;
    var idx := 0;
    while idx < |traf.ac|
      invariant 0 <= idx <= |traf.ac|
      invariant log.cmds == base + DescendCmds(traf.ac, traf.route, traf.reso, traf.active, idx)
    {
      DescendStep(traf.ac, traf.route, traf.reso, traf.active, idx, base);
      CheckOne(traf, idx, log);
      assert log.cmds == base + DescendCmds(traf.ac, traf.route, traf.reso, traf.active, idx + 1);
      idx := idx + 1;
    }
  }

  /** The body of `update`'s loop for aircraft idx. */
  method CheckOne(traf: Traf, idx: nat, log: CommandStack)
    requires traf.Valid() && idx < |traf.ac|
    requires forall i :: 0 <= i < |traf.route| ==> traf.route[i].Valid()
    modifies log
    ensures log.cmds == old(log.cmds) + DescendCmdsAt(traf.ac[idx], traf.route[idx], traf.reso[idx].strategy, traf.active[idx])
  {
    var route := traf.route[idx];
    var iwpid := route.iactwp;
    if iwpid > -1 && traf.reso[idx].strategy == NoReso && !traf.active[idx] {
      var sec := ArgMax(route.wpname) as int - 1;
      var lat := PyIndex(route.wplat, sec);
      var lon := PyIndex(route.wplon, sec);
      if iwpid == sec {
        var id := traf.ac[idx].id;
        log.Push(AtDistSpd(id, lat, lon, TodDist, 0.0));
        log.Push(AtDistAtSpdAlt(id, lat, lon, TodDist, 0.0, -5.0));
        log.Push(AtAltDel(id, 0.0));
      }
    }
  }
}
