/**
 * The overshoot checker (`overshootCheck`): every half second each aircraft
 * whose active waypoint is the last one of its route compares its distance
 * to that waypoint with the distance it saw the previous time; when the
 * distance grew it has flown past the waypoint, so REROUTEOVERSHOOT is
 * stacked and the remembered distance is reset to the far sentinel.
 */
module OvershootCheck {
  import opened Wrappers
  import opened Traffic
  import opened Stack

  /** The remembered distance of a new aircraft, so that a far last waypoint does not trigger. */
  const Far: real := 99999.0

  /**
   * `calc_dist`: the distance in metres to the active waypoint when it is
   * the one `np.argmax(wpname)` picks, else nothing. An empty route makes
   * `argmax` raise; the handler's sentinels (index -2, latitudes -2 and -1,
   * longitudes -1 and -2) cannot pass the test, so nothing is returned.
   */
  function CalcDist(geo: Geo, a: Aircraft, route: Route): (r: Option<real>)
    requires route.Valid()
  {
    var (sec, lastLat, lastLon, secLat, secLon) :=
      if route.wpname == [] then (-2, -2.0, -1.0, -1.0, -2.0)
      else
        var last := ArgMax(route.wpname);
        (last as int, route.wplat[last], route.wplon[last], route.wplat[last], route.wplon[last]);
    if sec == route.iactwp && lastLat == secLat && lastLon == secLon then
      Some(geo.qdrdist(a.lat, a.lon, route.wplat[route.iactwp], route.wplon[route.iactwp]).1 * Nm)
    else None
  }

  /** A distance is measured exactly when the route has a waypoint and the active one is the greatest-named one. */
  lemma CalcDistWhen(geo: Geo, a: Aircraft, route: Route)
    requires route.Valid()
    ensures CalcDist(geo, a, route).Some? <==> route.wpname != [] && route.iactwp == ArgMax(route.wpname) as int
    ensures CalcDist(geo, a, route).Some? ==>
              CalcDist(geo, a, route).value
              == geo.qdrdist(a.lat, a.lon, route.wplat[route.iactwp], route.wplon[route.iactwp]).1 * Nm
  {
  }

  /** What one check decides: whether the aircraft overshot, and the distance remembered for next time. */
  datatype Verdict = Verdict(overshot: bool, wptdist: real)

  /**
   * `checker`: an overshoot is a measured distance larger than the remembered
   * one; it resets the memory to `Far`. A measured distance that did not grow
   * is remembered; no measurement leaves the memory alone.
   */
  function Check(dist: Option<real>, wptdist: real): (v: Verdict)
    ensures v.overshot <==> dist.Some? && dist.value > wptdist
    ensures v.overshot ==> v.wptdist == Far
    ensures dist.Some? && !v.overshot ==> v.wptdist == dist.value <= wptdist
    ensures dist.None? ==> v.wptdist == wptdist
  {
    if dist.Some? && dist.value > wptdist then Verdict(true, Far)
    else if dist.Some? then Verdict(false, dist.value)
    else Verdict(false, wptdist)
  }

  /** The memory after a series of checks of one aircraft, and whether any of them fired. */
  function Run(dists: seq<Option<real>>, wptdist: real): (v: Verdict)
  {
    if dists == [] then Verdict(false, wptdist)
    else
      var first := Check(dists[0], wptdist);
      var rest := Run(dists[1..], first.wptdist);
      Verdict(first.overshot || rest.overshot, rest.wptdist)
  }

  /** Every measured distance is at most the starting memory and at most every distance measured before it. */
  ghost predicate Approaching(dists: seq<Option<real>>, wptdist: real)
  {
    && (forall i :: 0 <= i < |dists| && dists[i].Some? ==> dists[i].value <= wptdist)
    && (forall i, j :: 0 <= i < j < |dists| && dists[i].Some? && dists[j].Some? ==> dists[j].value <= dists[i].value)
  }

  /**
   * An aircraft that keeps getting closer to its last waypoint (or whose
   * distance is not measured in between) is never reported as overshooting.
   */
  lemma {:induction false} ApproachNeverFires(dists: seq<Option<real>>, wptdist: real)
    requires Approaching(dists, wptdist)
    ensures !Run(dists, wptdist).overshot
  {
    if dists != [] {
      var w := Check(dists[0], wptdist).wptdist;
      assert Approaching(dists[1..], w) by {
        forall i | 0 <= i < |dists[1..]| && dists[1..][i].Some?
          ensures dists[1..][i].value <= w
        {
          assert dists[1..][i] == dists[i + 1];
        }
        forall i, j | 0 <= i < j < |dists[1..]| && dists[1..][i].Some? && dists[1..][j].Some?
          ensures dists[1..][j].value <= dists[1..][i].value
        {
          assert dists[1..][i] == dists[i + 1] && dists[1..][j] == dists[j + 1];
        }
      }
      ApproachNeverFires(dists[1..], w);
    }
  }

  /** Once fired, the memory is `Far`, so the next check fires only beyond 99999 m. */
  lemma FiredResets(dist: Option<real>, wptdist: real, next: Option<real>)
    requires Check(dist, wptdist).overshot
    ensures Check(next, Check(dist, wptdist).wptdist).overshot <==> next.Some? && next.value > Far
  {
  }

  /** The commands one update stacks for aircraft 0 .. n-1, given the memories before it. */
  function OvershootCmds(geo: Geo, ac: seq<Aircraft>, route: seq<Route>, wptdist: seq<real>, n: nat): (cs: seq<Cmd>)
    requires n <= |ac| == |route| == |wptdist|
    requires forall i :: 0 <= i < |route| ==> route[i].Valid()
    ensures |cs| <= n
  {
    if n == 0 then []
    else
      OvershootCmds(geo, ac, route, wptdist, n - 1)
      + (if Check(CalcDist(geo, ac[n - 1], route[n - 1]), wptdist[n - 1]).overshot
         then [RerouteOvershoot(ac[n - 1].id)] else [])
  }

  /** Every command one update stacks is REROUTEOVERSHOOT for one of the aircraft checked. */
  lemma {:induction false} OvershootCmdsFrom(geo: Geo, ac: seq<Aircraft>, route: seq<Route>, wptdist: seq<real>, n: nat)
    requires n <= |ac| == |route| == |wptdist|
    requires forall i :: 0 <= i < |route| ==> route[i].Valid()
    ensures forall c :: c in OvershootCmds(geo, ac, route, wptdist, n) ==>
              exists j :: 0 <= j < n && c == RerouteOvershoot(ac[j].id)
  {
    if n > 0 {
      OvershootCmdsFrom(geo, ac, route, wptdist, n - 1);
    }
  }

  /** REROUTEOVERSHOOT is stacked for aircraft i exactly when its check fires. */
  lemma {:induction false} OvershootCmdsMembers(geo: Geo, ac: seq<Aircraft>, route: seq<Route>, wptdist: seq<real>, n: nat)
    requires n <= |ac| == |route| == |wptdist|
    requires forall i :: 0 <= i < |route| ==> route[i].Valid()
    requires UniqueCallsigns(ac)
    ensures forall i :: 0 <= i < n ==>
              (RerouteOvershoot(ac[i].id) in OvershootCmds(geo, ac, route, wptdist, n)
               <==> Check(CalcDist(geo, ac[i], route[i]), wptdist[i]).overshot)
  {
    if n > 0 {
      OvershootCmdsMembers(geo, ac, route, wptdist, n - 1);
      OvershootCmdsFrom(geo, ac, route, wptdist, n - 1);
    }
  }

  /** Aircraft 0 .. k-1 hold their verdicts and new memories; the others still hold their old memories. */
  ghost predicate CheckedUpTo(geo: Geo, ac: seq<Aircraft>, route: seq<Route>, w0: seq<real>,
                              overshot: seq<bool>, wptdist: seq<real>, k: nat)
    requires k <= |ac| == |route| == |w0| == |overshot| == |wptdist|
    requires forall i :: 0 <= i < |route| ==> route[i].Valid()
  {
    && (forall i :: k <= i < |ac| ==> wptdist[i] == w0[i])
    && (forall i :: 0 <= i < k ==>
          overshot[i] == Check(CalcDist(geo, ac[i], route[i]), w0[i]).overshot
          && wptdist[i] == Check(CalcDist(geo, ac[i], route[i]), w0[i]).wptdist)
  }

  /** Appending one aircraft's commands extends the stacked prefix by one aircraft. */
  lemma CmdsStep(geo: Geo, ac: seq<Aircraft>, route: seq<Route>, w0: seq<real>, k: nat, before: seq<Cmd>, val: bool)
    requires k < |ac| == |route| == |w0|
    requires forall i :: 0 <= i < |route| ==> route[i].Valid()
    requires val == Check(CalcDist(geo, ac[k], route[k]), w0[k]).overshot
    ensures before + OvershootCmds(geo, ac, route, w0, k) + (if val then [RerouteOvershoot(ac[k].id)] else [])
            == before + OvershootCmds(geo, ac, route, w0, k + 1)
  {
  }

  class Overshoot {
    var overshot: seq<bool>
    var wptdist: seq<real>

    constructor ()
      ensures overshot == [] && wptdist == []
    {
      overshot, wptdist := [], [];
    }

    /** `create(n)`: n new aircraft, not overshot, remembering `Far`. */
    method Create(n: nat)
      modifies this
      ensures overshot == old(overshot) + seq(n, _ => false)
      ensures wptdist == old(wptdist) + seq(n, _ => Far)
    {
      overshot := overshot + seq(n, _ => false);
      wptdist := wptdist + seq(n, _ => Far);
    }

    /** `checker(idx, dist)`: decide, remember, and stack REROUTEOVERSHOOT when the aircraft overshot. */
    method Checker(id: string, idx: nat, dist: Option<real>, log: CommandStack) returns (val: bool)
      requires idx < |wptdist|
      modifies this, log
      ensures val == Check(dist, old(wptdist[idx])).overshot
      ensures wptdist == old(wptdist)[idx := Check(dist, old(wptdist[idx])).wptdist]
      ensures overshot == old(overshot)
      ensures log.cmds == old(log.cmds) + (if val then [RerouteOvershoot(id)] else [])
    {
      if dist.Some? && dist.value > wptdist[idx] {
        val := true;
        log.Push(RerouteOvershoot(id));
        wptdist := wptdist[idx := Far];
      } else if dist.Some? {
        val := false;
        wptdist := wptdist[idx := dist.value];
      } else {
        val := false;
      }
    }

    /**
     * `update`: every aircraft is checked once, against its own memory; its
     * verdict is stored in `overshot` and its memory replaced.
     */
    method Update(geo: Geo, traf: Traf, log: CommandStack)
      requires |overshot| == |wptdist| == |traf.ac| == |traf.route|
      requires forall i :: 0 <= i < |traf.route| ==> traf.route[i].Valid()
      requires UniqueCallsigns(traf.ac)
      modifies this, log
      ensures |overshot| == |wptdist| == |traf.ac|
      ensures forall i :: 0 <= i < |traf.ac| ==>
                var v := Check(CalcDist(geo, traf.ac[i], traf.route[i]), old(wptdist[i]));
                overshot[i] == v.overshot && wptdist[i] == v.wptdist
      ensures log.cmds == old(log.cmds) + OvershootCmds(geo, traf.ac, traf.route, old(wptdist), |traf.ac|)
    {
      ghost var w0 := wptdist;
      ghost var base := log.cmds;
      var k := 0;
      while k < |traf.ac|
        invariant k <= |traf.ac|
        invariant Progress(geo, traf, w0, base, log, k)
      {
        Turn(geo, traf, w0, base, k, log);
        k := k + 1;
      }
    }

    /** Update has checked aircraft 0 .. k-1 against the memories w0 and stacked their commands after `base`. */
    ghost predicate Progress(geo: Geo, traf: Traf, w0: seq<real>, base: seq<Cmd>, log: CommandStack, k: nat)
      reads this, log, traf
    {
      && k <= |overshot| == |wptdist| == |traf.ac| == |traf.route| == |w0|
      && (forall i :: 0 <= i < |traf.route| ==> traf.route[i].Valid())
      && CheckedUpTo(geo, traf.ac, traf.route, w0, overshot, wptdist, k)
      && log.cmds == base + OvershootCmds(geo, traf.ac, traf.route, w0, k)
    }

    /** One pass of `update`'s loop: aircraft k, found by its callsign, is checked. */
    method Turn(geo: Geo, traf: Traf, ghost w0: seq<real>, ghost base: seq<Cmd>, k: nat, log: CommandStack)
      requires k < |traf.ac| && UniqueCallsigns(traf.ac)
      requires Progress(geo, traf, w0, base, log, k)
      modifies this, log
      ensures Progress(geo, traf, w0, base, log, k + 1)
    {
      var idx := IdIndex(traf.ac, traf.ac[k].id);
      IdIndexOwn(traf.ac, k);
      var dist := CalcDist(geo, traf.ac[idx], traf.route[idx]);
      var val := Checker(traf.ac[idx].id, idx, dist, log);
      CmdsStep(geo, traf.ac, traf.route, w0, k, base, val);
      overshot := overshot[idx := val];
    }

    /** `getacovershot(idx)`: the stored verdict of one aircraft. */
    function GetAcOvershot(idx: nat): (val: bool)
      reads this
      requires idx < |overshot|
    {
      overshot[idx]
    }

    /** `echoacovershot(idx)`: the message the command answers with. */
    function EchoAcOvershot(id: string, idx: nat): (text: string)
      reads this
      requires idx < |overshot|
      ensures |text| > |id| && text[..|id|] == id
      ensures text == id + " has overshot." <==> overshot[idx]
    {
      OvershotText(id, overshot[idx]);
      if GetAcOvershot(idx) then id + " has overshot." else id + " has not overshot."
    }

    /**
     * In the state `update` leaves, the echo of aircraft i says "has
     * overshot." exactly when its distance to the active waypoint is known
     * and exceeds the distance remembered before the update.
     */
    lemma EchoAfterUpdate(geo: Geo, traf: Traf, w0: seq<real>, i: nat)
      requires |overshot| == |wptdist| == |traf.ac| == |traf.route| == |w0| && i < |traf.ac|
      requires forall k :: 0 <= k < |traf.route| ==> traf.route[k].Valid()
      requires forall k :: 0 <= k < |traf.ac| ==>
                 var v := Check(CalcDist(geo, traf.ac[k], traf.route[k]), w0[k]);
                 overshot[k] == v.overshot && wptdist[k] == v.wptdist
      ensures EchoAcOvershot(traf.ac[i].id, i) == traf.ac[i].id + " has overshot." <==>
                var d := CalcDist(geo, traf.ac[i], traf.route[i]);
                d.Some? && d.value > w0[i]
    {
      assert overshot[i] == Check(CalcDist(geo, traf.ac[i], traf.route[i]), w0[i]).overshot;
    }
  }

  /** The overshoot echo reads "has overshot." exactly for an overshoot. */
  lemma OvershotText(id: string, b: bool)
    ensures (if b then id + " has overshot." else id + " has not overshot.") == id + " has overshot." <==> b
  {
    assert |id + " has not overshot."| != |id + " has overshot."|;
  }
}
