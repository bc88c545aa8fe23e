/**
 * The state checker (`checkState`): every five seconds, for each aircraft,
 * the geofence check, the overshoot check, a one-off DELWPT of the route's
 * last waypoint the first time a callsign is seen, and the descent gate
 * (ask the descent checker while it has not said yes and the aircraft is
 * neither loitering nor resolving; otherwise delete an aircraft that is
 * below one foot).
 */
module CheckState {
  import opened Wrappers
  import opened Traffic
  import opened Stack
  import GF = InGeoFence
  import OC = OvershootCheck

  /** The arrays `checkState` keeps per aircraft, plus the callsigns it has seen (`reference_ac`). */
  datatype Arrays = Arrays(startDescend: seq<bool>, overshot: seq<bool>, wptdist: seq<real>,
                           ingeofence: seq<bool>, acingeofence: seq<bool>, referenceAc: seq<string>)
  {
    predicate Sized(n: nat)
    {
      |startDescend| == n && |overshot| == n && |wptdist| == n && |ingeofence| == n && |acingeofence| == n
    }
  }

  /**
   * What one update reads: the traffic, `traf.loiter.geodurations` (set by
   * the loitering plugin), the answer the descent checker gives for each
   * aircraft, and for each aircraft the geofence checker's answers and the
   * distance `calc_dist` measures (both depend on the traffic and the
   * geofences only; `MeasuredAt` ties them to the checkers).
   */
  datatype Scene = Scene(ac: seq<Aircraft>, route: seq<Route>, reso: seq<ResoRow>,
                         geodurations: seq<string>, descend: seq<bool>,
                         fence: seq<GF.Assessment>, dist: seq<Option<real>>)
  {
    ghost predicate Valid()
    {
      && |route| == |ac| && |reso| == |ac| && |geodurations| == |ac| && |descend| == |ac|
      && |fence| == |ac| && |dist| == |ac|
      && (forall i :: 0 <= i < |route| ==> route[i].Valid())
    }
  }

  /** Aircraft i's geofence answers and distance are what the two checkers compute for it. */
  ghost predicate MeasuredAt(geo: Geo, shapes: GF.Shapes, fences: seq<seq<real>>, sc: Scene, i: nat)
    requires sc.Valid() && i < |sc.ac|
  {
    && sc.fence[i] == GF.Assess(shapes, fences, sc.ac[i], sc.route[i])
    && sc.dist[i] == OC.CalcDist(geo, sc.ac[i], sc.route[i])
  }

  ghost predicate Measured(geo: Geo, shapes: GF.Shapes, fences: seq<seq<real>>, sc: Scene)
    requires sc.Valid()
  {
    forall i :: 0 <= i < |sc.ac| ==> MeasuredAt(geo, shapes, fences, sc, i)
  }

  /** The overshoot verdict for aircraft i, remembering `w`. */
  function Overshoot(sc: Scene, w: real, i: nat): OC.Verdict
    requires sc.Valid() && i < |sc.ac|
  {
    OC.Check(sc.dist[i], w)
  }

  /** Aircraft i is seen for the first time and has an empty route: `wpname[-1]` raises IndexError. */
  predicate Fails(sc: Scene, seen: seq<string>, i: nat)
    requires sc.Valid() && i < |sc.ac|
  {
    sc.ac[i].id !in seen && sc.route[i].wpname == []
  }

  /** The descent gate: the descent checker is asked only while it has not said yes and nothing else holds the aircraft. */
  predicate AsksDescend(sc: Scene, started: bool, i: nat)
    requires sc.Valid() && i < |sc.ac|
  {
    !started && sc.geodurations[i] == "" && sc.reso[i].strategy == NoReso
  }

  /** `startDescend` of aircraft i after its turn: the descent checker's answer when asked; once true it stays true. */
  function Started(sc: Scene, started: bool, i: nat): (r: bool)
    requires sc.Valid() && i < |sc.ac|
    ensures started ==> r
    ensures !AsksDescend(sc, started, i) ==> r == started
  {
    if AsksDescend(sc, started, i) then sc.descend[i] else started
  }

  /** `wpname[-1]`, read only for a new callsign, whose route is then non-empty. */
  function LastName(route: Route): string
  {
    if route.wpname == [] then "" else route.wpname[|route.wpname| - 1]
  }

  /** The reroutes a turn asks for: REROUTEGEOFENCE as the geofence checker decides, then REROUTEOVERSHOOT. */
  function ReportCmds(id: string, g: GF.Assessment, v: OC.Verdict): (cs: seq<Cmd>)
    ensures RerouteGeofence(id) in cs <==> GF.Reroutes(g)
    ensures RerouteOvershoot(id) in cs <==> v.overshot
    ensures forall c :: c in cs ==> c == RerouteGeofence(id) || c == RerouteOvershoot(id)
  {
    (if GF.Reroutes(g) then [RerouteGeofence(id)] else []) + (if v.overshot then [RerouteOvershoot(id)] else [])
  }

  /** The rest of a turn that does not raise: DELWPT of the last waypoint for a new callsign, DEL below one foot when the gate is closed. */
  function HouseCmds(id: string, lastWp: string, isNew: bool, gateClosed: bool, low: bool): (cs: seq<Cmd>)
    ensures forall x :: DelWpt(id, x) in cs <==> isNew && x == lastWp
    ensures Del(id) in cs <==> gateClosed && low
    ensures forall c :: c in cs ==> c == DelWpt(id, lastWp) || c == Del(id)
  {
    (if isNew then [DelWpt(id, lastWp)] else []) + (if gateClosed && low then [Del(id)] else [])
  }

  /** The housekeeping commands of aircraft i's turn, nothing when it raises. */
  function TurnHouseCmds(sc: Scene, started: bool, seen: seq<string>, i: nat): seq<Cmd>
    requires sc.Valid() && i < |sc.ac|
  {
    var a := sc.ac[i];
    if Fails(sc, seen, i) then []
    else HouseCmds(a.id, LastName(sc.route[i]), a.id !in seen, !AsksDescend(sc, started, i), a.alt < 1.0 * Ft)
  }

  /** The commands of aircraft i's turn, given its remembered distance, its `startDescend` and the callsigns seen before. */
  function AircraftCmds(sc: Scene, w: real, started: bool, seen: seq<string>, i: nat): seq<Cmd>
    requires sc.Valid() && i < |sc.ac|
  {
    ReportCmds(sc.ac[i].id, sc.fence[i], Overshoot(sc, w, i)) + TurnHouseCmds(sc, started, seen, i)
  }

  /**
   * The commands of one turn: REROUTEGEOFENCE and REROUTEOVERSHOOT as the two
   * checkers decide; DELWPT of the last waypoint only for a callsign not
   * seen before and with a route; DEL only when the turn does not raise, the
   * descent gate is closed and the aircraft is below one foot.
   */
  lemma AircraftCmdsCases(sc: Scene, w: real, started: bool, seen: seq<string>, i: nat)
    requires sc.Valid() && i < |sc.ac|
    ensures var cs := AircraftCmds(sc, w, started, seen, i);
            var a := sc.ac[i];
            && (RerouteGeofence(a.id) in cs <==> GF.Reroutes(sc.fence[i]))
            && (RerouteOvershoot(a.id) in cs <==> Overshoot(sc, w, i).overshot)
            && (forall x :: DelWpt(a.id, x) in cs <==>
                  a.id !in seen && sc.route[i].wpname != [] && x == sc.route[i].wpname[|sc.route[i].wpname| - 1])
            && (Del(a.id) in cs <==> !Fails(sc, seen, i) && !AsksDescend(sc, started, i) && a.alt < 1.0 * Ft)
  {
    var a := sc.ac[i];
    var rs := ReportCmds(a.id, sc.fence[i], Overshoot(sc, w, i));
    var hs := TurnHouseCmds(sc, started, seen, i);
    assert AircraftCmds(sc, w, started, seen, i) == rs + hs;
    InEither(rs, hs, RerouteGeofence(a.id));
    InEither(rs, hs, RerouteOvershoot(a.id));
    InEither(rs, hs, Del(a.id));
    forall x {
      InEither(rs, hs, DelWpt(a.id, x));
    }
  }

  /** A command is in two blocks stacked together when it is in one of them. */
  lemma InEither(first: seq<Cmd>, second: seq<Cmd>, c: Cmd)
    ensures c in first + second <==> c in first || c in second
  {
  }

  /** Every command of aircraft i's turn is about aircraft i. */
  lemma AircraftCmdsOwn(sc: Scene, w: real, started: bool, seen: seq<string>, i: nat, c: Cmd)
    requires sc.Valid() && i < |sc.ac|
    requires c in AircraftCmds(sc, w, started, seen, i)
    ensures c == RerouteGeofence(sc.ac[i].id) || c == RerouteOvershoot(sc.ac[i].id) || c == Del(sc.ac[i].id)
            || c == DelWpt(sc.ac[i].id, LastName(sc.route[i]))
  {
    var rs := ReportCmds(sc.ac[i].id, sc.fence[i], Overshoot(sc, w, i));
    var hs := TurnHouseCmds(sc, started, seen, i);
    assert c in rs || c in hs;
  }

  /** The first aircraft whose turn raises IndexError, or |ac| when none does. */
  function FirstFail(sc: Scene, seen: seq<string>, from: nat): (stop: nat)
    requires sc.Valid() && from <= |sc.ac|
    ensures from <= stop <= |sc.ac|
    ensures forall i :: from <= i < stop ==> !Fails(sc, seen, i)
    ensures stop < |sc.ac| ==> Fails(sc, seen, stop)
    decreases |sc.ac| - from
  {
    if from == |sc.ac| then from
    else if Fails(sc, seen, from) then from
    else FirstFail(sc, seen, from + 1)
  }

  /** How many aircraft have their turn: all of them, or up to and including the first whose turn raises. */
  function TurnsTaken(sc: Scene, seen: seq<string>): (t: nat)
    requires sc.Valid()
    ensures FirstFail(sc, seen, 0) <= t <= |sc.ac|
    ensures t < |sc.ac| ==> t > 0 && Fails(sc, seen, t - 1)
  {
    var stop := FirstFail(sc, seen, 0);
    if stop == |sc.ac| then stop else stop + 1
  }

  /** The callsigns of aircraft 0 .. k-1 not seen before, in order: what `reference_ac` gains. */
  function NewIds(sc: Scene, seen: seq<string>, k: nat): (ids: seq<string>)
    requires sc.Valid() && k <= |sc.ac|
    ensures forall x :: x in ids ==> x !in seen
  {
    if k == 0 then []
    else NewIds(sc, seen, k - 1) + (if sc.ac[k - 1].id in seen then [] else [sc.ac[k - 1].id])
  }

  /** Exactly the callsigns of processed aircraft that were not seen before are gained. */
  lemma {:induction false} NewIdsMembers(sc: Scene, seen: seq<string>, k: nat)
    requires sc.Valid() && k <= |sc.ac|
    ensures forall x :: x in NewIds(sc, seen, k) <==> x !in seen && exists j :: 0 <= j < k && sc.ac[j].id == x
  {
    if k > 0 {
      NewIdsMembers(sc, seen, k - 1);
      var x := sc.ac[k - 1].id;
      assert x !in seen ==> x in NewIds(sc, seen, k);
    }
  }

  /** With unique callsigns, the callsigns gained are all different, so `reference_ac` never holds one twice. */
  lemma {:induction false} NewIdsNoDup(sc: Scene, seen: seq<string>, k: nat)
    requires sc.Valid() && k <= |sc.ac| && UniqueCallsigns(sc.ac) && NoDup(seen)
    ensures NoDup(seen + NewIds(sc, seen, k))
  {
    if k > 0 {
      NewIdsNoDup(sc, seen, k - 1);
      var x := sc.ac[k - 1].id;
      var before := seen + NewIds(sc, seen, k - 1);
      if x !in seen {
        NewIdsMembers(sc, seen, k - 1);
        assert x !in before;
        assert seen + NewIds(sc, seen, k) == before + [x];
        forall i, j | 0 <= i < j < |before + [x]|
          ensures (before + [x])[i] != (before + [x])[j]
        {
          if j < |before| {
            assert (before + [x])[i] == before[i] && (before + [x])[j] == before[j];
          } else {
            assert (before + [x])[i] == before[i];
          }
        }
      } else {
        assert seen + NewIds(sc, seen, k) == before;
      }
    }
  }

  /** With unique callsigns, aircraft k's own callsign is seen after k turns exactly when it was seen before the update. */
  lemma SeenBefore(sc: Scene, seen: seq<string>, k: nat)
    requires sc.Valid() && k < |sc.ac| && UniqueCallsigns(sc.ac)
    ensures sc.ac[k].id in seen + NewIds(sc, seen, k) <==> sc.ac[k].id in seen
  {
    NewIdsMembers(sc, seen, k);
  }

  /** A turn that does not raise adds the aircraft's callsign to those seen when it is new. */
  lemma NewIdsStep(sc: Scene, seen: seq<string>, k: nat)
    requires sc.Valid() && k < |sc.ac| && UniqueCallsigns(sc.ac)
    ensures var now := seen + NewIds(sc, seen, k);
            now + (if sc.ac[k].id !in now then [sc.ac[k].id] else []) == seen + NewIds(sc, seen, k + 1)
  {
    SeenBefore(sc, seen, k);
  }

  /** The commands of the turns of aircraft 0 .. k-1, each against the arrays as they were before the update. */
  function UpdateCmds(sc: Scene, st: Arrays, k: nat): seq<Cmd>
    requires sc.Valid() && st.Sized(|sc.ac|) && k <= |sc.ac|
  {
    if k == 0 then []
    else UpdateCmds(sc, st, k - 1)
         + AircraftCmds(sc, st.wptdist[k - 1], st.startDescend[k - 1], st.referenceAc, k - 1)
  }

  /** Aircraft k's turn, run against arrays that still hold its entries from before the update, extends the update's commands. */
  lemma UpdateCmdsStep(sc: Scene, st0: Arrays, st: Arrays, k: nat, before: seq<Cmd>)
    requires sc.Valid() && st0.Sized(|sc.ac|) && st.Sized(|sc.ac|) && k < |sc.ac|
    requires st.wptdist[k] == st0.wptdist[k] && st.startDescend[k] == st0.startDescend[k]
    requires sc.ac[k].id in st.referenceAc <==> sc.ac[k].id in st0.referenceAc
    ensures before + UpdateCmds(sc, st0, k) + AircraftCmds(sc, st.wptdist[k], st.startDescend[k], st.referenceAc, k)
            == before + UpdateCmds(sc, st0, k + 1)
  {
    var cs := AircraftCmds(sc, st0.wptdist[k], st0.startDescend[k], st0.referenceAc, k);
    assert TurnHouseCmds(sc, st.startDescend[k], st.referenceAc, k)
           == TurnHouseCmds(sc, st0.startDescend[k], st0.referenceAc, k);
    assert AircraftCmds(sc, st.wptdist[k], st.startDescend[k], st.referenceAc, k) == cs;
    assert UpdateCmds(sc, st0, k + 1) == UpdateCmds(sc, st0, k) + cs;
    StackedInBlocks(before, UpdateCmds(sc, st0, k), cs);
  }

  /** Every command of an update is about one of the aircraft that had a turn. */
  lemma {:induction false} UpdateCmdsFrom(sc: Scene, st: Arrays, k: nat, c: Cmd)
    requires sc.Valid() && st.Sized(|sc.ac|) && k <= |sc.ac|
    requires c in UpdateCmds(sc, st, k)
    ensures exists j :: 0 <= j < k && c in AircraftCmds(sc, st.wptdist[j], st.startDescend[j], st.referenceAc, j)
  {
    if k > 0 {
      var prev := UpdateCmds(sc, st, k - 1);
      var cs := AircraftCmds(sc, st.wptdist[k - 1], st.startDescend[k - 1], st.referenceAc, k - 1);
      assert UpdateCmds(sc, st, k) == prev + cs;
      if c in prev {
        UpdateCmdsFrom(sc, st, k - 1, c);
        var j :| 0 <= j < k - 1 && c in AircraftCmds(sc, st.wptdist[j], st.startDescend[j], st.referenceAc, j);
      } else {
        assert c in cs;
      }
    }
  }

  /** DELWPT is never stacked for a callsign already seen, so each callsign gets it once over all updates. */
  lemma DelWptOnlyNew(sc: Scene, st: Arrays, k: nat, x: string, w: string)
    requires sc.Valid() && st.Sized(|sc.ac|) && k <= |sc.ac|
    requires DelWpt(x, w) in UpdateCmds(sc, st, k)
    ensures x !in st.referenceAc
  {
    UpdateCmdsFrom(sc, st, k, DelWpt(x, w));
    var j :| 0 <= j < k && DelWpt(x, w) in AircraftCmds(sc, st.wptdist[j], st.startDescend[j], st.referenceAc, j);
    AircraftCmdsOwn(sc, st.wptdist[j], st.startDescend[j], st.referenceAc, j, DelWpt(x, w));
    AircraftCmdsCases(sc, st.wptdist[j], st.startDescend[j], st.referenceAc, j);
  }

  /** DEL is only ever stacked for an aircraft below one foot whose descent gate is closed. */
  lemma DelOnlyLow(sc: Scene, st: Arrays, k: nat, x: string)
    requires sc.Valid() && st.Sized(|sc.ac|) && k <= |sc.ac|
    requires Del(x) in UpdateCmds(sc, st, k)
    ensures exists j :: 0 <= j < k && sc.ac[j].id == x && sc.ac[j].alt < 1.0 * Ft
                        && !AsksDescend(sc, st.startDescend[j], j)
  {
    UpdateCmdsFrom(sc, st, k, Del(x));
    var j :| 0 <= j < k && Del(x) in AircraftCmds(sc, st.wptdist[j], st.startDescend[j], st.referenceAc, j);
    AircraftCmdsOwn(sc, st.wptdist[j], st.startDescend[j], st.referenceAc, j, Del(x));
    AircraftCmdsCases(sc, st.wptdist[j], st.startDescend[j], st.referenceAc, j);
  }

  /**
   * The arrays after the turns of aircraft 0 .. checked-1, of which those
   * below `gated` got through the housekeeping (the one at `gated`, when
   * smaller, raised): the geofence and overshoot answers of every checked
   * aircraft are written, the descent gate of every gated aircraft has
   * moved, the new callsigns among them are remembered; every other entry
   * is as it was.
   */
  function Turned(sc: Scene, st0: Arrays, checked: nat, gated: nat): (st: Arrays)
    requires sc.Valid() && st0.Sized(|sc.ac|) && gated <= checked <= |sc.ac|
    ensures st.Sized(|sc.ac|)
  {
    var n := |sc.ac|;
    Arrays(seq(n, i requires 0 <= i < n => if i < gated then Started(sc, st0.startDescend[i], i) else st0.startDescend[i]),
           seq(n, i requires 0 <= i < n => if i < checked then Overshoot(sc, st0.wptdist[i], i).overshot else st0.overshot[i]),
           seq(n, i requires 0 <= i < n => if i < checked then Overshoot(sc, st0.wptdist[i], i).wptdist else st0.wptdist[i]),
           seq(n, i requires 0 <= i < n => if i < checked then sc.fence[i].routeval else st0.ingeofence[i]),
           seq(n, i requires 0 <= i < n => if i < checked then sc.fence[i].acval else st0.acingeofence[i]),
           st0.referenceAc + NewIds(sc, st0.referenceAc, gated))
  }

  /** Aircraft k's turn, from the arrays after k turns, leaves the arrays after k + 1 turns (k + 1 checked, k gated when it raises). */
  lemma TurnStep(sc: Scene, st0: Arrays, st': Arrays, k: nat, gate: bool)
    requires sc.Valid() && st0.Sized(|sc.ac|) && k < |sc.ac|
    requires var st := Turned(sc, st0, k, k);
             && st'.ingeofence == st.ingeofence[k := sc.fence[k].routeval]
             && st'.acingeofence == st.acingeofence[k := sc.fence[k].acval]
             && st'.overshot == st.overshot[k := Overshoot(sc, st.wptdist[k], k).overshot]
             && st'.wptdist == st.wptdist[k := Overshoot(sc, st.wptdist[k], k).wptdist]
             && st'.startDescend == (if gate then st.startDescend[k := Started(sc, st.startDescend[k], k)] else st.startDescend)
             && st'.referenceAc == st.referenceAc + (if gate && sc.ac[k].id !in st.referenceAc then [sc.ac[k].id] else [])
    requires UniqueCallsigns(sc.ac)
    ensures st' == Turned(sc, st0, k + 1, if gate then k + 1 else k)
  {
    NewIdsStep(sc, st0.referenceAc, k);
    CheckedStep(sc, st0, k, k, if gate then k + 1 else k);
    GatedStep(sc, st0, k, gate);
  }

  /** A sequence updated at k is the one that agrees with it everywhere else. */
  lemma UpdatedAt<T>(a: seq<T>, k: nat, x: T, b: seq<T>)
    requires k < |a| == |b| && b[k] == x
    requires forall i :: 0 <= i < |a| && i != k ==> a[i] == b[i]
    ensures a[k := x] == b
  {
  }

  /** Checking aircraft k writes its geofence and overshoot answers and nothing else of those arrays. */
  lemma CheckedStep(sc: Scene, st0: Arrays, k: nat, g: nat, g': nat)
    requires sc.Valid() && st0.Sized(|sc.ac|) && g <= k < |sc.ac| && g' <= k + 1
    ensures var st := Turned(sc, st0, k, g);
            var t := Turned(sc, st0, k + 1, g');
            && t.ingeofence == st.ingeofence[k := sc.fence[k].routeval]
            && t.acingeofence == st.acingeofence[k := sc.fence[k].acval]
            && t.overshot == st.overshot[k := Overshoot(sc, st.wptdist[k], k).overshot]
            && t.wptdist == st.wptdist[k := Overshoot(sc, st.wptdist[k], k).wptdist]
  {
    var st := Turned(sc, st0, k, g);
    var t := Turned(sc, st0, k + 1, g');
    UpdatedAt(st.ingeofence, k, sc.fence[k].routeval, t.ingeofence);
    UpdatedAt(st.acingeofence, k, sc.fence[k].acval, t.acingeofence);
    UpdatedAt(st.overshot, k, Overshoot(sc, st.wptdist[k], k).overshot, t.overshot);
    UpdatedAt(st.wptdist, k, Overshoot(sc, st.wptdist[k], k).wptdist, t.wptdist);
  }

  /** Aircraft k through the housekeeping moves its descent gate; one that raised leaves the gates as they were. */
  lemma GatedStep(sc: Scene, st0: Arrays, k: nat, gate: bool)
    requires sc.Valid() && st0.Sized(|sc.ac|) && k < |sc.ac|
    ensures var st := Turned(sc, st0, k, k);
            var t := Turned(sc, st0, k + 1, if gate then k + 1 else k);
            t.startDescend == if gate then st.startDescend[k := Started(sc, st.startDescend[k], k)] else st.startDescend
  {
    var st := Turned(sc, st0, k, k);
    var t := Turned(sc, st0, k + 1, if gate then k + 1 else k);
    if gate {
      UpdatedAt(st.startDescend, k, Started(sc, st.startDescend[k], k), t.startDescend);
    } else {
      assert t.startDescend == st.startDescend;
    }
  }

  /** Before any turn the arrays are as they were. */
  lemma TurnedNone(sc: Scene, st0: Arrays)
    requires sc.Valid() && st0.Sized(|sc.ac|)
    ensures Turned(sc, st0, 0, 0) == st0
  {
  }

  /** The geofence echo reads "True." exactly for a conflict. */
  lemma GeofenceText(id: string, b: bool)
    ensures id + " geofence conflict " + (if b then "True" else "False") + "." == id + " geofence conflict True." <==> b
  {
    assert |id + " geofence conflict False."| != |id + " geofence conflict True."|;
  }

  class Checks {
    var startDescend: seq<bool>
    var overshot: seq<bool>
    var wptdist: seq<real>
    var ingeofence: seq<bool>
    var acingeofence: seq<bool>
    var referenceAc: seq<string>

    /** The current arrays as one value. */
    function State(): Arrays
      reads this
    {
      Arrays(startDescend, overshot, wptdist, ingeofence, acingeofence, referenceAc)
    }

    constructor ()
      ensures State() == Arrays([], [], [], [], [], [])
    {
      startDescend, overshot, wptdist, ingeofence, acingeofence := [], [], [], [], [];
      referenceAc := [];
    }

    /** `create(n)`: n new aircraft, nothing started, overshot or fenced, remembering the far distance. */
    method Create(n: nat)
      modifies this
      ensures State() == old(State()).(startDescend := old(startDescend) + seq(n, _ => false),
                                       overshot := old(overshot) + seq(n, _ => false),
                                       wptdist := old(wptdist) + seq(n, _ => OC.Far),
                                       ingeofence := old(ingeofence) + seq(n, _ => false),
                                       acingeofence := old(acingeofence) + seq(n, _ => false))
    {
      startDescend := startDescend + seq(n, _ => false);
      overshot := overshot + seq(n, _ => false);
      wptdist := wptdist + seq(n, _ => OC.Far);
      ingeofence := ingeofence + seq(n, _ => false);
      acingeofence := acingeofence + seq(n, _ => false);
    }

    /** `delete(idx)`: the aircraft's entry leaves every array; the seen callsigns stay. */
    method Delete(idx: nat)
      requires State().Sized(|startDescend|) && idx < |startDescend|
      modifies this
      ensures State() == old(State()).(startDescend := old(startDescend[..idx] + startDescend[idx + 1..]),
                                       overshot := old(overshot[..idx] + overshot[idx + 1..]),
                                       wptdist := old(wptdist[..idx] + wptdist[idx + 1..]),
                                       ingeofence := old(ingeofence[..idx] + ingeofence[idx + 1..]),
                                       acingeofence := old(acingeofence[..idx] + acingeofence[idx + 1..]))
    {
      startDescend := startDescend[..idx] + startDescend[idx + 1..];
      overshot := overshot[..idx] + overshot[idx + 1..];
      wptdist := wptdist[..idx] + wptdist[idx + 1..];
      ingeofence := ingeofence[..idx] + ingeofence[idx + 1..];
      acingeofence := acingeofence[..idx] + acingeofence[idx + 1..];
    }

    /** `reset`: every array and the seen callsigns emptied. */
    method Reset()
      modifies this
      ensures State() == Arrays([], [], [], [], [], [])
    {
      startDescend, overshot, wptdist, ingeofence, acingeofence := [], [], [], [], [];
      referenceAc := [];
    }

    /**
     * `update`, with the overshoot and descent checks it evidently means
     * (the module-level `overshootcheck.calc_dist`, `overshootcheck.checker`
     * and `descendcheck.checker` it calls do not exist). Every aircraft has
     * its turn in order until the first one that raises IndexError (a new
     * callsign with an empty route, `stop`); that one still has its geofence
     * and overshoot answers written and its reroutes stacked. `ok` is false
     * when the update stopped.
     */
    method Update(geo: Geo, shapes: GF.Shapes, fences: seq<seq<real>>, sc: Scene, log: CommandStack) returns (ok: bool)
      requires sc.Valid() && Measured(geo, shapes, fences, sc)
      requires State().Sized(|sc.ac|) && UniqueCallsigns(sc.ac)
      modifies this, log
      ensures ok <==> FirstFail(sc, old(referenceAc), 0) == |sc.ac|
      ensures State() == Turned(sc, old(State()), TurnsTaken(sc, old(referenceAc)), FirstFail(sc, old(referenceAc), 0))
      ensures log.cmds == old(log.cmds) + UpdateCmds(sc, old(State()), TurnsTaken(sc, old(referenceAc)))
    {
      ghost var st0 := old(State());
      ghost var stop := FirstFail(sc, old(referenceAc), 0);
      ghost var base := log.cmds;
      ok := true;
      var k := 0;
      TurnedNone(sc, st0);
      while k < |sc.ac|
        invariant 0 <= k <= stop
        invariant State() == Turned(sc, st0, k, k)
        invariant log.cmds == base + UpdateCmds(sc, st0, k)
      {
        ok := Turn(geo, shapes, fences, sc, st0, base, k, log);
        if !ok {
          return;
        }
        k := k + 1;
      }
      assert k == stop;
    }

    /** One pass of `update`'s loop: aircraft k, found by its callsign, has its turn. */
    method Turn(geo: Geo, shapes: GF.Shapes, fences: seq<seq<real>>, sc: Scene, ghost st0: Arrays, ghost base: seq<Cmd>,
                k: nat, log: CommandStack) returns (ok: bool)
      requires sc.Valid() && Measured(geo, shapes, fences, sc) && UniqueCallsigns(sc.ac) && k < |sc.ac|
      requires st0.Sized(|sc.ac|) && State() == Turned(sc, st0, k, k)
      requires log.cmds == base + UpdateCmds(sc, st0, k)
      requires k <= FirstFail(sc, st0.referenceAc, 0)
      modifies this, log
      ensures ok == !Fails(sc, st0.referenceAc, k)
      ensures ok ==> k < FirstFail(sc, st0.referenceAc, 0)
      ensures !ok ==> k == FirstFail(sc, st0.referenceAc, 0) && TurnsTaken(sc, st0.referenceAc) == k + 1
      ensures ok ==> State() == Turned(sc, st0, k + 1, k + 1)
      ensures !ok ==> State() == Turned(sc, st0, k + 1, k)
      ensures log.cmds == base + UpdateCmds(sc, st0, k + 1)
    {
      var idx := IdIndex(sc.ac, sc.ac[k].id);
      IdIndexOwn(sc.ac, k);
      SeenBefore(sc, st0.referenceAc, k);
      ghost var st := State();
      assert st.wptdist[k] == st0.wptdist[k] && st.startDescend[k] == st0.startDescend[k];
      assert st.referenceAc == st0.referenceAc + NewIds(sc, st0.referenceAc, k);
      assert Fails(sc, st.referenceAc, k) == Fails(sc, st0.referenceAc, k);
      UpdateCmdsStep(sc, st0, st, k, base);
      assert MeasuredAt(geo, shapes, fences, sc, k);
      ok := CheckOne(geo, shapes, fences, sc, idx, log);
      TurnStep(sc, st0, State(), k, ok);
    }

    /** The body of `update` for aircraft idx: the two checks, then the housekeeping. */
    method CheckOne(geo: Geo, shapes: GF.Shapes, fences: seq<seq<real>>, sc: Scene, idx: nat, log: CommandStack)
      returns (ok: bool)
      requires sc.Valid() && idx < |sc.ac| && MeasuredAt(geo, shapes, fences, sc, idx)
      requires State().Sized(|sc.ac|)
      modifies this, log
      ensures ok == !Fails(sc, old(referenceAc), idx)
      ensures ingeofence == old(ingeofence)[idx := sc.fence[idx].routeval]
      ensures acingeofence == old(acingeofence)[idx := sc.fence[idx].acval]
      ensures overshot == old(overshot)[idx := Overshoot(sc, old(wptdist[idx]), idx).overshot]
      ensures wptdist == old(wptdist)[idx := Overshoot(sc, old(wptdist[idx]), idx).wptdist]
      ensures startDescend == if ok then old(startDescend)[idx := Started(sc, old(startDescend[idx]), idx)] else old(startDescend)
      ensures referenceAc == old(referenceAc) + (if ok && sc.ac[idx].id !in old(referenceAc) then [sc.ac[idx].id] else [])
      ensures log.cmds == old(log.cmds) + AircraftCmds(sc, old(wptdist[idx]), old(startDescend[idx]), old(referenceAc), idx)
    {
      ghost var before := log.cmds;
      CheckRoute(geo, shapes, fences, sc, idx, log);
      ghost var reported := log.cmds;
      ok := Housekeep(sc, idx, log);
      StackedInBlocks(before, reported[|before|..], log.cmds[|reported|..]);
    }

    /** The geofence check and the overshoot check of aircraft idx, with the reroutes they stack. */
    method CheckRoute(geo: Geo, shapes: GF.Shapes, fences: seq<seq<real>>, sc: Scene, idx: nat, log: CommandStack)
      requires sc.Valid() && idx < |sc.ac| && MeasuredAt(geo, shapes, fences, sc, idx)
      requires State().Sized(|sc.ac|)
      modifies this, log
      ensures State() == old(State()).(ingeofence := old(ingeofence)[idx := sc.fence[idx].routeval],
                                       acingeofence := old(acingeofence)[idx := sc.fence[idx].acval],
                                       overshot := old(overshot)[idx := Overshoot(sc, old(wptdist[idx]), idx).overshot],
                                       wptdist := old(wptdist)[idx := Overshoot(sc, old(wptdist[idx]), idx).wptdist])
      ensures log.cmds == old(log.cmds) + ReportCmds(sc.ac[idx].id, sc.fence[idx], Overshoot(sc, old(wptdist[idx]), idx))
    {
      ghost var before := log.cmds;
      CheckFence(shapes, fences, sc, idx, log);
      ghost var fenced := log.cmds;
      CheckOvershoot(geo, sc, idx, log);
      StackedInBlocks(before, fenced[|before|..], log.cmds[|fenced|..]);
    }

    /** The geofence checker of aircraft idx: its two answers stored, REROUTEGEOFENCE stacked when it asks for one. */
    method CheckFence(shapes: GF.Shapes, fences: seq<seq<real>>, sc: Scene, idx: nat, log: CommandStack)
      requires sc.Valid() && idx < |sc.ac| && sc.fence[idx] == GF.Assess(shapes, fences, sc.ac[idx], sc.route[idx])
      requires State().Sized(|sc.ac|)
      modifies this, log
      ensures State() == old(State()).(ingeofence := old(ingeofence)[idx := sc.fence[idx].routeval],
                                       acingeofence := old(acingeofence)[idx := sc.fence[idx].acval])
      ensures log.cmds == old(log.cmds) + (if GF.Reroutes(sc.fence[idx]) then [RerouteGeofence(sc.ac[idx].id)] else [])
    {
      var a := sc.ac[idx];
      var routeval, acval := GF.Checker(shapes, fences, a.id, a, sc.route[idx], log);
      ingeofence := ingeofence[idx := routeval];
      acingeofence := acingeofence[idx := acval];
    }

    /** The overshoot checker of aircraft idx: the distance compared with the remembered one, REROUTEOVERSHOOT stacked when it grew. */
    method CheckOvershoot(geo: Geo, sc: Scene, idx: nat, log: CommandStack)
      requires sc.Valid() && idx < |sc.ac| && sc.dist[idx] == OC.CalcDist(geo, sc.ac[idx], sc.route[idx])
      requires State().Sized(|sc.ac|)
      modifies this, log
      ensures State() == old(State()).(overshot := old(overshot)[idx := Overshoot(sc, old(wptdist[idx]), idx).overshot],
                                       wptdist := old(wptdist)[idx := Overshoot(sc, old(wptdist[idx]), idx).wptdist])
      ensures log.cmds == old(log.cmds) + (if Overshoot(sc, old(wptdist[idx]), idx).overshot then [RerouteOvershoot(sc.ac[idx].id)] else [])
    {
      var a := sc.ac[idx];
      var dist := OC.CalcDist(geo, a, sc.route[idx]);
      var v := OC.Check(dist, wptdist[idx]);
      if v.overshot {
        log.Push(RerouteOvershoot(a.id));
      }
      wptdist := wptdist[idx := v.wptdist];
      overshot := overshot[idx := v.overshot];
    }

    /** DELWPT for a callsign not seen before (IndexError on an empty route), then the descent gate. */
    method Housekeep(sc: Scene, idx: nat, log: CommandStack) returns (ok: bool)
      requires sc.Valid() && idx < |sc.ac|
      requires State().Sized(|sc.ac|)
      modifies this, log
      ensures ok == !Fails(sc, old(referenceAc), idx)
      ensures State() == old(State()).(
                startDescend := if ok then old(startDescend)[idx := Started(sc, old(startDescend[idx]), idx)] else old(startDescend),
                referenceAc := old(referenceAc) + (if ok && sc.ac[idx].id !in old(referenceAc) then [sc.ac[idx].id] else []))
      ensures log.cmds == old(log.cmds) + TurnHouseCmds(sc, old(startDescend[idx]), old(referenceAc), idx)
    {
      var a := sc.ac[idx];
      var route := sc.route[idx];
      ghost var before := log.cmds;
      ghost var isNew := a.id !in referenceAc;
      ghost var gateClosed := !AsksDescend(sc, startDescend[idx], idx);
      if a.id !in referenceAc {
        if route.wpname == [] {
          return false;
        }
        log.Push(DelWpt(a.id, route.wpname[|route.wpname| - 1]));
        referenceAc := referenceAc + [a.id];
      }
      assert !Fails(sc, old(referenceAc), idx);
      assert referenceAc == old(referenceAc) + (if isNew then [a.id] else []);
      assert !gateClosed == (!startDescend[idx] && sc.geodurations[idx] == "" && sc.reso[idx].strategy == NoReso);
      if !startDescend[idx] && sc.geodurations[idx] == "" && sc.reso[idx].strategy == NoReso {
        startDescend := startDescend[idx := sc.descend[idx]];
      } else if a.alt < 1.0 * Ft {
        log.Push(Del(a.id));
      }
      ok := true;
      StackedInBlocks(before, if isNew then [DelWpt(a.id, LastName(route))] else [],
                      if gateClosed && a.alt < 1.0 * Ft then [Del(a.id)] else []);
    }

    /**
     * `update` as written: the geofence check of the first aircraft runs and
     * then the call `overshootcheck.calc_dist` raises AttributeError, so in
     * every update of a non-empty traffic nothing else happens.
     */
    method UpdateAsWritten(shapes: GF.Shapes, fences: seq<seq<real>>, sc: Scene, log: CommandStack) returns (ok: bool)
      requires sc.Valid() && State().Sized(|sc.ac|)
      modifies this, log
      ensures ok <==> sc.ac == []
      ensures sc.ac == [] ==> State() == old(State()) && log.cmds == old(log.cmds)
      ensures sc.ac != [] ==>
                var g := GF.Assess(shapes, fences, sc.ac[0], sc.route[0]);
                && State() == old(State()).(ingeofence := old(ingeofence)[0 := g.routeval],
                                            acingeofence := old(acingeofence)[0 := g.acval])
                && log.cmds == old(log.cmds) + (if GF.Reroutes(g) then [RerouteGeofence(sc.ac[0].id)] else [])
    {
      if |sc.ac| == 0 {
        return true;
      }
      var idx := IdIndex(sc.ac, sc.ac[0].id);
      assert idx == 0;
      var a := sc.ac[idx];
      var routeval, acval := GF.Checker(shapes, fences, a.id, a, sc.route[idx], log);
      ingeofence := ingeofence[idx := routeval];
      acingeofence := acingeofence[idx := acval];
      return false;
    }

    /** `getacgeofence(idx)`: whether the aircraft's route crosses a geofence. */
    function GetAcGeofence(idx: nat): bool
      reads this
      requires idx < |ingeofence|
    {
      ingeofence[idx]
    }

    /** `echoacgeofence(idx)`: the answer of the command, with Python's spelling of the boolean. */
    function EchoAcGeofence(id: string, idx: nat): (text: string)
      reads this
      requires idx < |ingeofence|
      ensures |text| > |id| && text[..|id|] == id
      ensures text == id + " geofence conflict True." <==> ingeofence[idx]
    {
      GeofenceText(id, ingeofence[idx]);
      id + " geofence conflict " + (if GetAcGeofence(idx) then "True" else "False") + "."
    }

    /** `getacovershot(idx)`: the stored overshoot verdict. */
    function GetAcOvershot(idx: nat): bool
      reads this
      requires idx < |overshot|
    {
      overshot[idx]
    }

    /** `echoacovershot(idx)`: the answer of the command. */
    function EchoAcOvershot(id: string, idx: nat): (text: string)
      reads this
      requires idx < |overshot|
      ensures |text| > |id| && text[..|id|] == id
      ensures text == id + " has overshot." <==> overshot[idx]
    {
      OC.OvershotText(id, overshot[idx]);
      if GetAcOvershot(idx) then id + " has overshot." else id + " has not overshot."
    }

    /**
     * After the turns of `update`, the geofence echo answers for every
     * checked aircraft "True" exactly when its route crosses a geofence.
     */
    lemma GeofenceEchoAfterUpdate(geo: Geo, shapes: GF.Shapes, fences: seq<seq<real>>, sc: Scene, st0: Arrays,
                                  checked: nat, gated: nat, i: nat)
      requires sc.Valid() && Measured(geo, shapes, fences, sc) && st0.Sized(|sc.ac|)
      requires gated <= checked <= |sc.ac| && i < checked
      requires State() == Turned(sc, st0, checked, gated)
      ensures EchoAcGeofence(sc.ac[i].id, i) == sc.ac[i].id + " geofence conflict True." <==>
                GF.Assess(shapes, fences, sc.ac[i], sc.route[i]).routeval
    {
      assert ingeofence[i] == State().ingeofence[i];
      assert MeasuredAt(geo, shapes, fences, sc, i);
    }

    /**
     * After the turns of `update`, the overshoot echo answers for every
     * checked aircraft "has overshot." exactly when its distance to the
     * active waypoint is known and exceeds the remembered one.
     */
    lemma OvershootEchoAfterUpdate(geo: Geo, shapes: GF.Shapes, fences: seq<seq<real>>, sc: Scene, st0: Arrays,
                                   checked: nat, gated: nat, i: nat)
      requires sc.Valid() && Measured(geo, shapes, fences, sc) && st0.Sized(|sc.ac|)
      requires gated <= checked <= |sc.ac| && i < checked
      requires State() == Turned(sc, st0, checked, gated)
      ensures EchoAcOvershot(sc.ac[i].id, i) == sc.ac[i].id + " has overshot." <==>
                var d := OC.CalcDist(geo, sc.ac[i], sc.route[i]);
                d.Some? && d.value > st0.wptdist[i]
    {
      assert overshot[i] == State().overshot[i];
      assert MeasuredAt(geo, shapes, fences, sc, i);
    }
  }
}
