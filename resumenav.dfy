/**
 * `resumenav` of plugins/m2/hybridResolution.py. Every tick each
 * remembered conflict pair is either kept (its ownship goes on resolving)
 * or dropped; an aircraft stays under resolution while any of its pairs is
 * kept; every aircraft no longer under resolution tries to recover its
 * flight plan, and gives the resolution up once the conflict probe allows.
 *
 * The retention pass is shared with plugins/m2/hybridreso.py, whose copy
 * breaks priority ties on all digits of the callsign and lets RESO1 go
 * without waiting for horizontal separation (see Rules).
 */
module ResumeNav {
  import opened Wrappers
  import opened Traffic
  import opened Stack
  import HR = HybridResolution

  /** A conflict pair (ownship callsign, intruder callsign). */
  type Pair = (string, string)

  /** The two copies of the retention test differ in the priority tie-break and in RESO1. */
  datatype Rules = Rules(tb: HR.Tiebreak, reso1Waits: bool)

  const HybridResolutionRules: Rules := Rules(HR.Suffix, true)
  const HybridResoRules: Rules := Rules(HR.AllDigits, false)

  /**
   * The flat-earth geometry of a pair, which is not modelled: whether the
   * pair is past its closest point of approach (dot(dist, vrel) > 0) and
   * the horizontal distance |dist|.
   */
  datatype PairGeometry = PairGeometry(pastCpa: bool, hdist: real)

  /**
   * What the retention pass reads; none of it changes during the pass.
   * `act[i]` is `route[i].findact(i)`: the active waypoint, or -1.
   */
  datatype Scene = Scene(ac: seq<Aircraft>, reso: seq<ResoRow>, route: seq<Route>, act: seq<int>,
                         layerHeight: real, geometry: Pair -> PairGeometry, probe: ProbeQuery -> bool)
  {
    ghost predicate Valid()
    {
      && |reso| == |ac| && |route| == |ac| && ActiveWaypoints(route, act)
      && forall i :: 0 <= i < |reso| ==> NoDup(reso[i].resoidint)
    }
  }

  /** What `findact` promises: -1 or the index of a waypoint of the (well-formed) route. */
  ghost predicate ActiveWaypoints(route: seq<Route>, act: seq<int>)
  {
    |act| == |route| && forall i :: 0 <= i < |route| ==> route[i].Valid() && -1 <= act[i] < |route[i].wpname|
  }

  /**
   * `route.wpalt[iwpid] - alt > 0`: the aircraft was climbing towards its
   * active waypoint. Python reads index -1 as the last waypoint; a route
   * without waypoints (where Python raises IndexError) counts as descending.
   */
  function Climbing(r: Route, iwpid: int, alt: real): bool
    requires r.Valid() && -1 <= iwpid < |r.wpname|
  {
    if iwpid >= 0 then r.wpalt[iwpid] - alt > 0.0
    else if |r.wpalt| > 0 then r.wpalt[|r.wpalt| - 1] - alt > 0.0
    else false
  }

  /** The probe of resuming the climb (vsmax, dtlookup) or the descent (vsmin, dtlookdown). */
  function VerticalProbe(i: nat, climbing: bool): ProbeQuery
  {
    if climbing then ClimbProbe(i, None) else DescendProbe(i, None)
  }

  // ---------------------------------------------------------------- retention of one pair

  /** `ver_los`: vertical loss of separation; under RESO1 (hybridResolution.py) the horizontal spread instead. */
  predicate VerLos(rules: Rules, sc: Scene, i1: nat, i2: nat, g: PairGeometry)
    requires sc.Valid() && i1 < |sc.ac| && i2 < |sc.ac|
  {
    var own, intr := sc.ac[i1], sc.ac[i2];
    if sc.reso[i1].strategy == Reso1 && rules.reso1Waits then g.hdist < Max(own.rpz, intr.rpz) * 2.0
    else Abs(intr.alt - own.alt) < Max(own.hpz, intr.hpz)
  }

  /** RESO5 against a climbing intruder above or a descending one two layers below waits on ver_los alone. */
  predicate Reso5Waits(sc: Scene, i1: nat, i2: nat)
    requires sc.Valid() && i1 < |sc.ac| && i2 < |sc.ac|
  {
    var own, intr := sc.ac[i1], sc.ac[i2];
    sc.reso[i1].strategy == Reso5
    && ((intr.phase == 1 && own.alt < intr.alt) || (intr.phase == 2 && intr.alt - own.alt <= -2.0 * sc.layerHeight))
  }

  /** `distnotok`: the aircraft are still too close for the strategy to be given up. */
  predicate DistNotOk(rules: Rules, sc: Scene, i1: nat, i2: nat, g: PairGeometry)
    requires sc.Valid() && i1 < |sc.ac| && i2 < |sc.ac|
  {
    var st := sc.reso[i1].strategy;
    var own, intr := sc.ac[i1], sc.ac[i2];
    var spread := g.hdist < Max(own.rpz, intr.rpz) * 2.0;
    if Reso5Waits(sc, i1, i2) then VerLos(rules, sc, i1, i2, g)
    else if st == Reso2 || st == Reso5 || st == Reso9 then spread
    else if st == Reso8 then intr.alt - own.alt < sc.layerHeight
    else if st == Reso1 && rules.reso1Waits then spread
    else false
  }

  /** Both aircraft stand still: they are forced out of the resolution. */
  predicate BothHovering(sc: Scene, i1: nat, i2: nat)
    requires i1 < |sc.ac| && i2 < |sc.ac|
  {
    sc.ac[i1].gs == 0.0 && sc.ac[i2].gs == 0.0 && sc.ac[i1].vs == 0.0 && sc.ac[i2].vs == 0.0
  }

  /** `past_cpa` after its overrides: RESO5's wait, RESO6/7's free vertical path, two hovering aircraft. */
  predicate PastCpa(rules: Rules, sc: Scene, i1: nat, i2: nat, g: PairGeometry)
    requires sc.Valid() && i1 < |sc.ac| && i2 < |sc.ac|
  {
    var st := sc.reso[i1].strategy;
    var own, intr := sc.ac[i1], sc.ac[i2];
    var cpa := if Reso5Waits(sc, i1, i2) then !VerLos(rules, sc, i1, i2, g) else g.pastCpa;
    var verticalFree :=
      (st == Reso6 || st == Reso7) && HR.Resolves(rules.tb, own, intr)
      && !sc.probe(VerticalProbe(i1, Climbing(sc.route[i1], sc.act[i1], own.alt)));
    cpa || verticalFree || BothHovering(sc, i1, i2)
  }

  /** The ownship i1 keeps resolving against the existing intruder i2. */
  predicate Retains(rules: Rules, sc: Scene, i1: nat, i2: nat, g: PairGeometry)
    requires sc.Valid() && i1 < |sc.ac| && i2 < |sc.ac|
  {
    !PastCpa(rules, sc, i1, i2, g) || (DistNotOk(rules, sc, i1, i2, g) && VerLos(rules, sc, i1, i2, g))
  }

  /** Two hovering aircraft count as past CPA, so they part once they are separated. */
  lemma HoveringPairRetention(rules: Rules, sc: Scene, i1: nat, i2: nat, g: PairGeometry)
    requires sc.Valid() && i1 < |sc.ac| && i2 < |sc.ac| && BothHovering(sc, i1, i2)
    ensures Retains(rules, sc, i1, i2, g) <==> DistNotOk(rules, sc, i1, i2, g) && VerLos(rules, sc, i1, i2, g)
  {
  }

  /** A speed strategy is held, whatever the CPA, while the pair is within 2 rpz horizontally and in vertical LOS. */
  lemma SpeedStrategyHeldWhileClose(rules: Rules, sc: Scene, i1: nat, i2: nat, g: PairGeometry)
    requires sc.Valid() && i1 < |sc.ac| && i2 < |sc.ac|
    requires sc.reso[i1].strategy == Reso2 || sc.reso[i1].strategy == Reso9
    requires g.hdist < Max(sc.ac[i1].rpz, sc.ac[i2].rpz) * 2.0
    requires Abs(sc.ac[i2].alt - sc.ac[i1].alt) < Max(sc.ac[i1].hpz, sc.ac[i2].hpz)
    ensures Retains(rules, sc, i1, i2, g)
  {
  }

  /** Without RESO-specific waiting rules a pair is kept exactly until its CPA (or a forced release). */
  lemma PlainStrategyKeptUntilCpa(rules: Rules, sc: Scene, i1: nat, i2: nat, g: PairGeometry)
    requires sc.Valid() && i1 < |sc.ac| && i2 < |sc.ac|
    requires sc.reso[i1].strategy in {NoReso, Reso3}
    ensures Retains(rules, sc, i1, i2, g) <==> !g.pastCpa && !BothHovering(sc, i1, i2)
  {
  }

  // ---------------------------------------------------------------- retention of all pairs

  function OwnIdx(sc: Scene, p: Pair): int { IdIndex(sc.ac, p.0) }

  function IntrIdx(sc: Scene, p: Pair): int { IdIndex(sc.ac, p.1) }

  /** The pair stays in resopairs: both aircraft exist and the ownship keeps resolving. */
  predicate Kept(rules: Rules, sc: Scene, p: Pair)
    requires sc.Valid()
  {
    OwnIdx(sc, p) >= 0 && IntrIdx(sc, p) >= 0
    && Retains(rules, sc, OwnIdx(sc, p) as nat, IntrIdx(sc, p) as nat, sc.geometry(p))
  }

  /** The existing ownships of the pairs of s: the keys of `changeactive`. */
  function Owners(sc: Scene, s: set<Pair>): set<nat>
  {
    set p | p in s && OwnIdx(sc, p) >= 0 :: OwnIdx(sc, p) as nat
  }

  /** The ownships of the kept pairs of s. */
  function KeptOwners(rules: Rules, sc: Scene, s: set<Pair>): set<nat>
    requires sc.Valid()
  {
    set p | p in s && Kept(rules, sc, p) :: OwnIdx(sc, p) as nat
  }

  /** `changeactive` after visiting s: an ownship is active iff one of its pairs is kept. */
  function ChangeActive(rules: Rules, sc: Scene, s: set<Pair>): map<nat, bool>
    requires sc.Valid()
  {
    map i | i in Owners(sc, s) :: i in KeptOwners(rules, sc, s)
  }

  /** The intruder callsigns of the dropped pairs of s whose ownship is i. */
  function DroppedIntruders(rules: Rules, sc: Scene, s: set<Pair>, i: nat): set<string>
    requires sc.Valid()
  {
    set p | p in s && OwnIdx(sc, p) == i && !Kept(rules, sc, p) :: RemovedName(p)
  }

  /**
   * The callsign removed from the ownship's resoidint when a pair is dropped,
   * as written: `traf.id[idx2]`, which for a deleted intruder (idx2 == -1)
   * is the callsign of the LAST aircraft in the traffic arrays.
   */
  function RemovedNameAsWritten(ac: seq<Aircraft>, p: Pair): (name: string)
    requires IdIndex(ac, p.0) >= 0
    ensures IdIndex(ac, p.1) >= 0 ==> name == p.1
  {
    var i2 := IdIndex(ac, p.1);
    if i2 >= 0 then ac[i2].id else ac[|ac| - 1].id
  }

  /** The callsign evidently meant: the intruder's, whether or not it still exists. */
  function RemovedName(p: Pair): (name: string)
    ensures name == p.1
  {
    p.1
  }

  /** Two aircraft A1 and C3; the pair (A1, B2) lost its intruder B2. */
  function WitnessAircraft(id: string): Aircraft
  {
    Aircraft(id, 1, 0, 0.0, 0.0, 0.0, 0.0, 0.0, 0.0, 0.0, 0, 0.0, 0.0, 0.0, 0.0)
  }

  /** As written, dropping (A1, B2) after B2 was deleted removes C3, an aircraft outside the pair, and keeps B2. */
  lemma DeletedIntruderRemovesBystander()
    ensures var ac := [WitnessAircraft("A1"), WitnessAircraft("C3")];
            var p := ("A1", "B2");
            && IdIndex(ac, p.0) == 0 && IdIndex(ac, p.1) == -1
            && RemovedNameAsWritten(ac, p) == "C3" && RemovedNameAsWritten(ac, p) != RemovedName(p)
  {
    var ac := [WitnessAircraft("A1"), WitnessAircraft("C3")];
    assert ac[1..] == [WitnessAircraft("C3")];
    assert ac[1..][1..] == [];
    assert "C3" != "B2" && "A1" != "B2";
  }

  /** `s` without the callsigns in `names`, order kept. */
  function Without(s: seq<string>, names: set<string>): (r: seq<string>)
    ensures forall x :: x in r <==> x in s && x !in names
    ensures NoDup(s) ==> NoDup(r)
  {
    if s == [] then []
    else
      var rest := Without(s[1..], names);
      assert NoDup(s) ==> s[0] !in s[1..] && NoDup(s[1..]) by {
        if NoDup(s) {
          forall k | 1 <= k < |s| ensures s[k] != s[0] { }
        }
      }
      if s[0] in names then rest else [s[0]] + rest
  }

  /** Removing one more callsign with `list.remove` is filtering one more name out. */
  lemma {:induction false} WithoutStep(s: seq<string>, names: set<string>, x: string)
    requires NoDup(s)
    ensures Without(s, names + {x}) ==
            if x in Without(s, names) then HR.RemoveFirst(Without(s, names), x) else Without(s, names)
  {
    if s != [] {
      assert NoDup(s[1..]) && s[0] !in s[1..] by {
        forall k | 1 <= k < |s| ensures s[k] != s[0] { }
      }
      WithoutStep(s[1..], names, x);
      if s[0] == x && x !in names {
        WithoutAbsent(s[1..], names, x);
      }
    }
  }

  lemma {:induction false} WithoutAbsent(s: seq<string>, names: set<string>, x: string)
    requires x !in s
    ensures Without(s, names + {x}) == Without(s, names)
  {
    if s != [] {
      WithoutAbsent(s[1..], names, x);
    }
  }

  /** The resolution row of aircraft i after the retention pass over s. */
  function RetainedRow(rules: Rules, sc: Scene, s: set<Pair>, i: nat): ResoRow
    requires sc.Valid() && i < |sc.reso|
  {
    sc.reso[i].(resoidint := Without(sc.reso[i].resoidint, DroppedIntruders(rules, sc, s, i)))
  }

  /** How the bookkeeping grows when one more pair is visited. */
  lemma VisitStep(rules: Rules, sc: Scene, done: set<Pair>, p: Pair)
    requires sc.Valid()
    ensures Owners(sc, done + {p}) == Owners(sc, done) + (if OwnIdx(sc, p) >= 0 then {OwnIdx(sc, p) as nat} else {})
    ensures KeptOwners(rules, sc, done + {p}) ==
            KeptOwners(rules, sc, done) + (if Kept(rules, sc, p) then {OwnIdx(sc, p) as nat} else {})
    ensures forall i: nat ::
              DroppedIntruders(rules, sc, done + {p}, i) ==
              DroppedIntruders(rules, sc, done, i)
              + (if OwnIdx(sc, p) == i && !Kept(rules, sc, p) then {RemovedName(p)} else {})
  {
  }

  /** Dropping one more pair removes its intruder, once, from its ownship's row (`list.remove`). */
  lemma RetainedRowStep(rules: Rules, sc: Scene, done: set<Pair>, p: Pair, i: nat)
    requires sc.Valid() && i < |sc.reso|
    ensures var row := RetainedRow(rules, sc, done, i);
            var ids := row.resoidint;
            RetainedRow(rules, sc, done + {p}, i) ==
              if OwnIdx(sc, p) != i || Kept(rules, sc, p) then row
              else if RemovedName(p) in ids then row.(resoidint := HR.RemoveFirst(ids, RemovedName(p)))
              else row
  {
    var dropped := DroppedIntruders(rules, sc, done, i);
    VisitStep(rules, sc, done, p);
    assert DroppedIntruders(rules, sc, done + {p}, i) ==
           dropped + (if OwnIdx(sc, p) == i && !Kept(rules, sc, p) then {RemovedName(p)} else {});
    if OwnIdx(sc, p) != i || Kept(rules, sc, p) {
      assert DroppedIntruders(rules, sc, done + {p}, i) == dropped;
    } else {
      WithoutStep(sc.reso[i].resoidint, dropped, RemovedName(p));
    }
  }

  /** Visiting one more pair deletes it unless it is kept. */
  lemma DeletedStep(rules: Rules, sc: Scene, done: set<Pair>, p: Pair)
    requires sc.Valid()
    ensures (set q | q in done + {p} && !Kept(rules, sc, q)) ==
            (set q | q in done && !Kept(rules, sc, q)) + (if Kept(rules, sc, p) then {} else {p})
  {
  }

  /** Visiting one more pair sets its ownship's flag, or adds it unset (`changeactive.get(idx1, False)`). */
  lemma ChangeActiveStep(rules: Rules, sc: Scene, done: set<Pair>, p: Pair)
    requires sc.Valid()
    ensures var m := ChangeActive(rules, sc, done);
            var i1 := OwnIdx(sc, p);
            ChangeActive(rules, sc, done + {p}) ==
              if i1 < 0 then m
              else m[i1 as nat := Kept(rules, sc, p) || (i1 as nat in m && m[i1 as nat])]
  {
    VisitStep(rules, sc, done, p);
  }

  /**
   * One conflict of the first loop of `resumenav`: a deleted ownship drops
   * the pair; a kept pair marks its ownship active; a dropped pair keeps an
   * earlier mark (`changeactive.get(idx1, False)`), is deleted, and its
   * intruder leaves the ownship's resoidint.
   */
  method VisitResoPair(traf: Traf, rules: Rules, sc: Scene, p: Pair, ghost done: set<Pair>,
                       delpairs: set<Pair>, changeactive: map<nat, bool>)
    returns (delpairs': set<Pair>, changeactive': map<nat, bool>)
    requires traf.Valid() && sc.Valid() && sc.ac == traf.ac && |sc.reso| == |traf.reso|
    requires delpairs == set q | q in done && !Kept(rules, sc, q)
    requires changeactive == ChangeActive(rules, sc, done)
    requires forall i :: 0 <= i < |traf.reso| ==> traf.reso[i] == RetainedRow(rules, sc, done, i)
    modifies traf`reso
    ensures traf.Valid() && |sc.reso| == |traf.reso|
    ensures delpairs' == set q | q in done + {p} && !Kept(rules, sc, q)
    ensures changeactive' == ChangeActive(rules, sc, done + {p})
    ensures forall i :: 0 <= i < |traf.reso| ==> traf.reso[i] == RetainedRow(rules, sc, done + {p}, i)
  {
    DeletedStep(rules, sc, done, p);
    ChangeActiveStep(rules, sc, done, p);
    ghost var reso := traf.reso;
    delpairs', changeactive' := delpairs, changeactive;
    var idx1, idx2 := IdIndex(traf.ac, p.0), IdIndex(traf.ac, p.1);
    if idx1 < 0 {
      delpairs' := delpairs + {p};
    } else if idx2 >= 0 && Retains(rules, sc, idx1, idx2, sc.geometry(p)) {
      changeactive' := changeactive[idx1 := true];
    } else {
      changeactive' := changeactive[idx1 := if idx1 in changeactive then changeactive[idx1] else false];
      delpairs' := delpairs + {p};
      var name := RemovedName(p);
      var ids := traf.reso[idx1].resoidint;
      if name in ids {
        traf.reso := traf.reso[idx1 := traf.reso[idx1].(resoidint := HR.RemoveFirst(ids, name))];
      }
    }
    forall i | 0 <= i < |traf.reso|
      ensures traf.reso[i] == RetainedRow(rules, sc, done + {p}, i)
    {
      RetainedRowStep(rules, sc, done, p, i);
      if OwnIdx(sc, p) != i || Kept(rules, sc, p) {
        assert traf.reso[i] == reso[i];
      }
    }
  }

  /**
   * The first loop of `resumenav`, over the set resopairs in whatever order
   * the set yields: the deleted pairs, the `changeactive` map, and the
   * resoidint entries removed.
   */
  method ScanPairs(traf: Traf, rules: Rules, sc: Scene) returns (delpairs: set<Pair>, changeactive: map<nat, bool>)
    requires traf.Valid() && sc.Valid() && sc.ac == traf.ac && sc.reso == traf.reso
    modifies traf`reso
    ensures traf.Valid()
    ensures delpairs == set q | q in traf.resopairs && !Kept(rules, sc, q)
    ensures changeactive == ChangeActive(rules, sc, traf.resopairs)
    ensures |traf.reso| == |sc.reso|
    ensures forall i :: 0 <= i < |traf.reso| ==> traf.reso[i] == RetainedRow(rules, sc, traf.resopairs, i)
  {
    delpairs, changeactive := {}, map[];
    forall i | 0 <= i < |traf.reso|
      ensures traf.reso[i] == RetainedRow(rules, sc, {}, i)
    {
      assert DroppedIntruders(rules, sc, {}, i) == {};
      WithoutNothing(sc.reso[i].resoidint);
    }
    var todo := traf.resopairs;
    assert traf.resopairs - todo == {};
    while todo != {}
      invariant todo <= traf.resopairs
      invariant traf.Valid() && |sc.reso| == |traf.reso|
      invariant delpairs == set q | q in traf.resopairs - todo && !Kept(rules, sc, q)
      invariant changeactive == ChangeActive(rules, sc, traf.resopairs - todo)
      invariant forall i :: 0 <= i < |traf.reso| ==> traf.reso[i] == RetainedRow(rules, sc, traf.resopairs - todo, i)
      decreases todo
    {
      var p :| p in todo;
      ghost var done := traf.resopairs - todo;
      delpairs, changeactive := VisitResoPair(traf, rules, sc, p, done, delpairs, changeactive);
      todo := todo - {p};
      assert traf.resopairs - todo == done + {p};
    }
    assert traf.resopairs - todo == traf.resopairs;
  }

  lemma {:induction false} WithoutNothing(s: seq<string>)
    ensures Without(s, {}) == s
  {
    if s != [] {
      WithoutNothing(s[1..]);
    }
  }

  // ---------------------------------------------------------------- activity and recovery

  /** The second loop of `resumenav`: `active[idx] = changeactive[idx]` for every key. */
  method SetActive(traf: Traf, changeactive: map<nat, bool>)
    requires traf.Valid() && forall i :: i in changeactive ==> i < |traf.active|
    modifies traf`active
    ensures traf.Valid()
    ensures |traf.active| == |old(traf.active)|
    ensures forall i :: 0 <= i < |traf.active| ==>
              traf.active[i] == if i in changeactive then changeactive[i] else old(traf.active[i])
  {
    var todo := changeactive.Keys;
    while todo != {}
      invariant todo <= changeactive.Keys
      invariant traf.Valid() && |traf.active| == |old(traf.active)|
      invariant forall i :: 0 <= i < |traf.active| ==>
                  traf.active[i] == if i in changeactive && i !in todo then changeactive[i] else old(traf.active[i])
      decreases todo
    {
      var k :| k in todo;
      traf.active := traf.active[k := changeactive[k]];
      todo := todo - {k};
    }
  }

  /** What the recovery of one inactive aircraft leaves: its row and its autopilot targets. */
  datatype Recovered = Recovered(row: ResoRow, ap: Autopilot)

  /**
   * The conflict-probe question that decides whether an inactive aircraft
   * gives its resolution up (hybridResolution.py): descending back for
   * RESO1 and RESO5, the recovery speed for RESO2 and RESO9, resuming the
   * climb or descent for RESO3/6/7, a layer's climb or descent for RESO8.
   * None: nothing to ask, the resolution is given up at once (no active
   * waypoint, no strategy, an unknown strategy).
   */
  function RecoveryProbe(a: Aircraft, i: nat, row: ResoRow, r: Route, iwpid: int): (q: Option<ProbeQuery>)
    requires r.Valid() && -1 <= iwpid < |r.wpname|
    ensures q.Some? ==> iwpid > -1 && q.value.own == i
    ensures q.Some? <==> iwpid > -1 && row.strategy in {Reso1, Reso2, Reso3, Reso5, Reso6, Reso7, Reso8, Reso9}
  {
    if iwpid <= -1 then None
    else match row.strategy
      case Reso1 => Some(DescendProbe(i, None))
      case Reso5 => Some(DescendProbe(i, None))
      case Reso2 => Some(SpeedProbe(i, row.recoveryspd))
      case Reso9 => Some(SpeedProbe(i, row.recoveryspd))
      case Reso3 => Some(VerticalProbe(i, Climbing(r, iwpid, a.alt)))
      case Reso6 => Some(VerticalProbe(i, Climbing(r, iwpid, a.alt)))
      case Reso7 => Some(VerticalProbe(i, Climbing(r, iwpid, a.alt)))
      case Reso8 => Some(if Climbing(r, iwpid, a.alt) then ClimbLayerProbe(i) else DescendLayerProbe(i))
      case _ => None
  }

  /** The aircraft gives its resolution up: nothing to ask, or the probe foresees no conflict. */
  predicate Clears(a: Aircraft, i: nat, row: ResoRow, r: Route, iwpid: int, probe: ProbeQuery -> bool)
    requires r.Valid() && -1 <= iwpid < |r.wpname|
  {
    var q := RecoveryProbe(a, i, row, r, iwpid);
    q.None? || !probe(q.value)
  }

  /** `ALT`, `ATALT … LNAV ON`, `ATALT … VNAV ON`: climb or descend back to the waypoint altitude, in feet. */
  function ResumeVertical(id: string, wpalt: real): seq<Cmd>
  {
    var alt := wpalt / Ft;
    [Alt(id, alt), AtAltLnavOn(id, alt), AtAltVnavOn(id, alt)]
  }

  /**
   * Waypoint recovery of an inactive aircraft (hybridResolution.py): the
   * resolution is given up once the probe clears, and RESO3/6/7 then send
   * the aircraft back to its waypoint altitude; otherwise the resolution
   * targets are held.
   */
  function Recovery(a: Aircraft, i: nat, row: ResoRow, ap: Autopilot, r: Route, iwpid: int,
                    probe: ProbeQuery -> bool): (out: Recovered)
    requires r.Valid() && -1 <= iwpid < |r.wpname|
    ensures Clears(a, i, row, r, iwpid, probe) ==> out.row == row.Released() && out.ap == ap
    ensures !Clears(a, i, row, r, iwpid, probe) ==> out.row == row
    ensures out.row.resoidint == row.resoidint
  {
    if Clears(a, i, row, r, iwpid, probe) then
      Recovered(row.Released(), ap)
    else if row.strategy in {Reso3, Reso6, Reso7} then
      Recovered(row, ap.(vs := row.resovs, tas := row.resospd, alt := row.resoalt, selalt := row.resoalt))
    else if row.strategy in {Reso1, Reso5} then
      Recovered(row, ap.(alt := row.resoalt, selalt := row.resoalt))
    else if row.strategy == Reso8 then
      Recovered(row, ap.(vs := row.resovs))
    else
      Recovered(row, ap)
  }

  /** The commands of the recovery: only RESO3/6/7, once cleared, climb or descend back to the waypoint. */
  function RecoveryCommands(a: Aircraft, i: nat, row: ResoRow, r: Route, iwpid: int,
                            probe: ProbeQuery -> bool): (cmds: seq<Cmd>)
    requires r.Valid() && -1 <= iwpid < |r.wpname|
    ensures cmds != [] <==> Clears(a, i, row, r, iwpid, probe) && row.strategy in {Reso3, Reso6, Reso7} && iwpid >= 0
  {
    if Clears(a, i, row, r, iwpid, probe) && iwpid >= 0 && row.strategy in {Reso3, Reso6, Reso7} then
      ResumeVertical(a.id, r.wpalt[iwpid])
    else []
  }

  /** A vertical strategy that cannot recover yet holds the resolution altitude. */
  lemma HeldAltitude(a: Aircraft, i: nat, row: ResoRow, ap: Autopilot, r: Route, iwpid: int, probe: ProbeQuery -> bool)
    requires r.Valid() && -1 <= iwpid < |r.wpname|
    requires !Clears(a, i, row, r, iwpid, probe) && row.strategy in {Reso1, Reso3, Reso5, Reso6, Reso7}
    ensures var out := Recovery(a, i, row, ap, r, iwpid, probe);
            out.ap.alt == row.resoalt && out.ap.selalt == row.resoalt
  {
  }

  /** Speed strategies hold no target during recovery: their autopilot is left alone. */
  lemma SpeedStrategyWaits(a: Aircraft, i: nat, row: ResoRow, ap: Autopilot, r: Route, iwpid: int, probe: ProbeQuery -> bool)
    requires r.Valid() && -1 <= iwpid < |r.wpname|
    requires row.strategy in {Reso2, Reso9}
    ensures Recovery(a, i, row, ap, r, iwpid, probe).ap == ap
  {
  }

  /** Recovery gives up at most once: a released row goes through it unchanged and silent. */
  lemma RecoveryOfReleased(a: Aircraft, i: nat, row: ResoRow, ap: Autopilot, r: Route, iwpid: int, probe: ProbeQuery -> bool)
    requires r.Valid() && -1 <= iwpid < |r.wpname|
    ensures Recovery(a, i, row.Released(), ap, r, iwpid, probe) == Recovered(row.Released(), ap)
    ensures RecoveryCommands(a, i, row.Released(), r, iwpid, probe) == []
  {
  }

  /** Without an active waypoint the resolution is dropped at once, with no command. */
  lemma NoWaypointReleases(a: Aircraft, i: nat, row: ResoRow, ap: Autopilot, r: Route, probe: ProbeQuery -> bool)
    requires r.Valid()
    ensures Recovery(a, i, row, ap, r, -1, probe) == Recovered(row.Released(), ap)
    ensures RecoveryCommands(a, i, row, r, -1, probe) == []
  {
  }

  /** Recovery of aircraft i with the traffic arrays of the tick. */
  function RecoveryAt(ac: seq<Aircraft>, reso: seq<ResoRow>, ap: seq<Autopilot>, route: seq<Route>, act: seq<int>,
                      probe: ProbeQuery -> bool, i: nat): Recovered
    requires |reso| == |ac| && |ap| == |ac| && |route| == |ac| && ActiveWaypoints(route, act) && i < |ac|
  {
    Recovery(ac[i], i, reso[i], ap[i], route[i], act[i], probe)
  }

  /** The commands the recovery loop issues for the first n aircraft, in index order. */
  function RecoveryCmds(ac: seq<Aircraft>, reso: seq<ResoRow>, ap: seq<Autopilot>, route: seq<Route>, act: seq<int>,
                        active: seq<bool>, probe: ProbeQuery -> bool, n: nat): seq<Cmd>
    requires |reso| == |ac| && |ap| == |ac| && |route| == |ac| && |active| == |ac| && ActiveWaypoints(route, act)
    requires n <= |ac|
  {
    if n == 0 then []
    else RecoveryCmds(ac, reso, ap, route, act, active, probe, n - 1)
         + (if active[n - 1] then [] else RecoveryCommands(ac[n - 1], n - 1, reso[n - 1], route[n - 1], act[n - 1], probe))
  }

  /** Only aircraft that resume a climb or descent after RESO3/6/7 issue commands. */
  lemma {:induction false} RecoveryCmdsAreResumes(ac: seq<Aircraft>, reso: seq<ResoRow>, ap: seq<Autopilot>,
                                                  route: seq<Route>, act: seq<int>, active: seq<bool>,
                                                  probe: ProbeQuery -> bool, n: nat)
    requires |reso| == |ac| && |ap| == |ac| && |route| == |ac| && |active| == |ac| && ActiveWaypoints(route, act)
    requires n <= |ac|
    requires forall i :: 0 <= i < |ac| ==> reso[i].strategy !in {Reso3, Reso6, Reso7}
    ensures RecoveryCmds(ac, reso, ap, route, act, active, probe, n) == []
  {
    if n > 0 {
      RecoveryCmdsAreResumes(ac, reso, ap, route, act, active, probe, n - 1);
    }
  }

  /** The rows after the recovery loop has visited the first n aircraft. */
  function RecoveredRows(ac: seq<Aircraft>, reso: seq<ResoRow>, ap: seq<Autopilot>, route: seq<Route>, act: seq<int>,
                         active: seq<bool>, probe: ProbeQuery -> bool, n: nat): (rows: seq<ResoRow>)
    requires |reso| == |ac| && |ap| == |ac| && |route| == |ac| && |active| == |ac| && ActiveWaypoints(route, act)
    requires n <= |ac|
    ensures |rows| == |reso|
  {
    if n == 0 then reso
    else
      var rows := RecoveredRows(ac, reso, ap, route, act, active, probe, n - 1);
      if active[n - 1] then rows else rows[n - 1 := RecoveryAt(ac, reso, ap, route, act, probe, n - 1).row]
  }

  /** The autopilot targets after the recovery loop has visited the first n aircraft. */
  function RecoveredAps(ac: seq<Aircraft>, reso: seq<ResoRow>, ap: seq<Autopilot>, route: seq<Route>, act: seq<int>,
                        active: seq<bool>, probe: ProbeQuery -> bool, n: nat): (aps: seq<Autopilot>)
    requires |reso| == |ac| && |ap| == |ac| && |route| == |ac| && |active| == |ac| && ActiveWaypoints(route, act)
    requires n <= |ac|
    ensures |aps| == |ap|
  {
    if n == 0 then ap
    else
      var aps := RecoveredAps(ac, reso, ap, route, act, active, probe, n - 1);
      if active[n - 1] then aps else aps[n - 1 := RecoveryAt(ac, reso, ap, route, act, probe, n - 1).ap]
  }

  /** After n aircraft, exactly the inactive ones among them have been recovered, each once. */
  lemma {:induction false} RecoveredPointwise(ac: seq<Aircraft>, reso: seq<ResoRow>, ap: seq<Autopilot>,
                                              route: seq<Route>, act: seq<int>, active: seq<bool>,
                                              probe: ProbeQuery -> bool, n: nat)
    requires |reso| == |ac| && |ap| == |ac| && |route| == |ac| && |active| == |ac| && ActiveWaypoints(route, act)
    requires n <= |ac|
    ensures forall i :: 0 <= i < |ac| ==>
              var rows := RecoveredRows(ac, reso, ap, route, act, active, probe, n);
              var aps := RecoveredAps(ac, reso, ap, route, act, active, probe, n);
              if i >= n || active[i] then rows[i] == reso[i] && aps[i] == ap[i]
              else rows[i] == RecoveryAt(ac, reso, ap, route, act, probe, i).row
                   && aps[i] == RecoveryAt(ac, reso, ap, route, act, probe, i).ap
  {
    if n > 0 {
      RecoveredPointwise(ac, reso, ap, route, act, active, probe, n - 1);
    }
  }

  /**
   * One aircraft of the recovery loop: if its resolution is not active it
   * is recovered and its commands are pushed on the stack in order.
   */
  method VisitRecovery(traf: Traf, act: seq<int>, probe: ProbeQuery -> bool, log: CommandStack, idx: nat,
                       ghost ac: seq<Aircraft>, ghost route: seq<Route>, ghost active: seq<bool>,
                       ghost reso0: seq<ResoRow>, ghost ap0: seq<Autopilot>, ghost cmds0: seq<Cmd>)
    requires traf.ac == ac && traf.route == route && traf.active == active
    requires traf.Valid() && ActiveWaypoints(route, act) && idx < |ac|
    requires |reso0| == |ac| && |ap0| == |ac|
    requires traf.reso == RecoveredRows(ac, reso0, ap0, route, act, active, probe, idx)
    requires traf.ap == RecoveredAps(ac, reso0, ap0, route, act, active, probe, idx)
    requires log.cmds == cmds0 + RecoveryCmds(ac, reso0, ap0, route, act, active, probe, idx)
    modifies traf`reso, traf`ap, log
    ensures traf.Valid()
    ensures traf.reso == RecoveredRows(ac, reso0, ap0, route, act, active, probe, idx + 1)
    ensures traf.ap == RecoveredAps(ac, reso0, ap0, route, act, active, probe, idx + 1)
    ensures log.cmds == cmds0 + RecoveryCmds(ac, reso0, ap0, route, act, active, probe, idx + 1)
  {
    if !traf.active[idx] {
      RecoveredStep(ac, reso0, ap0, route, act, active, probe, idx);
      var out := Recovery(traf.ac[idx], idx, traf.reso[idx], traf.ap[idx], traf.route[idx], act[idx], probe);
      var cmds := RecoveryCommands(traf.ac[idx], idx, traf.reso[idx], traf.route[idx], act[idx], probe);
      ReplaceRowKeepsNoDup(traf.reso, idx, out.row, traf.reso[idx := out.row]);
      traf.reso := traf.reso[idx := out.row];
      traf.ap := traf.ap[idx := out.ap];
      log.PushAll(cmds);
    }
  }

  /** Visiting an inactive aircraft idx recovers its own row and autopilot, and appends its commands. */
  lemma RecoveredStep(ac: seq<Aircraft>, reso: seq<ResoRow>, ap: seq<Autopilot>, route: seq<Route>, act: seq<int>,
                      active: seq<bool>, probe: ProbeQuery -> bool, idx: nat)
    requires |reso| == |ac| && |ap| == |ac| && |route| == |ac| && |active| == |ac| && ActiveWaypoints(route, act)
    requires idx < |ac| && !active[idx]
    ensures var rows, aps := RecoveredRows(ac, reso, ap, route, act, active, probe, idx),
                             RecoveredAps(ac, reso, ap, route, act, active, probe, idx);
            var out := Recovery(ac[idx], idx, rows[idx], aps[idx], route[idx], act[idx], probe);
            && rows[idx] == reso[idx] && aps[idx] == ap[idx]
            && RecoveredRows(ac, reso, ap, route, act, active, probe, idx + 1) == rows[idx := out.row]
            && RecoveredAps(ac, reso, ap, route, act, active, probe, idx + 1) == aps[idx := out.ap]
            && RecoveryCmds(ac, reso, ap, route, act, active, probe, idx + 1)
               == RecoveryCmds(ac, reso, ap, route, act, active, probe, idx)
                  + RecoveryCommands(ac[idx], idx, rows[idx], route[idx], act[idx], probe)
  {
    RecoveredPointwise(ac, reso, ap, route, act, active, probe, idx);
  }

  /** Recovery keeps resoidint, so the rows stay free of duplicate intruders. */
  lemma ReplaceRowKeepsNoDup(reso: seq<ResoRow>, idx: nat, row: ResoRow, reso': seq<ResoRow>)
    requires idx < |reso| && row.resoidint == reso[idx].resoidint && reso' == reso[idx := row]
    requires forall i :: 0 <= i < |reso| ==> NoDup(reso[i].resoidint)
    ensures forall i :: 0 <= i < |reso'| ==> NoDup(reso'[i].resoidint)
  {
    forall i | 0 <= i < |reso'| ensures NoDup(reso'[i].resoidint)
    {
      assert reso'[i].resoidint == reso[i].resoidint;
    }
  }

  /**
   * The third loop of `resumenav`: every aircraft whose resolution is not
   * active, in index order, goes through waypoint recovery.
   */
  method RecoverAll(traf: Traf, act: seq<int>, probe: ProbeQuery -> bool, log: CommandStack)
    requires traf.Valid() && ActiveWaypoints(traf.route, act)
    modifies traf`reso, traf`ap, log
    ensures traf.Valid()
    ensures traf.reso == RecoveredRows(traf.ac, old(traf.reso), old(traf.ap), traf.route, act, traf.active, probe, |traf.ac|)
    ensures traf.ap == RecoveredAps(traf.ac, old(traf.reso), old(traf.ap), traf.route, act, traf.active, probe, |traf.ac|)
    ensures log.cmds == old(log.cmds) + RecoveryCmds(traf.ac, old(traf.reso), old(traf.ap), traf.route, act,
                                                     traf.active, probe, |traf.ac|)
  {
    ghost var reso0, ap0, cmds0 := traf.reso, traf.ap, log.cmds;
    ghost var ac, route, active := traf.ac, traf.route, traf.active;
    assert RecoveryCmds(ac, reso0, ap0, route, act, active, probe, 0) == [];
    assert log.cmds == cmds0 + [];
    var idx := 0;
    while idx < |traf.ac|
      invariant 0 <= idx <= |ac| && traf.ac == ac && traf.route == route && traf.active == active
      invariant traf.Valid()
      invariant traf.reso == RecoveredRows(ac, reso0, ap0, route, act, active, probe, idx)
      invariant traf.ap == RecoveredAps(ac, reso0, ap0, route, act, active, probe, idx)
      invariant log.cmds == cmds0 + RecoveryCmds(ac, reso0, ap0, route, act, active, probe, idx)
    {
      VisitRecovery(traf, act, probe, log, idx, ac, route, active, reso0, ap0, cmds0);
      idx := idx + 1;
    }
  }

  // ---------------------------------------------------------------- the whole tick

  /** The rows after the retention pass over s. */
  function RetainedRows(rules: Rules, sc: Scene, s: set<Pair>): (rows: seq<ResoRow>)
    requires sc.Valid()
    ensures |rows| == |sc.reso|
    ensures forall i :: 0 <= i < |rows| ==> rows[i] == RetainedRow(rules, sc, s, i)
  {
    seq(|sc.reso|, i requires 0 <= i < |sc.reso| => RetainedRow(rules, sc, s, i))
  }

  /** Every key of `changeactive` indexes an aircraft. */
  lemma OwnersExist(sc: Scene, s: set<Pair>)
    ensures forall i :: i in Owners(sc, s) ==> i < |sc.ac|
  {
  }

  /**
   * The first two loops of `resumenav`: the new conflict pairs join
   * resopairs; the pairs that are not kept leave it and their intruders
   * leave the ownships' resoidint; an ownship with a pair left is active,
   * one whose pairs all went is not.
   */
  method RetainPairs(traf: Traf, rules: Rules, sc: Scene, confpairs: seq<Pair>)
    requires traf.Valid() && sc.Valid() && sc.ac == traf.ac && sc.reso == traf.reso
    modifies traf`resopairs, traf`reso, traf`active
    ensures traf.Valid()
    ensures var all := old(traf.resopairs) + (set p | p in confpairs);
            && traf.resopairs == (set p | p in all && Kept(rules, sc, p))
            && traf.reso == RetainedRows(rules, sc, all)
            && forall i :: 0 <= i < |traf.ac| ==>
                 traf.active[i] == if i in Owners(sc, all) then i in KeptOwners(rules, sc, all) else old(traf.active[i])
  {
    ghost var all := traf.resopairs + (set p | p in confpairs);
    traf.resopairs := traf.resopairs + (set p | p in confpairs);
    var delpairs, changeactive := ScanPairs(traf, rules, sc);
    KeptPairs(rules, sc, all);
    traf.resopairs := traf.resopairs - delpairs;
    OwnersExist(sc, all);
    SetActive(traf, changeactive);
  }

  /**
   * `resumenav` (hybridResolution.py, and with `HybridResoRules` the
   * retention pass of hybridreso.py): the retention pass, then waypoint
   * recovery of every aircraft left inactive.
   */
  method ResumeNav(traf: Traf, rules: Rules, confpairs: seq<Pair>, geometry: Pair -> PairGeometry,
                   probe: ProbeQuery -> bool, act: seq<int>, log: CommandStack)
    requires traf.Valid() && ActiveWaypoints(traf.route, act)
    modifies traf`resopairs, traf`reso, traf`active, traf`ap, log
    ensures traf.Valid()
    ensures var sc := Scene(traf.ac, old(traf.reso), traf.route, act, traf.layerHeight, geometry, probe);
            var all := old(traf.resopairs) + (set p | p in confpairs);
            var retained := RetainedRows(rules, sc, all);
            && traf.resopairs == (set p | p in all && Kept(rules, sc, p))
            && (forall i :: 0 <= i < |traf.ac| ==>
                  traf.active[i] == if i in Owners(sc, all) then i in KeptOwners(rules, sc, all) else old(traf.active[i]))
            && traf.reso == RecoveredRows(traf.ac, retained, old(traf.ap), traf.route, act, traf.active, probe, |traf.ac|)
            && traf.ap == RecoveredAps(traf.ac, retained, old(traf.ap), traf.route, act, traf.active, probe, |traf.ac|)
            && log.cmds == old(log.cmds) + RecoveryCmds(traf.ac, retained, old(traf.ap), traf.route, act, traf.active,
                                                        probe, |traf.ac|)
  {
    var sc := Scene(traf.ac, traf.reso, traf.route, act, traf.layerHeight, geometry, probe);
    RetainPairs(traf, rules, sc, confpairs);
    ghost var active := traf.active;
    RecoverAll(traf, act, probe, log);
    assert traf.ac == sc.ac && traf.route == sc.route && traf.layerHeight == sc.layerHeight && traf.active == active;
  }

  /** Removing the dropped pairs leaves the kept ones. */
  lemma KeptPairs(rules: Rules, sc: Scene, all: set<Pair>)
    requires sc.Valid()
    ensures all - (set q | q in all && !Kept(rules, sc, q)) == set q | q in all && Kept(rules, sc, q)
  {
  }
}
