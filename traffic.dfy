/**
 * The per-aircraft traffic arrays (`traf`) that the resolution and checker
 * plugins read and write, held as one sequence per group of arrays,
 * indexed by aircraft.
 */
module Traffic {
  import opened Wrappers
  import PyText

  /** bluesky.tools.aero unit factors (SI value of one foot, knot, nautical mile). */
  const Ft: real := 0.3048
  const Kts: real := 0.514444
  const Nm: real := 1852.0

  /**
   * The flat-earth helpers of `bluesky.tools.geo`, taken as given:
   * `kwikqdrdist(lat1, lon1, lat2, lon2)` gives (bearing, distance in nm)
   * and `kwikpos(lat, lon, bearing, dist_nm)` gives (lat, lon).
   */
  datatype Geo = Geo(qdrdist: (real, real, real, real) -> (real, real),
                     pos: (real, real, real, real) -> (real, real))

  /** Python's `abs` and two-argument `max` on floats. */
  function Abs(x: real): real { if x < 0.0 then -x else x }

  function Max(a: real, b: real): real { if a >= b then a else b }

  /** `traf.resostrategy`: "None", "RESO1" … "RESO9", or any other string. */
  datatype Strategy = NoReso | Reso1 | Reso2 | Reso3 | Reso5 | Reso6 | Reso7 | Reso8 | Reso9 | Other(name: string)

  /** One entry of the layer table (`layernames`, `layerLowerAlt`, … `layerUpperSpd`). */
  datatype Layer = Layer(name: string, lowerAlt: real, upperAlt: real, lowerSpd: real, upperSpd: real)

  /** What the plugins only read about one aircraft during a tick. */
  datatype Aircraft = Aircraft(
    id: string, priority: int, phase: int,
    lat: real, lon: real, alt: real, vs: real, gs: real,
    gsEast: real, gsNorth: real,
    layer: nat,                 // index of `aclayername` in the layer table
    vsmin: real, vsmax: real,   // traf.perf
    rpz: real, hpz: real)       // traf.cd

  /** Autopilot targets the resolution code overwrites (`ap.tas`, `ap.vs`, `ap.alt`, `selalt`). */
  datatype Autopilot = Autopilot(tas: real, vs: real, alt: real, selalt: real)

  /** A flight plan (`traf.ap.route[i]`). */
  datatype Route = Route(wpname: seq<string>, wplat: seq<real>, wplon: seq<real>,
                         wpalt: seq<real>, wpspd: seq<real>, iactwp: int)
  {
    ghost predicate Valid()
    {
      |wplat| == |wpname| && |wplon| == |wpname| && |wpalt| == |wpname| && |wpspd| == |wpname|
      && -1 <= iactwp < |wpname|
    }
  }

  /** The resolution bookkeeping of one aircraft: strategy, the four channels, targets. */
  datatype ResoRow = ResoRow(
    strategy: Strategy,
    hdgActive: bool, tasActive: bool, altActive: bool, vsActive: bool,
    resospd: real, resoalt: real, resovs: real,
    recoveryspd: real, recoveryvs: real,
    resoidint: seq<string>)
  {
    /** All four channels off. */
    predicate Idle() { !hdgActive && !tasActive && !altActive && !vsActive }

    /** The row after "None" is set and the four channels are switched off. */
    function Released(): (r: ResoRow)
      ensures r.strategy == NoReso && r.Idle()
      ensures r.resoidint == resoidint
    {
      this.(strategy := NoReso, hdgActive := false, tasActive := false, altActive := false, vsActive := false)
    }
  }

  /**
   * A question put to the conflict probe (plugins/m2/conflictprobe.py is not
   * part of this model; its answers are a parameter of the operations that
   * ask). The answer is true when the probe predicts a conflict.
   */
  datatype ProbeQuery =
    | ClimbProbe(own: nat, against: Option<nat>)    // dtlook = dtlookup[own], targetVs = vsmax[own]
    | DescendProbe(own: nat, against: Option<nat>)  // dtlook = dtlookdown[own], targetVs = vsmin[own]
    | ClimbLayerProbe(own: nat)                     // dtlook = |layerHeight / vsmax[own]|, targetVs = vsmax[own]
    | DescendLayerProbe(own: nat)                   // dtlook = |layerHeight / vsmin[own]|, targetVs = vsmin[own]
    | SpeedProbe(own: nat, targetGs: real)          // targetGs = recoveryspd[own]

  /** Callsigns of the form letter + digits, as `int(id[1:])` expects. */
  predicate WellFormedCallsign(id: string)
  {
    |id| >= 2 && PyText.AllDigits(id[1..])
  }

  predicate NoDup<T(==)>(s: seq<T>)
  {
    forall i, j :: 0 <= i < j < |s| ==> s[i] != s[j]
  }

  /** `traf.id.index(name)` / `traf.id2idx(name)`: the index of a callsign, or -1. */
  function IdIndex(ac: seq<Aircraft>, name: string): (r: int)
    ensures -1 <= r < |ac|
    ensures r >= 0 ==> ac[r].id == name
  {
    if ac == [] then -1
    else if ac[0].id == name then 0
    else var k := IdIndex(ac[1..], name); if k == -1 then -1 else k + 1
  }

  /** `traf.id.index(name)` finds the first aircraft with that callsign, and -1 means there is none. */
  lemma {:induction false} IdIndexFirst(ac: seq<Aircraft>, name: string)
    ensures var r := IdIndex(ac, name);
            && (r >= 0 ==> forall j :: 0 <= j < r ==> ac[j].id != name)
            && (r == -1 <==> forall j :: 0 <= j < |ac| ==> ac[j].id != name)
  {
    if ac != [] && ac[0].id != name {
      IdIndexFirst(ac[1..], name);
      assert forall j :: 1 <= j < |ac| ==> ac[j] == ac[1..][j - 1];
    }
  }

  /** No two aircraft share a callsign: BlueSky refuses to create an aircraft under a callsign in use. */
  predicate UniqueCallsigns(ac: seq<Aircraft>)
  {
    forall i, j :: 0 <= i < j < |ac| ==> ac[i].id != ac[j].id
  }

  /** With unique callsigns `traf.id2idx(traf.id[k])` is `k`, so a loop over `traf.id` visits every index once. */
  lemma IdIndexOwn(ac: seq<Aircraft>, k: nat)
    requires UniqueCallsigns(ac) && k < |ac|
    ensures IdIndex(ac, ac[k].id) == k
  {
    IdIndexFirst(ac, ac[k].id);
  }

  /** Python indexing `s[k]` for `-|s| <= k < |s|`. */
  function PyIndex<T>(s: seq<T>, k: int): T
    requires -|s| <= k < |s|
  {
    if k >= 0 then s[k] else s[|s| + k]
  }

  /** Python's `s[k:]`, a negative `k` counting from the end. */
  function PyFrom<T>(s: seq<T>, k: int): (r: seq<T>)
    ensures 0 <= k <= |s| ==> r == s[k..]
    ensures -|s| <= k < 0 ==> r == s[|s| + k..]
  {
    if k >= |s| then []
    else if k >= 0 then s[k..]
    else if |s| + k >= 0 then s[|s| + k..]
    else s
  }

  /**
   * `np.argmax(wpname)` on a non-empty list of names: the first index of the
   * greatest name under Python's string order.
   */
  function ArgMax(names: seq<string>): (r: nat)
    requires |names| > 0
    ensures r < |names|
    ensures forall j :: 0 <= j < |names| ==> !PyText.StrLess(names[r], names[j])
    ensures forall j :: 0 <= j < r ==> PyText.StrLess(names[j], names[r])
  {
    if |names| == 1 then
      PyText.StrLessOrder(names[0], names[0]);
      0
    else
      var init := names[..|names| - 1];
      var last := names[|names| - 1];
      var b := ArgMax(init);
      assert forall j :: 0 <= j < |init| ==> init[j] == names[j];
      PyText.StrLessOrder(names[b], last);
      if PyText.StrLess(names[b], last) then
        assert forall j :: 0 <= j < |names| - 1 ==> PyText.StrLess(names[j], last) && !PyText.StrLess(last, names[j]) by {
          forall j | 0 <= j < |names| - 1
            ensures PyText.StrLess(names[j], last) && !PyText.StrLess(last, names[j])
          {
            PyText.StrLessOrder(names[j], names[b]);
            if names[j] != names[b] {
              PyText.StrLessTrans(names[j], names[b], last);
            }
            PyText.StrLessOrder(names[j], last);
          }
        }
        PyText.StrLessOrder(last, last);
        |names| - 1
      else
        assert forall j :: 0 <= j < |names| ==> !PyText.StrLess(names[b], names[j]) by {
          forall j | 0 <= j < |names|
            ensures !PyText.StrLess(names[b], names[j])
          {
            if j == |names| - 1 {
            }
          }
        }
        b
  }

  /** Every aircraft has a layer above it, as `layerLowerAlt[idxCurrentLayer + 1]` needs. */
  predicate LayerAboveExists(ac: seq<Aircraft>, layers: seq<Layer>)
  {
    forall i :: 0 <= i < |ac| ==> ac[i].layer + 1 < |layers|
  }

  /** `norms[i]` is `np.linalg.norm` of aircraft i's ground-velocity vector. */
  predicate SpeedNorms(ac: seq<Aircraft>, norms: seq<real>)
  {
    |norms| == |ac|
    && forall i :: 0 <= i < |ac| ==>
         norms[i] >= 0.0 && norms[i] * norms[i] == ac[i].gsEast * ac[i].gsEast + ac[i].gsNorth * ac[i].gsNorth
  }

  /** Every aircraft flies in a known layer under a callsign of the form letter + digits. */
  predicate FleetWellFormed(ac: seq<Aircraft>, layers: seq<Layer>)
  {
    forall i :: 0 <= i < |ac| ==> ac[i].layer < |layers| && WellFormedCallsign(ac[i].id)
  }

  /** No aircraft lists the same intruder twice in its resoidint. */
  predicate RowsWellFormed(reso: seq<ResoRow>)
  {
    forall i :: 0 <= i < |reso| ==> NoDup(reso[i].resoidint)
  }

  class Traf {
    var ac: seq<Aircraft>
    var ap: seq<Autopilot>
    var route: seq<Route>
    var preresoroute: seq<Route>
    var reso: seq<ResoRow>
    var active: seq<bool>                    // traf.cr.active
    var resopairs: set<(string, string)>     // traf.cr.resopairs
    var layers: seq<Layer>
    var layerHeight: real

    ghost predicate Valid()
      reads this
    {
      |ap| == |ac| && |route| == |ac| && |preresoroute| == |ac| && |reso| == |ac| && |active| == |ac|
      && FleetWellFormed(ac, layers) && RowsWellFormed(reso)
    }

    constructor (ac0: seq<Aircraft>, ap0: seq<Autopilot>, route0: seq<Route>, layers0: seq<Layer>, layerHeight0: real)
      requires |ap0| == |ac0| && |route0| == |ac0|
      requires forall i :: 0 <= i < |ac0| ==> ac0[i].layer < |layers0| && WellFormedCallsign(ac0[i].id)
      ensures Valid()
      ensures ac == ac0 && ap == ap0 && route == route0 && layers == layers0 && layerHeight == layerHeight0
      ensures resopairs == {} && forall i :: 0 <= i < |ac| ==> !active[i] && reso[i] == NewRow()
    {
      ac, ap, route, preresoroute := ac0, ap0, route0, route0;
      layers, layerHeight := layers0, layerHeight0;
      reso := seq(|ac0|, _ => NewRow());
      active := seq(|ac0|, _ => false);
      resopairs := {};
    }
  }

  /** The bookkeeping of a newly created aircraft. */
  function NewRow(): (r: ResoRow)
    ensures r.strategy == NoReso && r.Idle() && r.resoidint == []
  {
    ResoRow(NoReso, false, false, false, false, 0.0, 0.0, 0.0, 0.0, 0.0, [])
  }
}
