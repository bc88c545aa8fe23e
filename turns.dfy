/**
 * Turn detection along a planned route (`PathPlanner.get_turn_arrays` and
 * the turn bookkeeping of `PathPlanner.route`) and the two turn-speed
 * tables of the strategic router, which map the same angles to different
 * speeds.
 */
module Turns {
  /** Absolute value of a real. */
  function AbsR(x: real): (r: real)
    ensures r >= 0.0 && (r == x || r == -x)
  {
    if x < 0.0 then -x else x
  }

  /** The heading change between two bearings, folded into [0, 180]: `abs(d2 - d1)`, then `360 - angle` above 180. */
  function Fold(d1: real, d2: real): real
  {
    var angle := AbsR(d2 - d1);
    if angle > 180.0 then 360.0 - angle else angle
  }

  /** Bearings as `arctan2` returns them, in [-180, 180], fold into [0, 180]. */
  lemma FoldRange(d1: real, d2: real)
    requires -180.0 <= d1 <= 180.0 && -180.0 <= d2 <= 180.0
    ensures 0.0 <= Fold(d1, d2) <= 180.0
    ensures Fold(d1, d2) == Fold(d2, d1)
  {
  }

  /** The bearing from one (lat, lon) to another (`qdrdist`), taken as given. */
  type Bearing = (real, real, real, real) -> real

  /** The heading change at interior point i: bearing into it against bearing out of it. */
  function Angle(qdr: Bearing, lats: seq<real>, lons: seq<real>, i: int): real
    requires |lons| == |lats| && 1 <= i < |lats| - 1
  {
    Fold(qdr(lats[i - 1], lons[i - 1], lats[i], lons[i]), qdr(lats[i], lons[i], lats[i + 1], lons[i + 1]))
  }

  /** Point i is a turn: an interior point whose heading change exceeds the cutoff. */
  predicate IsTurn(qdr: Bearing, lats: seq<real>, lons: seq<real>, cutoff: real, i: int)
    requires |lons| == |lats|
  {
    1 <= i < |lats| - 1 && Angle(qdr, lats, lons, i) > cutoff
  }

  /** The turn speed of `get_turn_arrays`: 10 below 100 degrees, 5 below 150, else 2. */
  function ArraysTurnSpeed(angle: real): real
  {
    if angle < 100.0 then 10.0 else if angle < 150.0 then 5.0 else 2.0
  }

  /** The coordinates stored for a point that is not a turn. */
  const NoTurnCoords: (real, real) := (-9999.9, -9999.9)

  /** What `get_turn_arrays` leaves at point j once the points before i are done. */
  function FlagAt(qdr: Bearing, lats: seq<real>, lons: seq<real>, cutoff: real, i: int, j: int): bool
    requires |lons| == |lats|
  {
    j < i && IsTurn(qdr, lats, lons, cutoff, j)
  }

  function SpeedAt(qdr: Bearing, lats: seq<real>, lons: seq<real>, cutoff: real, i: int, j: int): real
    requires |lons| == |lats|
  {
    if FlagAt(qdr, lats, lons, cutoff, i, j) then ArraysTurnSpeed(Angle(qdr, lats, lons, j)) else 0.0
  }

  function CoordsAt(qdr: Bearing, lats: seq<real>, lons: seq<real>, cutoff: real, i: int, j: int): (real, real)
    requires |lons| == |lats| && 0 <= j < |lats|
  {
    if FlagAt(qdr, lats, lons, cutoff, i, j) then (lats[j], lons[j]) else NoTurnCoords
  }

  /**
   * The arrays hold the final values for points before i and the initial
   * ones (no turn, speed 0, the sentinel) from i on.
   */
  ghost predicate MarkedUpTo(qdr: Bearing, lats: seq<real>, lons: seq<real>, cutoff: real,
                             turnBool: array<bool>, turnSpeed: array<real>, turnCoords: array<(real, real)>, i: int)
    requires |lons| == |lats|
    reads turnBool, turnSpeed, turnCoords
  {
    && turnBool.Length == turnSpeed.Length == turnCoords.Length == |lats|
    && forall j :: 0 <= j < |lats| ==>
         && turnBool[j] == FlagAt(qdr, lats, lons, cutoff, i, j)
         && turnSpeed[j] == SpeedAt(qdr, lats, lons, cutoff, i, j)
         && turnCoords[j] == CoordsAt(qdr, lats, lons, cutoff, i, j)
  }

  /**
   * `get_turn_arrays(lats, lons, cutoff)`: for every point whether it is a
   * turn, its turn speed (0 when not) and its coordinates (the sentinel
   * when not), plus the heading change at each interior point in order.
   * The first and the last point are never turns.
   */
  method GetTurnArrays(qdr: Bearing, lats: seq<real>, lons: seq<real>, cutoff: real)
    returns (turnBool: array<bool>, turnSpeed: array<real>, turnCoords: array<(real, real)>, angles: seq<real>)
    requires |lats| >= 1 && |lons| == |lats|
    ensures fresh(turnBool) && fresh(turnSpeed) && fresh(turnCoords)
    ensures turnBool.Length == turnSpeed.Length == turnCoords.Length == |lats|
    ensures |angles| == if |lats| >= 2 then |lats| - 2 else 0
    ensures forall k :: 0 <= k < |angles| ==> angles[k] == Angle(qdr, lats, lons, k + 1)
    ensures forall i :: 0 <= i < |lats| ==> turnBool[i] == IsTurn(qdr, lats, lons, cutoff, i)
    ensures forall i :: 0 <= i < |lats| ==>
              turnSpeed[i] == if IsTurn(qdr, lats, lons, cutoff, i) then ArraysTurnSpeed(Angle(qdr, lats, lons, i)) else 0.0
    ensures forall i :: 0 <= i < |lats| ==>
              turnCoords[i] == if IsTurn(qdr, lats, lons, cutoff, i) then (lats[i], lons[i]) else NoTurnCoords
  {
    var n := |lats|;
    turnSpeed := new real[n](_ => 0.0);
    turnBool := new bool[n](_ => false);
    turnCoords := new (real, real)[n](_ => NoTurnCoords);
    angles := [];
    var latPrev, lonPrev := lats[0], lons[0];
    var i := 1;
    while i < n - 1
      invariant 1 <= i <= (if n >= 2 then n - 1 else 1)
      invariant latPrev == lats[i - 1] && lonPrev == lons[i - 1]
      invariant |angles| == i - 1
      invariant forall k :: 0 <= k < i - 1 ==> angles[k] == Angle(qdr, lats, lons, k + 1)
      invariant MarkedUpTo(qdr, lats, lons, cutoff, turnBool, turnSpeed, turnCoords, i)
    {
      var angle := Mark(qdr, lats, lons, cutoff, i, latPrev, lonPrev, turnBool, turnSpeed, turnCoords);
      angles := angles + [angle];
      latPrev, lonPrev := lats[i], lons[i];
      i := i + 1;
    }
    assert forall j :: 0 <= j < n ==> FlagAt(qdr, lats, lons, cutoff, i, j) == IsTurn(qdr, lats, lons, cutoff, j);
  }

  /** One pass of `get_turn_arrays`'s loop: the heading change at point i, and its entries. */
  method Mark(qdr: Bearing, lats: seq<real>, lons: seq<real>, cutoff: real, i: int, latPrev: real, lonPrev: real,
              turnBool: array<bool>, turnSpeed: array<real>, turnCoords: array<(real, real)>)
    returns (angle: real)
    requires |lons| == |lats| && 1 <= i < |lats| - 1
    requires latPrev == lats[i - 1] && lonPrev == lons[i - 1]
    requires MarkedUpTo(qdr, lats, lons, cutoff, turnBool, turnSpeed, turnCoords, i)
    modifies turnBool, turnSpeed, turnCoords
    ensures angle == Angle(qdr, lats, lons, i)
    ensures MarkedUpTo(qdr, lats, lons, cutoff, turnBool, turnSpeed, turnCoords, i + 1)
  {
    var latCur, lonCur := lats[i], lons[i];
    var latNext, lonNext := lats[i + 1], lons[i + 1];
    var d1 := qdr(latPrev, lonPrev, latCur, lonCur);
    var d2 := qdr(latCur, lonCur, latNext, lonNext);
    angle := AbsR(d2 - d1);
    angle := if angle > 180.0 then 360.0 - angle else angle;
    if angle > cutoff && i != 0 {
      turnBool[i] := true;
      turnCoords[i] := (latCur, lonCur);
      if angle < 100.0 {
        turnSpeed[i] := 10.0;
      } else if angle < 150.0 {
        turnSpeed[i] := 5.0;
      } else {
        turnSpeed[i] := 2.0;
      }
    } else {
      turnCoords[i] := NoTurnCoords;
    }
  }

  /** `turn_indices` of `route`: the positions whose flag is set, in increasing order. */
  method TurnIndices(turnBool: seq<bool>) returns (indices: seq<nat>)
    ensures forall k :: 0 <= k < |indices| ==> indices[k] < |turnBool| && turnBool[indices[k]]
    ensures forall i :: 0 <= i < |turnBool| && turnBool[i] ==> i in indices
    ensures forall k, l :: 0 <= k < l < |indices| ==> indices[k] < indices[l]
    ensures |indices| == Count(turnBool)
    ensures indices == Positions(turnBool)
  {
    indices := [];
    var i := 0;
    while i < |turnBool|
      invariant 0 <= i <= |turnBool|
      invariant indices == Positions(turnBool[..i])
    {
      assert turnBool[..i + 1][..i] == turnBool[..i];
      if turnBool[i] {
        indices := indices + [i];
      }
      i := i + 1;
    }
    assert turnBool[..i] == turnBool;
    PositionsOrdered(turnBool);
  }

  /** The number of set flags. */
  function Count(flags: seq<bool>): nat
  {
    if flags == [] then 0 else Count(flags[..|flags| - 1]) + (if flags[|flags| - 1] then 1 else 0)
  }

  lemma CountAppend(flags: seq<bool>, b: bool)
    ensures Count(flags + [b]) == Count(flags) + (if b then 1 else 0)
  {
    assert (flags + [b])[..|flags|] == flags;
  }

  /** The positions of the set flags, in increasing order. */
  function Positions(flags: seq<bool>): (r: seq<nat>)
    ensures |r| == Count(flags)
    ensures forall k :: 0 <= k < |r| ==> r[k] < |flags| && flags[r[k]]
  {
    if flags == [] then []
    else Positions(flags[..|flags| - 1]) + (if flags[|flags| - 1] then [|flags| - 1] else [])
  }

  /** Every set flag is listed, and the positions increase. */
  lemma {:induction false} PositionsOrdered(flags: seq<bool>)
    ensures forall i :: 0 <= i < |flags| && flags[i] ==> i in Positions(flags)
    ensures forall k, l :: 0 <= k < l < |Positions(flags)| ==> Positions(flags)[k] < Positions(flags)[l]
  {
    if flags != [] {
      var n := |flags|;
      var ps := Positions(flags[..n - 1]);
      PositionsOrdered(flags[..n - 1]);
      assert Positions(flags) == ps + (if flags[n - 1] then [n - 1] else []);
      forall i | 0 <= i < n - 1 && flags[i]
        ensures i in Positions(flags)
      {
        assert flags[..n - 1][i];
      }
    }
  }

  /** `list(filter(lambda num: num != 0, turn_speeds))`. */
  function NonZero(speeds: seq<real>): (r: seq<real>)
    ensures |r| <= |speeds|
    ensures forall k :: 0 <= k < |r| ==> r[k] != 0.0
  {
    if speeds == [] then []
    else NonZero(speeds[..|speeds| - 1]) + (if speeds[|speeds| - 1] != 0.0 then [speeds[|speeds| - 1]] else [])
  }

  /**
   * In the arrays `get_turn_arrays` returns, a point has a non-zero speed
   * exactly when it is a turn, so the filtered speeds are one per turn,
   * in route order.
   */
  lemma {:induction false} OneSpeedPerTurn(flags: seq<bool>, speeds: seq<real>)
    requires |flags| == |speeds|
    requires forall i :: 0 <= i < |flags| ==> (flags[i] <==> speeds[i] != 0.0)
    ensures |NonZero(speeds)| == Count(flags)
  {
    if flags != [] {
      var n := |flags|;
      OneSpeedPerTurn(flags[..n - 1], speeds[..n - 1]);
    }
  }

  /**
   * When the non-zero speeds are exactly those at the set flags, the
   * filtered list holds, in order, the speed at each set flag's position.
   */
  lemma {:induction false} NonZeroAtPositions(flags: seq<bool>, speeds: seq<real>)
    requires |flags| == |speeds|
    requires forall i :: 0 <= i < |flags| ==> (flags[i] <==> speeds[i] != 0.0)
    ensures |NonZero(speeds)| == |Positions(flags)|
    ensures forall k :: 0 <= k < |Positions(flags)| ==> NonZero(speeds)[k] == speeds[Positions(flags)[k]]
  {
    if flags != [] {
      var n := |flags|;
      NonZeroAtPositions(flags[..n - 1], speeds[..n - 1]);
      assert NonZero(speeds) == NonZero(speeds[..n - 1]) + (if speeds[n - 1] != 0.0 then [speeds[n - 1]] else []);
      assert Positions(flags) == Positions(flags[..n - 1]) + (if flags[n - 1] then [n - 1] else []);
    }
  }

  // The table `buildScenarioUnitary` uses.

  /** `buildScenarioUnitary`'s table: 2 in [25, 100), 5 in [100, 150), 10 from 150 on and below 25. */
  function UnitaryTurnSpeed(angle: real): int
  {
    if 25.0 <= angle < 100.0 then 2
    else if 100.0 <= angle < 150.0 then 5
    else if angle >= 150.0 then 10
    else 10
  }

  /**
   * The two tables agree only on [100, 150): on a turn of at least 25
   * degrees the sharp and the wide angles swap 10 and 2.
   */
  lemma TurnTablesDisagree(angle: real)
    requires angle >= 25.0
    ensures UnitaryTurnSpeed(angle) as real == ArraysTurnSpeed(angle) <==> 100.0 <= angle < 150.0
    ensures angle < 100.0 ==> ArraysTurnSpeed(angle) == 10.0 && UnitaryTurnSpeed(angle) == 2
    ensures angle >= 150.0 ==> ArraysTurnSpeed(angle) == 2.0 && UnitaryTurnSpeed(angle) == 10
  {
  }

  /** The interior angles `buildScenarioUnitary` keeps: those below 180 - cutoff, in order. */
  function Kept(angles: seq<real>, cutoff: int): (r: seq<real>)
    ensures |r| <= |angles|
    ensures forall k :: 0 <= k < |r| ==> r[k] < (180 - cutoff) as real && r[k] in angles
  {
    if angles == [] then []
    else
      var last := angles[|angles| - 1];
      Kept(angles[..|angles| - 1], cutoff) + (if last < (180 - cutoff) as real then [last] else [])
  }

  /** `turn_speeds` of `buildScenarioUnitary`: the kept angles, each through its table. */
  method UnitaryTurnSpeeds(angles: seq<real>, cutoff: int) returns (speeds: seq<int>)
    ensures |speeds| == |Kept(angles, cutoff)|
    ensures forall k :: 0 <= k < |speeds| ==> speeds[k] == UnitaryTurnSpeed(Kept(angles, cutoff)[k])
  {
    var kept: seq<real> := [];
    var i := 0;
    while i < |angles|
      invariant 0 <= i <= |angles|
      invariant kept == Kept(angles[..i], cutoff)
    {
      assert angles[..i + 1][..i] == angles[..i];
      if angles[i] < (180 - cutoff) as real {
        kept := kept + [angles[i]];
      }
      i := i + 1;
    }
    assert angles[..i] == angles;
    speeds := [];
    var k := 0;
    while k < |kept|
      invariant 0 <= k <= |kept|
      invariant |speeds| == k
      invariant forall j :: 0 <= j < k ==> speeds[j] == UnitaryTurnSpeed(kept[j])
    {
      speeds := speeds + [UnitaryTurnSpeed(kept[k])];
      k := k + 1;
    }
  }
}
