/**
 * The centralised cruise-speed plugin (`M2CentralisedSpd.navtimedfunction`):
 * every half second, each aircraft flying its route level, straight, not
 * rogue and not landing gets its type's cruise speed as selected speed;
 * every other aircraft keeps its selected speed.
 */
module CentralisedSpd {
  import opened Traffic

  /** What the mask reads of one aircraft besides its selected speed. */
  datatype NavRow = NavRow(lnav: bool,          // swlnav
                           rogue: bool,         // roguetraffic.rogue_bool
                           inturn: bool,        // ap.inturn
                           dist2turn: real,     // ap.dist2turn
                           vs: real,
                           actype: string)      // traf.type

  /** `in_turn`: in a turn, or less than 75 from the next one. */
  predicate InTurn(r: NavRow)
  {
    r.inturn || r.dist2turn < 75.0
  }

  /** `set_cruise_speed[i]`: LNAV on, not rogue, a selected speed other than 0, not in a turn, no vertical manoeuvre. */
  predicate SetsCruise(r: NavRow, selspd: real)
  {
    r.lnav && !r.rogue && selspd != 0.0 && !InTurn(r) && !(Abs(r.vs) > 0.0)
  }

  /** `cruise_speed[i]`: 20 for the MP20 type, 30 for every other type. */
  function CruiseSpeed(actype: string): real
  {
    if actype == "MP20" then 20.0 else 30.0
  }

  /** `np.where(mask, a, b)`: a where the mask holds, b elsewhere. */
  function Where(mask: seq<bool>, a: seq<real>, b: seq<real>): (r: seq<real>)
    requires |mask| == |a| == |b|
    ensures |r| == |b|
    ensures forall i :: 0 <= i < |b| ==> r[i] == (if mask[i] then a[i] else b[i])
  {
    if mask == [] then []
    else [if mask[0] then a[0] else b[0]] + Where(mask[1..], a[1..], b[1..])
  }

  /**
   * `navtimedfunction` with the type test read element-wise, as evidently
   * meant (NavTimedAsWritten is the code as it reads): the new `selspd`,
   * or `selspd` itself when there is no aircraft.
   */
  function NavTimed(rows: seq<NavRow>, selspd: seq<real>): (r: seq<real>)
    requires |rows| == |selspd|
  {
    if |rows| == 0 then selspd
    else
      var mask := seq(|rows|, i requires 0 <= i < |rows| => SetsCruise(rows[i], selspd[i]));
      var cruise := seq(|rows|, i requires 0 <= i < |rows| => CruiseSpeed(rows[i].actype));
      Where(mask, cruise, selspd)
  }

  /**
   * The array keeps its length; aircraft i gets 20 (MP20) or 30 exactly when
   * LNAV is on, it is not rogue, its selected speed is not 0, it is not in
   * a turn nor within 75 of one, and its vertical speed is 0; every other
   * aircraft keeps its selected speed.
   */
  lemma NavTimedMask(rows: seq<NavRow>, selspd: seq<real>)
    requires |rows| == |selspd|
    ensures var r := NavTimed(rows, selspd);
            && |r| == |selspd|
            && forall i :: 0 <= i < |selspd| ==>
                 var row := rows[i];
                 if row.lnav && !row.rogue && selspd[i] != 0.0 && !row.inturn && row.dist2turn >= 75.0 && row.vs == 0.0
                 then r[i] == (if row.actype == "MP20" then 20.0 else 30.0)
                 else r[i] == selspd[i]
  {
  }

  /**
   * `navtimedfunction` as written. `bs.traf.type` is a Python list, and a
   * list compared with the string 'MP20' is the single value False, so
   * `np.where` gives the one cruise speed 30, which the second `np.where`
   * broadcasts to every aircraft.
   */
  function NavTimedAsWritten(rows: seq<NavRow>, selspd: seq<real>): (r: seq<real>)
    requires |rows| == |selspd|
  {
    if |rows| == 0 then selspd
    else
      var mask := seq(|rows|, i requires 0 <= i < |rows| => SetsCruise(rows[i], selspd[i]));
      Where(mask, seq(|rows|, _ => 30.0), selspd)
  }

  /**
   * As written, every aircraft the mask selects gets 30, an MP20 included;
   * every other aircraft keeps its selected speed.
   */
  lemma NavTimedMaskAsWritten(rows: seq<NavRow>, selspd: seq<real>)
    requires |rows| == |selspd|
    ensures var r := NavTimedAsWritten(rows, selspd);
            && |r| == |selspd|
            && forall i :: 0 <= i < |selspd| ==> r[i] == if SetsCruise(rows[i], selspd[i]) then 30.0 else selspd[i]
  {
  }

  /** A level, straight MP20 on LNAV at 10 gets 30 as written, where its type's cruise speed is 20. */
  lemma MP20GetsThirtyAsWritten()
    ensures var rows := [NavRow(true, false, false, 100.0, 0.0, "MP20")];
            NavTimedAsWritten(rows, [10.0]) == [30.0] && NavTimed(rows, [10.0]) == [20.0]
  {
    var rows := [NavRow(true, false, false, 100.0, 0.0, "MP20")];
    NavTimedMaskAsWritten(rows, [10.0]);
    NavTimedMask(rows, [10.0]);
  }

  /** With no aircraft nothing changes. */
  lemma NavTimedEmpty(selspd: seq<real>)
    requires |selspd| == 0
    ensures NavTimed([], selspd) == selspd
  {
  }

  /**
   * Running it twice with the same other inputs gives the same selected
   * speeds as running it once: a cruise speed is never 0, so an aircraft
   * that got one is selected again, and the others are left as they were.
   */
  lemma {:induction false} NavTimedIdempotent(rows: seq<NavRow>, selspd: seq<real>)
    requires |rows| == |selspd|
    ensures NavTimed(rows, NavTimed(rows, selspd)) == NavTimed(rows, selspd)
  {
    NavTimedMask(rows, selspd);
    var once := NavTimed(rows, selspd);
    NavTimedMask(rows, once);
    var twice := NavTimed(rows, once);
    forall i | 0 <= i < |selspd|
      ensures twice[i] == once[i]
    {
      if SetsCruise(rows[i], selspd[i]) {
        assert SetsCruise(rows[i], once[i]);
      }
    }
  }
}
