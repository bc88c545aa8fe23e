/**
 * The clock-time conversions of the strategic router and the scenario
 * writers: `get_sec` ("hh:mm:ss" to seconds), `TimeToStr` (seconds to
 * "hh:mm:ss", hours unbounded) and `get_min` (`strftime('%H:%M:%S',
 * gmtime(t))`, hours modulo a day).
 */
module TimeFormat {
  import opened Wrappers
  import opened PyText

  /** `get_sec`: `h, m, s = time_str.split(':')`, then 3600 h + 60 m + s; `None` where Python raises. */
  function GetSec(timeStr: string): (r: Option<int>)
    ensures r.Some? ==> r.value >= 0
  {
    FieldsValue(Split(timeStr, ':'))
  }

  /** The seconds of the fields `h, m, s`: exactly three, each an unsigned number. */
  function FieldsValue(parts: seq<string>): Option<int>
  {
    if |parts| != 3 then None
    else match (ParseNat(parts[0]), ParseNat(parts[1]), ParseNat(parts[2]))
      case (Some(h), Some(m), Some(s)) => Some(h * 3600 + m * 60 + s)
      case _ => None
  }

  /** "hh:mm:ss" from three field values, each formatted `{:02d}`. */
  function Clock(h: int, m: int, s: int): string
  {
    Pad2(h) + ":" + Pad2(m) + ":" + Pad2(s)
  }

  /** `TimeToStr`: round, then `divmod` by 60 twice (Python's floor division). */
  function TimeToStr(time: real): string
  {
    var t := Round(time);
    Clock(t / 3600, t / 60 % 60, t % 60)
  }

  /** `get_min`: the hour, minute and second of the day of `gmtime(t)`. */
  function GetMin(t: int): string
  {
    Clock(t / 3600 % 24, t / 60 % 60, t % 60)
  }

  /** A field formatted `{:02d}` from a natural number is digits only, so it holds no ':'. */
  lemma Pad2NoColon(n: nat)
    ensures ':' !in Pad2(n)
  {
    var s := Pad2(n);
    assert AllDigits(s);
    assert forall i | 0 <= i < |s| :: s[i] != ':';
  }

  /** Splitting "hh:mm:ss" built from natural numbers gives back the three fields. */
  lemma {:induction false} ClockSplit(h: nat, m: nat, s: nat)
    ensures Split(Clock(h, m, s), ':') == [Pad2(h), Pad2(m), Pad2(s)]
  {
    Pad2NoColon(h);
    Pad2NoColon(m);
    Pad2NoColon(s);
    var parts := [Pad2(h), Pad2(m), Pad2(s)];
    assert Join(parts[1..], ':') == Pad2(m) + [':'] + Pad2(s) by {
      assert parts[1..][1..] == [Pad2(s)];
    }
    assert Join(parts, ':') == Clock(h, m, s);
    SplitJoin(parts, ':');
  }

  /** `get_sec` reads back the seconds of any clock string with natural fields. */
  lemma {:induction false} GetSecClock(h: nat, m: nat, s: nat)
    ensures GetSec(Clock(h, m, s)) == Some(h * 3600 + m * 60 + s)
  {
    ClockSplit(h, m, s);
    assert GetSec(Clock(h, m, s)) == FieldsValue([Pad2(h), Pad2(m), Pad2(s)]);
    Pad2Value(h);
    Pad2Value(m);
    Pad2Value(s);
  }

  /**
   * `TimeToStr` of a time rounding to t ≥ 0 has three fields: hours, then
   * minutes and seconds below 60, which add back up to t; so `get_sec`
   * undoes it.
   */
  lemma {:induction false} TimeToStrFields(time: real)
    requires Round(time) >= 0
    ensures var t := Round(time);
            && Split(TimeToStr(time), ':') == [Pad2(t / 3600), Pad2(t / 60 % 60), Pad2(t % 60)]
            && t / 60 % 60 < 60 && t % 60 < 60
            && (t / 3600) * 3600 + (t / 60 % 60) * 60 + t % 60 == t
            && GetSec(TimeToStr(time)) == Some(t)
  {
    var t := Round(time);
    var h, m, s := t / 3600, t / 60 % 60, t % 60;
    assert TimeToStr(time) == Clock(h, m, s);
    ClockSplit(h, m, s);
    GetSecClock(h, m, s);
    HourFields(t);
    assert h * 3600 + m * 60 + s == t;
    assert GetSec(Clock(h, m, s)) == Some(t);
  }

  /** The round trip for whole seconds: `get_sec(TimeToStr(t)) == t` for every integer t ≥ 0. */
  lemma GetSecTimeToStr(t: nat)
    ensures GetSec(TimeToStr(t as real)) == Some(t)
  {
    assert Round(t as real) == t;
    TimeToStrFields(t as real);
  }

  /** Euclidean division is the unique quotient and remainder. */
  lemma DivUnique(t: int, d: int, q: int, r: int)
    requires d > 0 && t == d * q + r && 0 <= r < d
    ensures t / d == q && t % d == r
  {
    var q', r' := t / d, t % d;
    var e := q - q';
    assert d * q == d * q' + d * e;
    if e >= 1 {
      assert false;
    } else if e <= -1 {
      assert false;
    }
  }

  /** Hours, minutes below 60 and seconds below 60 add back up to t. */
  lemma {:induction false} HourFields(t: int)
    ensures (t / 3600) * 3600 + (t / 60 % 60) * 60 + t % 60 == t
  {
    var q, s := t / 60, t % 60;
    var p, m := q / 60, q % 60;
    assert t == 3600 * p + (60 * m + s);
    DivUnique(t, 3600, p, 60 * m + s);
  }

  /** Hours of the day, minutes and seconds add back up to t modulo a day. */
  lemma {:induction false} DayFields(t: int)
    ensures (t / 3600 % 24) * 3600 + (t / 60 % 60) * 60 + t % 60 == t % 86400
  {
    var p, m, s := t / 3600, t / 60 % 60, t % 60;
    var k, h := p / 24, p % 24;
    HourFields(t);
    assert t == 86400 * k + (3600 * h + 60 * m + s);
    DivUnique(t, 86400, k, 3600 * h + 60 * m + s);
  }

  /** `get_sec(get_min(t))` is t modulo a day: the two agree exactly on 0 ≤ t < 86400. */
  lemma {:induction false} GetSecGetMin(t: int)
    ensures GetSec(GetMin(t)) == Some(t % 86400)
    ensures 0 <= t < 86400 ==> GetSec(GetMin(t)) == Some(t)
  {
    var h, m, s := t / 3600 % 24, t / 60 % 60, t % 60;
    assert GetMin(t) == Clock(h, m, s);
    GetSecClock(h, m, s);
    DayFields(t);
    assert h * 3600 + m * 60 + s == t % 86400;
    assert GetSec(Clock(h, m, s)) == Some(t % 86400);
    if 0 <= t < 86400 {
      DivUnique(t, 86400, 0, t);
    }
  }

  /** A string that is not three ':'-separated unsigned numbers has no value. */
  lemma GetSecNeedsThreeFields(timeStr: string)
    requires |Split(timeStr, ':')| != 3
    ensures GetSec(timeStr) == None
  {
  }
}
