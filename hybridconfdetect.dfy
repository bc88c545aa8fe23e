/**
 * The intent filter of the hybrid conflict detection
 * (`HybridConfdetect.intentFilter`): a conflict pair found by state-based
 * detection is kept only when the two aircraft's intents still bring them
 * within the protected zone, both horizontally and vertically; the others
 * are deleted from the pair list and switched off in `swconfl`, and
 * `inconf` is then rewritten for every aircraft of any input pair.
 */
module HybridConfdetect {
  import opened Traffic
  import HR = HybridResolution

  type Pair = (string, string)

  /**
   * What the filter reads besides the conflict arrays: the aircraft, the
   * target altitude of each aircraft's intent (`intent[idx][1]`), the
   * vertical-conflict switch `swverconf`, and the distance between the
   * nearest points of two aircraft's intent lines (shapely
   * `nearest_points` and `kwikdist`, taken as given).
   */
  datatype Scene = Scene(ac: seq<Aircraft>, targetAlt: seq<real>, swverconf: seq<bool>,
                         distance: (nat, nat) -> real)
  {
    ghost predicate Valid() { |targetAlt| == |ac| && |swverconf| == |ac| }
  }

  /** The aircraft indices of a pair (`traf.id2idx(conflict)`), or {} for an unknown callsign. */
  function Ends(sc: Scene, p: Pair): (e: set<nat>)
    ensures forall i :: i in e ==> i < |sc.ac|
  {
    var o := IdIndex(sc.ac, p.0);
    var n := IdIndex(sc.ac, p.1);
    if o >= 0 && n >= 0 then {o as nat, n as nat} else {}
  }

  /**
   * The vertical condition of a pair (own `o`, intruder `n`): the table over
   * the two flight phases (0 cruise, 1 climb, 2 descent) that either tests
   * the target-altitude gap against the larger `hpz` or falls back to the
   * ownship's `swverconf`.
   */
  function VerticalCondition(sc: Scene, o: nat, n: nat): bool
    requires sc.Valid() && o < |sc.ac| && n < |sc.ac|
  {
    var fpown := sc.ac[o].phase;
    var fpint := sc.ac[n].phase;
    var ownT := sc.targetAlt[o];
    var intT := sc.targetAlt[n];
    var fits := Max(sc.ac[o].hpz, sc.ac[n].hpz) >= Abs(ownT - intT);
    if (fpown == 0 && fpint == 1) || (fpown == 2 && fpint == 0) then
      if ownT > intT then fits
      else if sc.ac[o].alt < sc.ac[n].alt then fits
      else sc.swverconf[o]
    else if (fpown == 0 && fpint == 2) || (fpown == 1 && fpint == 0) then
      if ownT < intT then fits
      else if sc.ac[o].alt > sc.ac[n].alt then fits
      else sc.swverconf[o]
    else if fpown == 0 && fpint == 0 then fits
    else sc.swverconf[o]
  }

  /**
   * The phase combinations and altitude orderings for which the filter
   * measures the vertical gap of the targets instead of trusting `swverconf`.
   */
  predicate GapApplies(sc: Scene, o: nat, n: nat)
    requires sc.Valid() && o < |sc.ac| && n < |sc.ac|
  {
    var a := sc.ac[o];
    var b := sc.ac[n];
    var climbsInto := (a.phase == 0 && b.phase == 1) || (a.phase == 2 && b.phase == 0);
    var descendsInto := (a.phase == 0 && b.phase == 2) || (a.phase == 1 && b.phase == 0);
    (a.phase == 0 && b.phase == 0)
    || (climbsInto && (sc.targetAlt[o] > sc.targetAlt[n] || a.alt < b.alt))
    || (descendsInto && (sc.targetAlt[o] < sc.targetAlt[n] || a.alt > b.alt))
  }

  /**
   * The vertical condition is the target-gap test (against the larger of the
   * two `hpz`) exactly where it is measured, and the ownship's `swverconf`
   * everywhere else.
   */
  lemma VerticalConditionTable(sc: Scene, o: nat, n: nat)
    requires sc.Valid() && o < |sc.ac| && n < |sc.ac|
    ensures GapApplies(sc, o, n) ==>
              (VerticalCondition(sc, o, n) <==>
               sc.ac[o].hpz >= Abs(sc.targetAlt[o] - sc.targetAlt[n]) || sc.ac[n].hpz >= Abs(sc.targetAlt[o] - sc.targetAlt[n]))
    ensures !GapApplies(sc, o, n) ==> VerticalCondition(sc, o, n) == sc.swverconf[o]
  {
  }

  /**
   * A pair survives the filter when the nearest points of the intents are
   * closer than the larger of the two `rpz` and the vertical condition holds.
   */
  predicate Survives(sc: Scene, p: Pair)
    requires sc.Valid()
  {
    var o := IdIndex(sc.ac, p.0);
    var n := IdIndex(sc.ac, p.1);
    o >= 0 && n >= 0
    && sc.distance(o as nat, n as nat) < Max(sc.ac[o].rpz, sc.ac[n].rpz)
    && VerticalCondition(sc, o as nat, n as nat)
  }

  /** The pairs of `s` that survive, in their order. */
  function Survivors(sc: Scene, s: seq<Pair>): seq<Pair>
    requires sc.Valid()
  {
    if s == [] then []
    else Survivors(sc, s[..|s| - 1]) + (if Survives(sc, s[|s| - 1]) then [s[|s| - 1]] else [])
  }

  /** The filtered list holds exactly the surviving pairs of the input and never grows. */
  lemma {:induction false} SurvivorsMembers(sc: Scene, s: seq<Pair>)
    requires sc.Valid()
    ensures |Survivors(sc, s)| <= |s|
    ensures forall p :: p in Survivors(sc, s) <==> p in s && Survives(sc, p)
  {
    if s != [] {
      var s' := s[..|s| - 1];
      SurvivorsMembers(sc, s');
      assert s == s' + [s[|s| - 1]];
    }
  }

  /** Filtering keeps the input's order: filtering a concatenation filters each part. */
  lemma {:induction false} SurvivorsConcat(sc: Scene, s: seq<Pair>, t: seq<Pair>)
    requires sc.Valid()
    ensures Survivors(sc, s + t) == Survivors(sc, s) + Survivors(sc, t)
  {
    if t == [] {
      assert s + t == s;
    } else {
      var u := t[..|t| - 1];
      SurvivorsConcat(sc, s, u);
      assert (s + t)[..|s + t| - 1] == s + u;
      assert (s + t)[|s + t| - 1] == t[|t| - 1];
    }
  }

  /** The (own, intruder) index pairs the filter switches off in `swconfl`. */
  function Cleared(sc: Scene, s: seq<Pair>): set<(nat, nat)>
    requires sc.Valid()
  {
    if s == [] then {}
    else
      var p := s[|s| - 1];
      var o := IdIndex(sc.ac, p.0);
      var n := IdIndex(sc.ac, p.1);
      Cleared(sc, s[..|s| - 1]) + (if o >= 0 && n >= 0 && !Survives(sc, p) then {(o as nat, n as nat)} else {})
  }

  /** `swconfl[o, n]` is switched off exactly for the index pairs of the known pairs that do not survive. */
  lemma {:induction false} ClearedPairs(sc: Scene, s: seq<Pair>, o: nat, n: nat)
    requires sc.Valid()
    ensures (o, n) in Cleared(sc, s) <==>
            exists k :: 0 <= k < |s| && IdIndex(sc.ac, s[k].0) == o && IdIndex(sc.ac, s[k].1) == n && !Survives(sc, s[k])
  {
    if s != [] {
      var s' := s[..|s| - 1];
      ClearedPairs(sc, s', o, n);
      assert forall k :: 0 <= k < |s'| ==> s'[k] == s[k];
    }
  }

  /** A surviving pair: `changeactive[idxown] = True`, `changeactive[idxint] = True`. */
  function Engage(m: map<nat, bool>, own: nat, intr: nat): map<nat, bool>
  {
    m[own := true][intr := true]
  }

  /** A deleted pair: `changeactive[idx] = changeactive.get(idx, False)` for both aircraft. */
  function Touch(m: map<nat, bool>, own: nat, intr: nat): map<nat, bool>
  {
    var m1 := m[own := own in m && m[own]];
    m1[intr := intr in m1 && m1[intr]]
  }

  /** The `changeactive` dictionary after the pairs of `s`. */
  function Marks(sc: Scene, s: seq<Pair>): map<nat, bool>
    requires sc.Valid()
  {
    if s == [] then map[]
    else
      var m := Marks(sc, s[..|s| - 1]);
      var p := s[|s| - 1];
      var o := IdIndex(sc.ac, p.0);
      var n := IdIndex(sc.ac, p.1);
      if o < 0 || n < 0 then m
      else if Survives(sc, p) then Engage(m, o as nat, n as nat)
      else Touch(m, o as nat, n as nat)
  }

  /** The dictionary holds exactly the aircraft of the input pairs. */
  lemma {:induction false} MarksKeys(sc: Scene, s: seq<Pair>, i: nat)
    requires sc.Valid()
    ensures i in Marks(sc, s) <==> exists k :: 0 <= k < |s| && i in Ends(sc, s[k])
  {
    if s != [] {
      var s' := s[..|s| - 1];
      MarksKeys(sc, s', i);
      assert forall k :: 0 <= k < |s'| ==> s'[k] == s[k];
    }
  }

  /**
   * An aircraft of the dictionary is marked active iff some surviving pair
   * involves it: a later deleted pair never resets a mark.
   */
  lemma {:induction false} MarksActive(sc: Scene, s: seq<Pair>, i: nat)
    requires sc.Valid() && i in Marks(sc, s)
    ensures Marks(sc, s)[i] <==> exists k :: 0 <= k < |s| && Survives(sc, s[k]) && i in Ends(sc, s[k])
  {
    var s' := s[..|s| - 1];
    var p := s[|s| - 1];
    MarkStep(sc, s, i);
    var before := i in Marks(sc, s') && Marks(sc, s')[i];
    if i in Marks(sc, s') {
      MarksActive(sc, s', i);
    } else {
      MarksKeys(sc, s', i);
    }
    assert before <==> exists k :: 0 <= k < |s'| && Survives(sc, s'[k]) && i in Ends(sc, s'[k]);
    if Marks(sc, s)[i] {
      if before {
        var k :| 0 <= k < |s'| && Survives(sc, s'[k]) && i in Ends(sc, s'[k]);
        assert s[k] == s'[k];
      } else {
        assert s[|s| - 1] == p;
      }
    } else {
      forall k | 0 <= k < |s|
        ensures !(Survives(sc, s[k]) && i in Ends(sc, s[k]))
      {
        if k < |s'| {
          assert s[k] == s'[k];
        } else {
          assert s[k] == p;
        }
      }
    }
  }

  /** One more pair: an aircraft is marked iff it was marked before or the new pair survives and involves it. */
  lemma MarkStep(sc: Scene, s: seq<Pair>, i: nat)
    requires sc.Valid() && s != [] && i in Marks(sc, s)
    ensures var s', p := s[..|s| - 1], s[|s| - 1];
            Marks(sc, s)[i] == ((i in Marks(sc, s') && Marks(sc, s')[i]) || (Survives(sc, p) && i in Ends(sc, p)))
  {
  }

  /** Indices of every known pair are aircraft indices. */
  lemma {:induction false} MarksBelow(sc: Scene, s: seq<Pair>)
    requires sc.Valid()
    ensures forall i :: i in Marks(sc, s) ==> i < |sc.ac|
  {
    if s != [] {
      MarksBelow(sc, s[..|s| - 1]);
    }
  }

  /** One more pair of the walk: how the filtered list, `changeactive` and the switched-off pairs grow. */
  lemma FilterStep(sc: Scene, s: seq<Pair>, k: nat)
    requires sc.Valid() && k < |s| && IdIndex(sc.ac, s[k].0) >= 0 && IdIndex(sc.ac, s[k].1) >= 0
    ensures var o, n := IdIndex(sc.ac, s[k].0) as nat, IdIndex(sc.ac, s[k].1) as nat;
            if Survives(sc, s[k]) then
              && Survivors(sc, s[..k + 1]) == Survivors(sc, s[..k]) + [s[k]]
              && Marks(sc, s[..k + 1]) == Engage(Marks(sc, s[..k]), o, n)
              && Cleared(sc, s[..k + 1]) == Cleared(sc, s[..k])
            else
              && Survivors(sc, s[..k + 1]) == Survivors(sc, s[..k])
              && Marks(sc, s[..k + 1]) == Touch(Marks(sc, s[..k]), o, n)
              && Cleared(sc, s[..k + 1]) == Cleared(sc, s[..k]) + {(o, n)}
  {
    assert s[..k + 1][..k] == s[..k];
    assert s[..k + 1][k] == s[k];
  }

  /** The returned list after one more pair: unchanged for a survivor, its first occurrence removed otherwise. */
  lemma OutStep(sc: Scene, s: seq<Pair>, k: nat, out: seq<Pair>)
    requires sc.Valid() && k < |s| && IdIndex(sc.ac, s[k].0) >= 0 && IdIndex(sc.ac, s[k].1) >= 0
    requires out == Survivors(sc, s[..k]) + s[k..]
    ensures s[k] in out
    ensures Survives(sc, s[k]) ==> out == Survivors(sc, s[..k + 1]) + s[k + 1..]
    ensures !Survives(sc, s[k]) ==> HR.RemoveFirst(out, s[k]) == Survivors(sc, s[..k + 1]) + s[k + 1..]
  {
    assert s[k..] == [s[k]] + s[k + 1..];
    var done := Survivors(sc, s[..k]);
    FilterStep(sc, s, k);
    assert out == done + [s[k]] + s[k + 1..];
    if !Survives(sc, s[k]) {
      SurvivorsMembers(sc, s[..k]);
      RemoveFirstAfter(done, s[k], s[k + 1..]);
    }
  }

  /**
   * The first loop of `intentFilter`: walks a copy of the input pairs,
   * deleting the first occurrence of every pair that does not survive from
   * the returned list and switching it off in `swconfl`, and collects
   * `changeactive`.
   */
  method FilterPairs(sc: Scene, confpairs: seq<Pair>, swconfl: array2<bool>)
      returns (out: seq<Pair>, changeactive: map<nat, bool>)
    requires sc.Valid() && HR.KnownPairs(sc.ac, confpairs)
    requires swconfl.Length0 == |sc.ac| && swconfl.Length1 == |sc.ac|
    modifies swconfl
    ensures out == Survivors(sc, confpairs)
    ensures changeactive == Marks(sc, confpairs)
    ensures forall o, n :: 0 <= o < swconfl.Length0 && 0 <= n < swconfl.Length1 ==>
              swconfl[o, n] == (old(swconfl[o, n]) && (o, n) !in Cleared(sc, confpairs))
  {
    var conflicts := confpairs;
    out := confpairs;
    changeactive := map[];
    var k := 0;
    while k < |conflicts|
      invariant k <= |conflicts|
      invariant out == Survivors(sc, conflicts[..k]) + conflicts[k..]
      invariant changeactive == Marks(sc, conflicts[..k])
      invariant forall o, n :: 0 <= o < swconfl.Length0 && 0 <= n < swconfl.Length1 ==>
                  swconfl[o, n] == (old(swconfl[o, n]) && (o, n) !in Cleared(sc, conflicts[..k]))
    {
      out, changeactive := FilterOne(sc, conflicts, k, out, changeactive, swconfl);
      k := k + 1;
    }
    assert conflicts[..k] == confpairs;
    assert conflicts[k..] == [];
  }

  /**
   * One pass of the first loop of `intentFilter`, on pair k: a surviving
   * pair marks both aircraft active; any other pair loses its first
   * occurrence in the returned list, is switched off in `swconfl` and keeps
   * the marks its aircraft already had.
   */
  method FilterOne(sc: Scene, s: seq<Pair>, k: nat, out: seq<Pair>, changeactive: map<nat, bool>, swconfl: array2<bool>)
      returns (out': seq<Pair>, changeactive': map<nat, bool>)
    requires sc.Valid() && HR.KnownPairs(sc.ac, s) && k < |s|
    requires swconfl.Length0 == |sc.ac| && swconfl.Length1 == |sc.ac|
    requires out == Survivors(sc, s[..k]) + s[k..]
    requires changeactive == Marks(sc, s[..k])
    modifies swconfl
    ensures out' == Survivors(sc, s[..k + 1]) + s[k + 1..]
    ensures changeactive' == Marks(sc, s[..k + 1])
    ensures Cleared(sc, s[..k + 1]) == Cleared(sc, s[..k]) + (if Survives(sc, s[k]) then {} else {(IdIndex(sc.ac, s[k].0) as nat, IdIndex(sc.ac, s[k].1) as nat)})
    ensures forall o, n :: 0 <= o < swconfl.Length0 && 0 <= n < swconfl.Length1 ==>
              swconfl[o, n] == (old(swconfl[o, n]) && (Survives(sc, s[k]) || (o, n) != (IdIndex(sc.ac, s[k].0) as nat, IdIndex(sc.ac, s[k].1) as nat)))
  {
    var conflict := s[k];
    FilterStep(sc, s, k);
    OutStep(sc, s, k, out);
    var idxown := IdIndex(sc.ac, conflict.0) as nat;
    var idxint := IdIndex(sc.ac, conflict.1) as nat;
    var rpz := Max(sc.ac[idxown].rpz, sc.ac[idxint].rpz);
    assert Survives(sc, conflict) == (sc.distance(idxown, idxint) < rpz && VerticalCondition(sc, idxown, idxint));
    if sc.distance(idxown, idxint) < rpz && VerticalCondition(sc, idxown, idxint) {
      out' := out;
      changeactive' := Engage(changeactive, idxown, idxint);
    } else {
      out' := HR.RemoveFirst(out, conflict);
      ClearOne(swconfl, idxown, idxint);
      changeactive' := Touch(changeactive, idxown, idxint);
    }
  }

  /** `swconfl[own, int] = False`: that one cell is switched off and every other cell is kept. */
  method ClearOne(swconfl: array2<bool>, own: nat, intr: nat)
    requires own < swconfl.Length0 && intr < swconfl.Length1
    modifies swconfl
    ensures forall o, n :: 0 <= o < swconfl.Length0 && 0 <= n < swconfl.Length1 ==>
              swconfl[o, n] == (old(swconfl[o, n]) && (o, n) != (own, intr))
  {
    swconfl[own, intr] := false;
  }

  /** The second loop of `intentFilter`: `inconf[idx] = active` for every entry of `changeactive`. */
  method WriteActive(changeactive: map<nat, bool>, inconf: array<bool>)
    requires forall i :: i in changeactive ==> i < inconf.Length
    modifies inconf
    ensures forall i :: 0 <= i < inconf.Length ==>
              inconf[i] == if i in changeactive then changeactive[i] else old(inconf[i])
  {
    var todo := changeactive.Keys;
    while todo != {}
      invariant todo <= changeactive.Keys
      invariant forall i :: 0 <= i < inconf.Length ==>
                  inconf[i] == if i in changeactive && i !in todo then changeactive[i] else old(inconf[i])
      decreases todo
    {
      var idx :| idx in todo;
      inconf[idx] := changeactive[idx];
      todo := todo - {idx};
    }
  }

  /**
   * `intentFilter`: the filtered pair list, `swconfl` switched off for the
   * deleted pairs, and `inconf` rewritten from `changeactive` after all
   * pairs are seen, so that an aircraft in several conflicts stays in
   * conflict while any of them survives.
   */
  method IntentFilter(sc: Scene, confpairs: seq<Pair>, inconf: array<bool>, swconfl: array2<bool>)
      returns (out: seq<Pair>)
    requires sc.Valid() && HR.KnownPairs(sc.ac, confpairs)
    requires inconf.Length == |sc.ac| && swconfl.Length0 == |sc.ac| && swconfl.Length1 == |sc.ac|
    modifies inconf, swconfl
    ensures out == Survivors(sc, confpairs)
    ensures forall i :: 0 <= i < inconf.Length ==>
              inconf[i] == if i in Marks(sc, confpairs) then Marks(sc, confpairs)[i] else old(inconf[i])
    ensures forall o, n :: 0 <= o < swconfl.Length0 && 0 <= n < swconfl.Length1 ==>
              swconfl[o, n] == (old(swconfl[o, n]) && (o, n) !in Cleared(sc, confpairs))
  {
    var changeactive;
    out, changeactive := FilterPairs(sc, confpairs, swconfl);
    MarksBelow(sc, confpairs);
    WriteActive(changeactive, inconf);
  }

  /** `list.remove(x)` deletes the occurrence of `x` that follows a prefix without it. */
  lemma {:induction false} RemoveFirstAfter<T>(a: seq<T>, x: T, b: seq<T>)
    requires x !in a
    ensures HR.RemoveFirst(a + [x] + b, x) == a + b
  {
    var s := a + [x] + b;
    if a == [] {
      assert s == [x] + b;
    } else {
      assert s[0] == a[0] && a[0] != x;
      assert s[1..] == a[1..] + [x] + b;
      RemoveFirstAfter(a[1..], x, b);
      assert a + b == [a[0]] + (a[1..] + b);
    }
  }
}
