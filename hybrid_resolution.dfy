/**
 * Tactical conflict resolution of the Hybrid concept
 * (plugins/m2/hybridResolution.py): who gives way, the multi-aircraft
 * conflict (MACC) groups, the strategy table of `resolve`, and the
 * `resumenav` state machine that keeps or releases resolutions.
 *
 * The priority comparison, `pairs`, the MACC grouping and the strategy
 * table are shared with the older copy in plugins/m2/hybridreso.py, which
 * differs only in how equal priorities are broken (see Tiebreak).
 */
module HybridResolution {
  import opened Wrappers
  import opened Traffic
  import opened Stack
  import PyText
  import RS = ResoStrategies
  import HybridResoSetters

  // ---------------------------------------------------------------- priority

  /** How equal priorities are broken: `int(id[1:])` here, the integer of all digits in hybridreso.py. */
  datatype Tiebreak = Suffix | AllDigits

  /**
   * The two copies of the plugin: plugins/m2/hybridResolution.py (Current)
   * and the older plugins/m2/hybridreso.py (Older). `resolve` is the same
   * in both up to the tie-break, the pre-resolution flight-plan snapshot
   * the older copy takes, and its reso2, reso5 and reso9 (module
   * HybridResoSetters).
   */
  datatype Variant = Current | Older
  {
    function Tb(): Tiebreak { if Current? then Suffix else AllDigits }
  }

  /**
   * The number a callsign contributes to the tie-break. Callsigns are well
   * formed (Traf.Valid), so `int(...)` never fails; 0 stands in for the
   * ValueError a malformed one would raise.
   */
  function CallsignNumber(tb: Tiebreak, id: string): nat
  {
    match tb
    case Suffix => if |id| >= 1 && PyText.AllDigits(id[1..]) then PyText.NatValue(id[1..]) else 0
    case AllDigits => PyText.NatValue(PyText.DigitsOf(id))
  }

  /** `priorityChecker(own, int)`: true when the ownship has to resolve the conflict. */
  predicate Resolves(tb: Tiebreak, own: Aircraft, intr: Aircraft)
  {
    if own.priority < intr.priority then true
    else if own.priority == intr.priority then CallsignNumber(tb, own.id) > CallsignNumber(tb, intr.id)
    else false
  }

  /** The lower priority number resolves; on equal priorities the larger callsign number does. */
  lemma ResolvesExactly(tb: Tiebreak, a: Aircraft, b: Aircraft)
    ensures Resolves(tb, a, b) <==>
              a.priority < b.priority
              || (a.priority == b.priority && CallsignNumber(tb, a.id) > CallsignNumber(tb, b.id))
  {
  }

  /** Of two aircraft whose (priority, callsign number) differ, exactly one resolves. */
  lemma ExactlyOneResolves(tb: Tiebreak, a: Aircraft, b: Aircraft)
    requires a.priority != b.priority || CallsignNumber(tb, a.id) != CallsignNumber(tb, b.id)
    ensures Resolves(tb, a, b) != Resolves(tb, b, a)
  {
  }

  /** Two aircraft with the same priority and callsign number ("D7" and "D07"): neither resolves. */
  lemma NeitherResolvesOnTie(tb: Tiebreak, a: Aircraft, b: Aircraft)
    requires a.priority == b.priority && CallsignNumber(tb, a.id) == CallsignNumber(tb, b.id)
    ensures !Resolves(tb, a, b) && !Resolves(tb, b, a)
  {
  }

  lemma ResolvesTransitive(tb: Tiebreak, a: Aircraft, b: Aircraft, c: Aircraft)
    requires Resolves(tb, a, b) && Resolves(tb, b, c)
    ensures Resolves(tb, a, c)
  {
  }

  /** For callsigns that start with a letter the two tie-breaks agree. */
  lemma TiebreaksAgreeOnLetterCallsigns(id: string)
    requires WellFormedCallsign(id) && !PyText.IsDigit(id[0])
    ensures CallsignNumber(Suffix, id) == CallsignNumber(AllDigits, id)
  {
    DigitsOfLetterPrefix(id);
  }

  lemma DigitsOfLetterPrefix(id: string)
    requires |id| >= 1 && !PyText.IsDigit(id[0]) && PyText.AllDigits(id[1..])
    ensures PyText.DigitsOf(id) == id[1..]
  {
    DigitsOfAllDigits(id[1..]);
    assert id == [id[0]] + id[1..];
  }

  lemma {:induction false} DigitsOfAllDigits(s: string)
    requires PyText.AllDigits(s)
    ensures PyText.DigitsOf(s) == s
  {
    if s != [] {
      DigitsOfAllDigits(s[1..]);
    }
  }

  /** With a digit in front they differ: "112" beats "205" by suffix (12 > 5) and loses by all digits. */
  lemma TiebreaksDisagree()
    ensures CallsignNumber(Suffix, "112") > CallsignNumber(Suffix, "205")
    ensures CallsignNumber(AllDigits, "112") < CallsignNumber(AllDigits, "205")
  {
    DigitsOfAllDigits("112");
    DigitsOfAllDigits("205");
    assert "112"[1..] == "12" && "12"[..1] == "1";
    assert "205"[1..] == "05" && "05"[..1] == "0";
    assert "112"[..2] == "11" && "11"[..1] == "1";
    assert "205"[..2] == "20" && "20"[..1] == "2";
    assert PyText.NatValue("112") == 112;
    assert PyText.NatValue("205") == 205;
  }

  // ---------------------------------------------------------------- pairs

  /** Every callsign of every conflict pair belongs to a current aircraft. */
  predicate KnownPairs(ac: seq<Aircraft>, cps: seq<(string, string)>)
  {
    forall k :: 0 <= k < |cps| ==> IdIndex(ac, cps[k].0) >= 0 && IdIndex(ac, cps[k].1) >= 0
  }

  /** Conflict pair k is one `pairs` collects for `own`: own is its first aircraft and the intruder cruises. */
  predicate PairOf(ac: seq<Aircraft>, cps: seq<(string, string)>, k: nat, own: nat)
    requires KnownPairs(ac, cps) && k < |cps| && own < |ac|
  {
    ac[IdIndex(ac, cps[k].1)].phase == 0 && ac[own].id == cps[k].0
  }

  /** The indices among the first n conflict pairs that `pairs` collects, in order. */
  function PairsUpTo(ac: seq<Aircraft>, cps: seq<(string, string)>, own: nat, n: nat): (r: seq<nat>)
    requires KnownPairs(ac, cps) && own < |ac| && n <= |cps|
    ensures AllBelow(r, n)
  {
    if n == 0 then []
    else PairsUpTo(ac, cps, own, n - 1) + (if PairOf(ac, cps, n - 1, own) then [n - 1] else [])
  }

  lemma {:induction false} PairsUpToIsFilter(ac: seq<Aircraft>, cps: seq<(string, string)>, own: nat, n: nat)
    requires KnownPairs(ac, cps) && own < |ac| && n <= |cps|
    ensures forall k: nat :: k in PairsUpTo(ac, cps, own, n) <==> k < n && PairOf(ac, cps, k, own)
    ensures forall a, b :: 0 <= a < b < |PairsUpTo(ac, cps, own, n)| ==>
              PairsUpTo(ac, cps, own, n)[a] < PairsUpTo(ac, cps, own, n)[b]
  {
    if n > 0 {
      PairsUpToIsFilter(ac, cps, own, n - 1);
    }
  }

  /** `pairs(conf, ownship, idx)`: the indices of the conflict pairs of `own` whose intruder cruises. */
  method Pairs(traf: Traf, cps: seq<(string, string)>, own: nat) returns (r: seq<nat>)
    requires KnownPairs(traf.ac, cps) && own < |traf.ac|
    ensures r == PairsUpTo(traf.ac, cps, own, |cps|)
  {
    var ac := traf.ac;
    r := [];
    var k := 0;
    while k < |cps|
      invariant 0 <= k <= |cps|
      invariant r == PairsUpTo(ac, cps, own, k)
    {
      var intr := IdIndex(ac, cps[k].1);
      if ac[intr].phase != 0 {
        k := k + 1;
        continue;
      }
      if ac[own].id == cps[k].0 {
        r := r + [k];
      }
      k := k + 1;
    }
  }

  // ---------------------------------------------------------------- MACC

  predicate AllBelow(xs: seq<nat>, n: nat)
  {
    forall k :: 0 <= k < |xs| ==> xs[k] < n
  }

  /** The running `highest_prio` scan: replace the candidate whenever it would have to resolve against the next one. */
  function Survivor(tb: Tiebreak, ac: seq<Aircraft>, h: nat, xs: seq<nat>): (s: nat)
    requires h < |ac| && AllBelow(xs, |ac|)
    ensures s == h || s in xs
  {
    if xs == [] then h
    else
      var p := Survivor(tb, ac, h, xs[..|xs| - 1]);
      if Resolves(tb, ac[p], ac[xs[|xs| - 1]]) then xs[|xs| - 1] else p
  }

  lemma SurvivorStep(tb: Tiebreak, ac: seq<Aircraft>, h: nat, xs: seq<nat>, j: nat)
    requires h < |ac| && AllBelow(xs, |ac|) && j < |xs|
    ensures var p := Survivor(tb, ac, h, xs[..j]);
            Survivor(tb, ac, h, xs[..j + 1]) == if Resolves(tb, ac[p], ac[xs[j]]) then xs[j] else p
  {
    assert xs[..j + 1][..j] == xs[..j];
  }

  /** The survivor has to resolve against no member of the group. */
  lemma {:induction false} SurvivorResolvesAgainstNone(tb: Tiebreak, ac: seq<Aircraft>, h: nat, xs: seq<nat>)
    requires h < |ac| && AllBelow(xs, |ac|)
    ensures var s := Survivor(tb, ac, h, xs);
            !Resolves(tb, ac[s], ac[h]) && forall m :: m in xs ==> !Resolves(tb, ac[s], ac[m])
  {
    if xs != [] {
      var init := xs[..|xs| - 1];
      var last := xs[|xs| - 1];
      SurvivorResolvesAgainstNone(tb, ac, h, init);
      var p := Survivor(tb, ac, h, init);
      if Resolves(tb, ac[p], ac[last]) {
        forall m | m == h || m in xs
          ensures !Resolves(tb, ac[last], ac[m])
        {
          if m != last {
            assert m == h || m in init;
            if Resolves(tb, ac[last], ac[m]) {
              ResolvesTransitive(tb, ac[p], ac[last], ac[m]);
            }
          }
        }
      } else {
        assert forall m :: m in xs ==> m in init || m == last;
      }
    }
  }

  /** Python's `list.remove(x)`: drop the first occurrence. */
  function RemoveFirst<T(==)>(s: seq<T>, x: T): (r: seq<T>)
    requires x in s
    ensures |r| == |s| - 1
    ensures multiset(r) + multiset{x} == multiset(s)
  {
    assert s == [s[0]] + s[1..];
    if s[0] == x then s[1..]
    else [s[0]] + RemoveFirst(s[1..], x)
  }

  /** The intruders of the collected pairs, in order. */
  function IntrudersOf(ac: seq<Aircraft>, cps: seq<(string, string)>, ps: seq<nat>): (xs: seq<nat>)
    requires KnownPairs(ac, cps) && AllBelow(ps, |cps|)
    ensures |xs| == |ps| && AllBelow(xs, |ac|)
  {
    seq(|ps|, k requires 0 <= k < |ps| => IdIndex(ac, cps[ps[k]].1) as nat)
  }

  /** One MACC group: the survivor first, then the ownship and intruders without it. */
  function MaccGroup(tb: Tiebreak, ac: seq<Aircraft>, own: nat, xs: seq<nat>): seq<nat>
    requires own < |ac| && AllBelow(xs, |ac|)
  {
    var s := Survivor(tb, ac, own, xs);
    [s] + RemoveFirst([own] + xs, s)
  }

  /** The ownship of a conflict pair. */
  function OwnOf(ac: seq<Aircraft>, cps: seq<(string, string)>, si: nat): nat
    requires KnownPairs(ac, cps) && si < |cps|
  {
    IdIndex(ac, cps[si].0) as nat
  }

  /** The intruder of a conflict pair. */
  function IntruderOf(ac: seq<Aircraft>, cps: seq<(string, string)>, si: nat): nat
    requires KnownPairs(ac, cps) && si < |cps|
  {
    IdIndex(ac, cps[si].1) as nat
  }

  /** `idxown in np.squeeze(MACC)`: membership in any group. */
  predicate InMacc(macc: seq<seq<nat>>, i: nat)
  {
    exists g :: 0 <= g < |macc| && i in macc[g]
  }

  /** The MACC list after the first n conflicts of the sorted order. */
  function MaccUpTo(tb: Tiebreak, ac: seq<Aircraft>, cps: seq<(string, string)>, order: seq<nat>, n: nat): seq<seq<nat>>
    requires KnownPairs(ac, cps) && AllBelow(order, |cps|) && n <= |order|
  {
    if n == 0 then []
    else
      var m := MaccUpTo(tb, ac, cps, order, n - 1);
      var own := OwnOf(ac, cps, order[n - 1]);
      if InMacc(m, own) || ac[own].phase != 0 then m
      else
        var ps := PairsUpTo(ac, cps, own, |cps|);
        if |ps| > 1 then m + [MaccGroup(tb, ac, own, IntrudersOf(ac, cps, ps))] else m
  }

  /** A MACC group: at least three members, all cruising, led by one that has to resolve against none of them. */
  predicate WellFormedGroup(tb: Tiebreak, ac: seq<Aircraft>, grp: seq<nat>)
  {
    && |grp| >= 3 && AllBelow(grp, |ac|)
    && (forall k :: 0 <= k < |grp| ==> !Resolves(tb, ac[grp[0]], ac[grp[k]]) && ac[grp[k]].phase == 0)
  }

  /** The group of a cruising ownship with at least two cruising intruders is well formed. */
  lemma GroupWellFormed(tb: Tiebreak, ac: seq<Aircraft>, own: nat, xs: seq<nat>)
    requires own < |ac| && AllBelow(xs, |ac|) && |xs| > 1
    requires ac[own].phase == 0 && AllCruise(ac, xs)
    ensures WellFormedGroup(tb, ac, MaccGroup(tb, ac, own, xs))
  {
    var s := Survivor(tb, ac, own, xs);
    SurvivorResolvesAgainstNone(tb, ac, own, xs);
    var grp := MaccGroup(tb, ac, own, xs);
    assert grp[0] == s;
    assert multiset(grp) == multiset([own] + xs);
    forall x | x in grp
      ensures x == own || x in xs
    {
      assert x in multiset([own] + xs);
    }
    forall x | x in xs
      ensures x < |ac| && ac[x].phase == 0
    {
      var k :| 0 <= k < |xs| && xs[k] == x;
    }
    assert |grp| >= 3;
    assert AllBelow(grp, |ac|) by {
      forall k | 0 <= k < |grp| ensures grp[k] < |ac| { assert grp[k] in grp; }
    }
    forall k | 0 <= k < |grp|
      ensures !Resolves(tb, ac[grp[0]], ac[grp[k]]) && ac[grp[k]].phase == 0
    {
      assert grp[k] in grp;
    }
  }

  /** Every aircraft of `xs` cruises. */
  predicate AllCruise(ac: seq<Aircraft>, xs: seq<nat>)
    requires AllBelow(xs, |ac|)
  {
    forall k :: 0 <= k < |xs| ==> ac[xs[k]].phase == 0
  }

  /** The intruders of the pairs `pairs` collects cruise. */
  lemma IntrudersCruise(ac: seq<Aircraft>, cps: seq<(string, string)>, own: nat)
    requires KnownPairs(ac, cps) && own < |ac|
    ensures AllCruise(ac, IntrudersOf(ac, cps, PairsUpTo(ac, cps, own, |cps|)))
  {
    var ps := PairsUpTo(ac, cps, own, |cps|);
    PairsUpToIsFilter(ac, cps, own, |cps|);
    forall k | 0 <= k < |ps|
      ensures ac[IntrudersOf(ac, cps, ps)[k]].phase == 0
    {
      assert ps[k] in ps;
    }
  }

  /** Every group of `macc` is well formed. */
  predicate AllWellFormed(tb: Tiebreak, ac: seq<Aircraft>, macc: seq<seq<nat>>)
  {
    macc == [] || (AllWellFormed(tb, ac, macc[..|macc| - 1]) && WellFormedGroup(tb, ac, macc[|macc| - 1]))
  }

  lemma {:induction false} WellFormedAt(tb: Tiebreak, ac: seq<Aircraft>, macc: seq<seq<nat>>, h: nat)
    requires AllWellFormed(tb, ac, macc) && h < |macc|
    ensures WellFormedGroup(tb, ac, macc[h])
    decreases |macc|
  {
    if h < |macc| - 1 {
      WellFormedAt(tb, ac, macc[..|macc| - 1], h);
    }
  }

  /** Every group of the MACC list is well formed. */
  lemma {:induction false} MaccGroupsWellFormed(tb: Tiebreak, ac: seq<Aircraft>, cps: seq<(string, string)>,
                                                order: seq<nat>, n: nat)
    requires KnownPairs(ac, cps) && AllBelow(order, |cps|) && n <= |order|
    ensures AllWellFormed(tb, ac, MaccUpTo(tb, ac, cps, order, n))
  {
    if n > 0 {
      MaccGroupsWellFormed(tb, ac, cps, order, n - 1);
      var m := MaccUpTo(tb, ac, cps, order, n - 1);
      var full := MaccUpTo(tb, ac, cps, order, n);
      var own := OwnOf(ac, cps, order[n - 1]);
      var ps := PairsUpTo(ac, cps, own, |cps|);
      if InMacc(m, own) || ac[own].phase != 0 || |ps| <= 1 {
        assert full == m;
      } else {
        var xs := IntrudersOf(ac, cps, ps);
        var grp := MaccGroup(tb, ac, own, xs);
        assert full == m + [grp];
        IntrudersCruise(ac, cps, own);
        GroupWellFormed(tb, ac, own, xs);
        assert full[..|full| - 1] == m;
      }
    }
  }

  /** The group-building loop of `resolve` for one ownship with collected pairs `ps`. */
  method BuildGroup(traf: Traf, cps: seq<(string, string)>, own: nat, ps: seq<nat>, tb: Tiebreak) returns (grp: seq<nat>)
    requires KnownPairs(traf.ac, cps) && own < |traf.ac| && AllBelow(ps, |cps|)
    ensures grp == MaccGroup(tb, traf.ac, own, IntrudersOf(traf.ac, cps, ps))
  {
    var others := IntrudersOf(traf.ac, cps, ps);   // ownship.id.index(conf.confpairs[i][1]) for each i
    grp := ScanGroup(traf.ac, own, others, tb);
  }

  /** The `highest_prio` scan over the intruders, then the survivor moved to the front. */
  method ScanGroup(ac: seq<Aircraft>, own: nat, others: seq<nat>, tb: Tiebreak) returns (grp: seq<nat>)
    requires own < |ac| && AllBelow(others, |ac|)
    ensures grp == MaccGroup(tb, ac, own, others)
  {
    var temp := [own];
    var highest := own;
    var j := 0;
    while j < |others|
      invariant 0 <= j <= |others|
      invariant temp == [own] + others[..j]
      invariant highest == Survivor(tb, ac, own, others[..j])
    {
      var other := others[j];
      SurvivorStep(tb, ac, own, others, j);
      assert others[..j + 1] == others[..j] + [other];
      temp := temp + [other];
      if Resolves(tb, ac[highest], ac[other]) {
        highest := other;
      }
      j := j + 1;
    }
    assert others[..|others|] == others;
    temp := RemoveFirst(temp, highest);
    grp := [highest] + temp;
  }

  lemma MaccStep(tb: Tiebreak, ac: seq<Aircraft>, cps: seq<(string, string)>, order: seq<nat>, k: nat)
    requires KnownPairs(ac, cps) && AllBelow(order, |cps|) && k < |order|
    ensures var m := MaccUpTo(tb, ac, cps, order, k);
            var own := OwnOf(ac, cps, order[k]);
            MaccUpTo(tb, ac, cps, order, k + 1)
            == if InMacc(m, own) || ac[own].phase != 0 then m
               else if |PairsUpTo(ac, cps, own, |cps|)| > 1
               then m + [MaccGroup(tb, ac, own, IntrudersOf(ac, cps, PairsUpTo(ac, cps, own, |cps|)))]
               else m
  {
  }

  /** The MACC loop of `resolve`: group each cruising ownship with more than one cruising intruder. */
  method BuildMacc(traf: Traf, cps: seq<(string, string)>, order: seq<nat>, tb: Tiebreak) returns (macc: seq<seq<nat>>)
    requires KnownPairs(traf.ac, cps) && AllBelow(order, |cps|)
    ensures macc == MaccUpTo(tb, traf.ac, cps, order, |order|)
  {
    macc := [];
    var k := 0;
    while k < |order|
      invariant 0 <= k <= |order|
      invariant macc == MaccUpTo(tb, traf.ac, cps, order, k)
    {
      macc := VisitConflict(traf, cps, order, k, macc, tb);
      k := k + 1;
    }
  }

  /** One iteration of the MACC loop: the conflict `order[k]`. */
  method VisitConflict(traf: Traf, cps: seq<(string, string)>, order: seq<nat>, k: nat, macc: seq<seq<nat>>,
                       tb: Tiebreak) returns (macc': seq<seq<nat>>)
    requires KnownPairs(traf.ac, cps) && AllBelow(order, |cps|) && k < |order|
    requires macc == MaccUpTo(tb, traf.ac, cps, order, k)
    ensures macc' == MaccUpTo(tb, traf.ac, cps, order, k + 1)
  {
    var ac := traf.ac;
    var own := OwnOf(ac, cps, order[k]);   // traf.id.index(conf.confpairs[i][0])
    MaccStep(tb, ac, cps, order, k);
    macc' := macc;
    if !InMacc(macc, own) && ac[own].phase == 0 {
      var ps := Pairs(traf, cps, own);
      if |ps| > 1 {
        var grp := BuildGroup(traf, cps, own, ps, tb);
        macc' := macc + [grp];
      }
    }
  }

  // ---------------------------------------------------------------- strategy table

  /** The branch of the strategy table of `resolve` a resolving ownship takes. */
  datatype Choice = UseReso1 | UseReso2 | UseReso3 | UseReso4 | UseReso5 | UseReso6 | UseReso7 | UseReso8 | PhaseError

  /**
   * The table over (ownship phase, intruder phase), 0 cruising, 1 climbing,
   * 2 descending. `rlayer`: the ownship is in a resolution layer. `probeUp`
   * and `probeDown`: the climb and descent probes predict a conflict.
   */
  function TableChoice(fpown: int, fpint: int, rlayer: bool, probeUp: bool, probeDown: bool): (c: Choice)
    ensures c == PhaseError <==> !(0 <= fpown <= 2 && 0 <= fpint <= 2)
    ensures c == UseReso2 <==> fpown == 0 && 0 <= fpint <= 2 && (rlayer || probeUp)
    ensures c == UseReso1 <==> fpown == 0 && fpint == 0 && !rlayer && !probeUp
    ensures c == UseReso5 <==> fpown == 0 && 1 <= fpint <= 2 && !rlayer && !probeUp
    ensures c == UseReso3 <==> 1 <= fpown <= 2 && fpint == 0 && rlayer
    ensures c == UseReso6 <==> fpown == 1 && fpint == 0 && !rlayer && !probeUp
    ensures c == UseReso7 <==> fpown == 2 && fpint == 0 && !rlayer && !probeDown
    ensures c == UseReso8 <==> 1 <= fpown <= 2 && fpint == fpown
    ensures c == UseReso4 <==> (fpown == 1 && fpint == 2) || (fpown == 2 && fpint == 1)
                               || (fpint == 0 && !rlayer && ((fpown == 1 && probeUp) || (fpown == 2 && probeDown)))
  {
    if fpown == 0 && 0 <= fpint <= 2 then
      if rlayer || probeUp then UseReso2 else if fpint == 0 then UseReso1 else UseReso5
    else if fpown == 1 && fpint == 0 then
      if rlayer then UseReso3 else if !probeUp then UseReso6 else UseReso4
    else if fpown == 1 && fpint == 1 then UseReso8
    else if fpown == 1 && fpint == 2 then UseReso4
    else if fpown == 2 && fpint == 0 then
      if rlayer then UseReso3 else if !probeDown then UseReso7 else UseReso4
    else if fpown == 2 && fpint == 1 then UseReso4
    else if fpown == 2 && fpint == 2 then UseReso8
    else PhaseError
  }

  /** The table entry for conflict (own, intr), with the probe answers it consults. */
  function PairChoice(ac: seq<Aircraft>, layers: seq<Layer>, own: nat, intr: nat, probe: ProbeQuery -> bool): Choice
    requires own < |ac| && intr < |ac| && ac[own].layer < |layers|
  {
    TableChoice(ac[own].phase, ac[intr].phase, RS.InResoLayer(layers[ac[own].layer].name),
                probe(ClimbProbe(own, Some(intr))), probe(DescendProbe(own, Some(intr))))
  }

  /** `resostrategy` after the table entry ran: reso4 writes "None", the error branch nothing. */
  function ChosenStrategy(c: Choice, before: Strategy): Strategy
  {
    match c
    case UseReso1 => Strategy.Reso1
    case UseReso2 => Strategy.Reso2
    case UseReso3 => Strategy.Reso3
    case UseReso4 => NoReso
    case UseReso5 => Strategy.Reso5
    case UseReso6 => Strategy.Reso6
    case UseReso7 => Strategy.Reso7
    case UseReso8 => Strategy.Reso8
    case PhaseError => before
  }

  /** The strategy name the resolution ECHO gives for each table entry. */
  function ChoiceName(c: Choice): string
  {
    match c
    case UseReso1 => "reso1"
    case UseReso2 => "reso2"
    case UseReso3 => "reso3"
    case UseReso5 => "reso5"
    case UseReso6 => "reso6"
    case UseReso7 => "reso7"
    case UseReso8 => "reso8"
    case _ => ""
  }

  /** The commands a table entry stacks: one ECHO, none for reso4 (commented out) and the error branch. */
  function EchoFor(c: Choice, own: string, intr: string): (cmds: seq<Cmd>)
    ensures |cmds| <= 1
    ensures cmds == [] <==> c == UseReso4 || c == PhaseError
  {
    if c == UseReso4 || c == PhaseError then []
    else [EchoResolving(own, intr, ChoiceName(c))]
  }

  /** Which of newgs, newvs and newalt a table entry overwrites. */
  predicate WritesGs(c: Choice) { c.UseReso2? || c.UseReso3? || c.UseReso5? || c.UseReso6? || c.UseReso7? }
  predicate WritesVs(c: Choice) { c.UseReso1? || c.UseReso3? || c.UseReso5? || c.UseReso6? || c.UseReso7? || c.UseReso8? }
  /** reso1, reso5 and reso6 read the ownship's layer above. */
  predicate ReadsLayerAbove(c: Choice) { c.UseReso1? || c.UseReso5? || c.UseReso6? }
  predicate WritesAlt(c: Choice) { c.UseReso1? || c.UseReso3? || c.UseReso5? || c.UseReso6? || c.UseReso7? }

  /**
   * The speed target table entry c leaves in newgs: the row's resospd,
   * except that reso5 of the older copy hands back the unclamped projected
   * speed without storing it.
   */
  function GsTarget(v: Variant, c: Choice, resospd: real, ac: seq<Aircraft>, layers: seq<Layer>,
                    own: nat, intr: nat, ownNorm: real): (g: real)
    requires own < |ac| && intr < |ac| && ac[own].layer < |layers|
    requires ownNorm >= 0.0 && ownNorm * ownNorm == ac[own].gsEast * ac[own].gsEast + ac[own].gsNorth * ac[own].gsNorth
    ensures v == Current || c != UseReso5 ==> g == resospd
    ensures v == Older && c == UseReso5 && ownNorm > 0.0 ==>
              g * ownNorm == ac[intr].gsEast * ac[own].gsEast + ac[intr].gsNorth * ac[own].gsNorth
  {
    if v == Older && c == UseReso5 then
      RS.ProjectedSpeed(ac[own].gsEast, ac[own].gsNorth, ac[intr].gsEast, ac[intr].gsNorth,
                        ownNorm, layers[ac[own].layer].lowerSpd)
    else resospd
  }

  /**
   * The outputs after table entry c for aircraft i: only entry i changes;
   * there it is the new resolution target of the row (the speed target
   * spd, for reso4 the current altitude), or the previous value for the
   * outputs c does not write.
   */
  predicate TargetsSet(c: Choice, row: ResoRow, spd: real, a: Aircraft, i: nat,
                       gs: seq<real>, vs: seq<real>, alt: seq<real>,
                       gs': seq<real>, vs': seq<real>, alt': seq<real>)
  {
    && |gs'| == |gs| && |vs'| == |vs| && |alt'| == |alt| && i < |gs| && i < |vs| && i < |alt|
    && (forall k :: 0 <= k < |gs| && k != i ==> gs'[k] == gs[k])
    && (forall k :: 0 <= k < |vs| && k != i ==> vs'[k] == vs[k])
    && (forall k :: 0 <= k < |alt| && k != i ==> alt'[k] == alt[k])
    && gs'[i] == (if WritesGs(c) then spd else gs[i])
    && vs'[i] == (if WritesVs(c) then row.resovs else vs[i])
    && alt'[i] == (if c == UseReso4 then a.alt else if WritesAlt(c) then row.resoalt else alt[i])
  }

  /** Python's `if x not in s: s.append(x)`. */
  function AddOnce(s: seq<string>, x: string): (r: seq<string>)
    ensures x in r && |s| <= |r| <= |s| + 1 && r[..|s|] == s
    ensures NoDup(s) ==> NoDup(r)
  {
    if x in s then s else s + [x]
  }

  /** Add the intruder callsign to the ownship's resoidint unless it is there already. */
  method RecordIntruder(traf: Traf, own: nat, id: string)
    requires traf.Valid() && own < |traf.ac|
    modifies traf`reso
    ensures traf.Valid()
    ensures RS.OthersUnchanged(traf.reso, old(traf.reso), own)
    ensures traf.reso[own] == old(traf.reso[own]).(resoidint := AddOnce(old(traf.reso[own].resoidint), id))
  {
    var ids := AddOnce(traf.reso[own].resoidint, id);
    traf.reso := traf.reso[own := traf.reso[own].(resoidint := ids)];
  }

  /**
   * reso5 of either copy: climb to the layer above and match the
   * intruder's projected speed; only the current copy stores that speed.
   */
  method Reso5(v: Variant, traf: Traf, own: nat, intr: nat, ownNorm: real) returns (resoalt: real, resovs: real, resospd: real)
    requires traf.Valid() && own < |traf.ac| && intr < |traf.ac| && traf.ac[own].layer + 1 < |traf.layers|
    requires ownNorm >= 0.0
    requires ownNorm * ownNorm == traf.ac[own].gsEast * traf.ac[own].gsEast + traf.ac[own].gsNorth * traf.ac[own].gsNorth
    modifies traf`reso
    ensures traf.Valid()
    ensures RS.OthersUnchanged(traf.reso, old(traf.reso), own)
    ensures traf.reso[own].strategy == Strategy.Reso5 && traf.reso[own].resoidint == old(traf.reso[own].resoidint)
    ensures resoalt == traf.reso[own].resoalt && resovs == traf.reso[own].resovs
    ensures resospd == GsTarget(v, UseReso5, traf.reso[own].resospd, traf.ac, traf.layers, own, intr, ownNorm)
    ensures v == Older ==> traf.reso[own].resospd == old(traf.reso[own].resospd)
  {
    if v == Current {
      resoalt, resovs, resospd := RS.Reso5(traf, own, intr, ownNorm);
    } else {
      resoalt, resovs, resospd := HybridResoSetters.Reso5(traf, own, intr, ownNorm);
    }
  }

  /**
   * The state after table entry c ran for ownship `own` against `intr`:
   * only the ownship's row changed, its strategy is the table's, reso4 also
   * switches its altitude channel off, reso5 of the older copy leaves
   * resospd alone, and the outputs carry the new targets.
   */
  ghost predicate ChoiceApplied(v: Variant, c: Choice, reso0: seq<ResoRow>, reso: seq<ResoRow>, ac: seq<Aircraft>,
                                layers: seq<Layer>, own: nat, intr: nat, ownNorm: real,
                                gs: seq<real>, vs: seq<real>, alt: seq<real>, gs': seq<real>, vs': seq<real>, alt': seq<real>)
    requires own < |ac| && intr < |ac| && ac[own].layer < |layers|
    requires ownNorm >= 0.0 && ownNorm * ownNorm == ac[own].gsEast * ac[own].gsEast + ac[own].gsNorth * ac[own].gsNorth
  {
    && RS.OthersUnchanged(reso, reso0, own)
    && reso[own].strategy == ChosenStrategy(c, reso0[own].strategy)
    && reso[own].resoidint == reso0[own].resoidint
    && (c == UseReso4 ==> !reso[own].altActive)
    && (v == Older && c == UseReso5 ==> reso[own].resospd == reso0[own].resospd)
    && TargetsSet(c, reso[own], GsTarget(v, c, reso[own].resospd, ac, layers, own, intr, ownNorm),
                  ac[own], own, gs, vs, alt, gs', vs', alt')
  }

  /** Run table entry c for ownship `own` against `intr`. */
  method ApplyChoice(v: Variant, traf: Traf, own: nat, intr: nat, c: Choice, ownNorm: real,
                     gs: seq<real>, vs: seq<real>, alt: seq<real>) returns (gs': seq<real>, vs': seq<real>, alt': seq<real>)
    requires traf.Valid() && own < |traf.ac| && intr < |traf.ac|
    requires ReadsLayerAbove(c) ==> traf.ac[own].layer + 1 < |traf.layers|
    requires ownNorm >= 0.0
    requires ownNorm * ownNorm == traf.ac[own].gsEast * traf.ac[own].gsEast + traf.ac[own].gsNorth * traf.ac[own].gsNorth
    requires |gs| == |traf.ac| && |vs| == |traf.ac| && |alt| == |traf.ac|
    modifies traf`reso
    ensures traf.Valid()
    ensures ChoiceApplied(v, c, old(traf.reso), traf.reso, traf.ac, traf.layers, own, intr, ownNorm, gs, vs, alt, gs', vs', alt')
  {
    if WritesGs(c) {
      gs', vs', alt' := ApplySpeedChoice(v, traf, own, intr, c, ownNorm, gs, vs, alt);
    } else {
      gs', vs', alt' := ApplyOtherChoice(v, traf, own, intr, c, ownNorm, gs, vs, alt);
    }
  }

  /** The table entries that set a speed target: reso2, reso3, reso5, reso6 and reso7. */
  method ApplySpeedChoice(v: Variant, traf: Traf, own: nat, intr: nat, c: Choice, ownNorm: real,
                          gs: seq<real>, vs: seq<real>, alt: seq<real>) returns (gs': seq<real>, vs': seq<real>, alt': seq<real>)
    requires traf.Valid() && own < |traf.ac| && intr < |traf.ac|
    requires ReadsLayerAbove(c) ==> traf.ac[own].layer + 1 < |traf.layers|
    requires ownNorm >= 0.0
    requires ownNorm * ownNorm == traf.ac[own].gsEast * traf.ac[own].gsEast + traf.ac[own].gsNorth * traf.ac[own].gsNorth
    requires |gs| == |traf.ac| && |vs| == |traf.ac| && |alt| == |traf.ac|
    requires WritesGs(c)
    modifies traf`reso
    ensures traf.Valid()
    ensures ChoiceApplied(v, c, old(traf.reso), traf.reso, traf.ac, traf.layers, own, intr, ownNorm, gs, vs, alt, gs', vs', alt')
  {
    var fpown := traf.ac[own].phase;
    match c {
      case UseReso2 =>
        var g := RS.Reso2(traf, own, intr, ownNorm, true);
        gs', vs', alt' := gs[own := g], vs, alt;
      case UseReso3 =>
        var g, s, a := RS.Reso3(traf, own, fpown);
        gs', vs', alt' := gs[own := g], vs[own := s], alt[own := a];
      case UseReso5 =>
        var a, s, g := Reso5(v, traf, own, intr, ownNorm);
        gs', vs', alt' := gs[own := g], vs[own := s], alt[own := a];
      case UseReso6 =>
        var g, s, a := RS.Reso6(traf, own, fpown);
        gs', vs', alt' := gs[own := g], vs[own := s], alt[own := a];
      case UseReso7 =>
        var g, s, a := RS.Reso7(traf, own, fpown);
        gs', vs', alt' := gs[own := g], vs[own := s], alt[own := a];
    }
  }

  /** The table entries that leave the speed target alone: reso1, reso4, reso8 and the phase error. */
  method ApplyOtherChoice(v: Variant, traf: Traf, own: nat, intr: nat, c: Choice, ownNorm: real,
                          gs: seq<real>, vs: seq<real>, alt: seq<real>) returns (gs': seq<real>, vs': seq<real>, alt': seq<real>)
    requires traf.Valid() && own < |traf.ac| && intr < |traf.ac|
    requires ReadsLayerAbove(c) ==> traf.ac[own].layer + 1 < |traf.layers|
    requires ownNorm >= 0.0
    requires ownNorm * ownNorm == traf.ac[own].gsEast * traf.ac[own].gsEast + traf.ac[own].gsNorth * traf.ac[own].gsNorth
    requires |gs| == |traf.ac| && |vs| == |traf.ac| && |alt| == |traf.ac|
    requires !WritesGs(c)
    modifies traf`reso
    ensures traf.Valid()
    ensures ChoiceApplied(v, c, old(traf.reso), traf.reso, traf.ac, traf.layers, own, intr, ownNorm, gs, vs, alt, gs', vs', alt')
  {
    gs', vs', alt' := gs, vs, alt;
    var fpown := traf.ac[own].phase;
    match c {
      case UseReso1 =>
        var a, s := RS.Reso1(traf, own);
        alt', vs' := alt[own := a], vs[own := s];
      case UseReso4 =>
        var a, aa := RS.Reso4(traf, own);
        alt' := alt[own := a];
        traf.reso := traf.reso[own := traf.reso[own].(altActive := aa)];   // traf.cr.altactive[idxown]
      case UseReso8 =>
        var s := RS.Reso8(traf, own, intr, fpown);
        vs' := vs[own := s];
      case PhaseError =>
    }
  }

  /**
   * One conflict of the second loop of `resolve`: a MACC member or an
   * ownship that does not have to give way does nothing; otherwise see
   * ResolveAgainst.
   */
  method ResolvePair(v: Variant, traf: Traf, cps: seq<(string, string)>, si: nat, macc: seq<seq<nat>>,
                     probe: ProbeQuery -> bool, norms: seq<real>, log: CommandStack,
                     gs: seq<real>, vs: seq<real>, alt: seq<real>, snap: set<nat>)
    returns (gs': seq<real>, vs': seq<real>, alt': seq<real>, snap': set<nat>)
    requires traf.Valid() && KnownPairs(traf.ac, cps) && si < |cps|
    requires SpeedNorms(traf.ac, norms) && LayerAboveExists(traf.ac, traf.layers)
    requires |gs| == |traf.ac| && |vs| == |traf.ac| && |alt| == |traf.ac|
    modifies traf`reso, log
    ensures traf.Valid()
    ensures ResolvingPair(v, traf.ac, cps, macc, si) ==>
              Resolved(v, old(traf.reso), traf.reso, traf.ac, traf.layers, norms, OwnOf(traf.ac, cps, si), IntruderOf(traf.ac, cps, si),
                       probe, gs, vs, alt, gs', vs', alt')
    ensures !ResolvingPair(v, traf.ac, cps, macc, si) ==>
              traf.reso == old(traf.reso) && gs' == gs && vs' == vs && alt' == alt
    ensures snap' == if ResolvingPair(v, traf.ac, cps, macc, si)
                     then Snap(v, snap, old(traf.reso[OwnOf(traf.ac, cps, si)].strategy), OwnOf(traf.ac, cps, si))
                     else snap
    ensures log.cmds == old(log.cmds) + PairEcho(v, traf.ac, traf.layers, cps, macc, probe, si)
  {
    gs', vs', alt', snap' := gs, vs, alt, snap;
    var own := OwnOf(traf.ac, cps, si);
    var intr := IntruderOf(traf.ac, cps, si);
    if InMacc(macc, own) || !Resolves(v.Tb(), traf.ac[own], traf.ac[intr]) {
      return;
    }
    gs', vs', alt', snap' := ResolveAgainst(v, traf, own, intr, probe, norms, log, gs, vs, alt, snap);
  }

  /**
   * The state after `own` resolved against `intr`: only the ownship's row
   * changed, the intruder is in its resoidint once, its strategy is the
   * table's, and the outputs carry the new targets.
   */
  ghost predicate Resolved(v: Variant, reso0: seq<ResoRow>, reso: seq<ResoRow>, ac: seq<Aircraft>, layers: seq<Layer>,
                           norms: seq<real>, own: nat, intr: nat, probe: ProbeQuery -> bool,
                           gs: seq<real>, vs: seq<real>, alt: seq<real>, gs': seq<real>, vs': seq<real>, alt': seq<real>)
    requires own < |ac| && intr < |ac| && ac[own].layer < |layers| && SpeedNorms(ac, norms)
  {
    var c := PairChoice(ac, layers, own, intr, probe);
    && RS.OthersUnchanged(reso, reso0, own)
    && reso[own].resoidint == AddOnce(reso0[own].resoidint, ac[intr].id)
    && reso[own].strategy == ChosenStrategy(c, reso0[own].strategy)
    && TargetsSet(c, reso[own], GsTarget(v, c, reso[own].resospd, ac, layers, own, intr, norms[own]),
                  ac[own], own, gs, vs, alt, gs', vs', alt')
  }

  /**
   * The older copy snapshots the flight plan of aircraft i into
   * preresoroute while i flies no resolution yet; the current copy never
   * does. `resolve` changes no flight plan, so the model collects the
   * snapshotted aircraft in a set and copies their flight plans at the end
   * (TakeSnapshots), which leaves the same preresoroute.
   */
  function Snap(v: Variant, snap: set<nat>, strategy: Strategy, i: nat): set<nat>
  {
    if v == Older && strategy == NoReso then snap + {i} else snap
  }

  /** preresoroute after the snapshots of the aircraft in snap. */
  function TakeSnapshots(pre: seq<Route>, route: seq<Route>, snap: set<nat>): (r: seq<Route>)
    requires |route| == |pre|
    ensures |r| == |pre|
    ensures forall i :: 0 <= i < |pre| ==> r[i] == pre[i] || (i in snap && r[i] == route[i])
    ensures forall i :: i in snap && i < |pre| ==> r[i] == route[i]
  {
    seq(|pre|, i requires 0 <= i < |pre| => if i in snap then route[i] else pre[i])
  }

  /** Every pre-resolution flight plan is the one before, or (older copy only) the current flight plan. */
  predicate SnapshotsOnly(v: Variant, pre0: seq<Route>, pre: seq<Route>, route: seq<Route>)
  {
    |pre| == |pre0| &&
    forall i :: 0 <= i < |pre| ==> pre[i] == pre0[i] || (v == Older && i < |route| && pre[i] == route[i])
  }


  /** The resolving branch of the second loop of `resolve` for ownship `own` and intruder `intr`. */
  method ResolveAgainst(v: Variant, traf: Traf, own: nat, intr: nat, probe: ProbeQuery -> bool, norms: seq<real>, log: CommandStack,
                        gs: seq<real>, vs: seq<real>, alt: seq<real>, snap: set<nat>)
    returns (gs': seq<real>, vs': seq<real>, alt': seq<real>, snap': set<nat>)
    requires traf.Valid() && own < |traf.ac| && intr < |traf.ac|
    requires SpeedNorms(traf.ac, norms) && LayerAboveExists(traf.ac, traf.layers)
    requires |gs| == |traf.ac| && |vs| == |traf.ac| && |alt| == |traf.ac|
    modifies traf`reso, log
    ensures traf.Valid()
    ensures Resolved(v, old(traf.reso), traf.reso, traf.ac, traf.layers, norms, own, intr, probe, gs, vs, alt, gs', vs', alt')
    ensures snap' == Snap(v, snap, old(traf.reso[own].strategy), own)
    ensures log.cmds == old(log.cmds) + EchoFor(PairChoice(traf.ac, traf.layers, own, intr, probe),
                                                traf.ac[own].id, traf.ac[intr].id)
  {
    RecordIntruder(traf, own, traf.ac[intr].id);
    snap' := Snap(v, snap, traf.reso[own].strategy, own);
    var c := PairChoice(traf.ac, traf.layers, own, intr, probe);
    gs', vs', alt' := ApplyChoice(v, traf, own, intr, c, norms[own], gs, vs, alt);
    var echo := EchoFor(c, traf.ac[own].id, traf.ac[intr].id);
    if echo != [] {
      log.Push(echo[0]);
    }
  }

  // ---------------------------------------------------------------- MACC resolution

  /** Every group is non-empty and holds aircraft indices below n. */
  predicate GroupsOver(macc: seq<seq<nat>>, n: nat)
  {
    forall h :: 0 <= h < |macc| ==> |macc[h]| >= 1 && forall j :: 0 <= j < |macc[h]| ==> macc[h][j] < n
  }

  /** Member j of group h of the MACC list comes before member k of group g (the loop's visiting order). */
  predicate Before(h: nat, j: nat, g: nat, k: nat)
  {
    h < g || (h == g && j < k)
  }

  /** i follows some leader among the MACC members visited before (g, k). */
  predicate FollowerBefore(macc: seq<seq<nat>>, g: nat, k: nat, i: nat)
  {
    exists h, j :: 0 <= h < |macc| && 1 <= j < |macc[h]| && Before(h, j, g, k) && macc[h][j] == i
  }

  /** Every member visited before (g, k) flies RESO9 and has its leader's callsign in resoidint. */
  ghost predicate FollowersSet(reso: seq<ResoRow>, ac: seq<Aircraft>, macc: seq<seq<nat>>, g: nat, k: nat)
    requires GroupsOver(macc, |ac|) && |reso| == |ac|
  {
    forall h, j :: 0 <= h < |macc| && 1 <= j < |macc[h]| && Before(h, j, g, k) ==>
      reso[macc[h][j]].strategy == Strategy.Reso9 && ac[macc[h][0]].id in reso[macc[h][j]].resoidint
  }

  predicate IsPrefix(a: seq<string>, b: seq<string>)
  {
    |a| <= |b| && b[..|a|] == a
  }

  /** A MACC member `m` runs reso9 against its leader, after recording the leader in resoidint. */
  method FollowLeader(v: Variant, traf: Traf, leader: nat, m: nat, norms: seq<real>,
                      gs: seq<real>, vs: seq<real>, alt: seq<real>, snap: set<nat>)
    returns (gs': seq<real>, vs': seq<real>, alt': seq<real>, snap': set<nat>)
    requires traf.Valid() && leader < |traf.ac| && m < |traf.ac| && SpeedNorms(traf.ac, norms)
    requires v == Current && traf.ac[m].phase != 0 && RS.Reso9UsesLayerAbove(traf.layers[traf.ac[m].layer].name) ==>
               traf.ac[m].layer + 1 < |traf.layers|
    requires |gs| == |traf.ac| && |vs| == |traf.ac| && |alt| == |traf.ac|
    modifies traf`reso
    ensures traf.Valid()
    ensures RS.OthersUnchanged(traf.reso, old(traf.reso), m)
    ensures traf.reso[m].strategy == Strategy.Reso9
    ensures traf.reso[m].resoidint == AddOnce(old(traf.reso[m].resoidint), traf.ac[leader].id)
    ensures gs' == gs[m := traf.reso[m].resospd]
    ensures v == Current && traf.ac[m].phase == 0 ==> vs' == vs[m := 0.0] && alt' == alt[m := traf.ac[m].alt]
    ensures v == Current && traf.ac[m].phase != 0 ==>
              vs' == vs[m := traf.reso[m].resovs] && alt' == alt[m := traf.reso[m].resoalt]
    ensures v == Older ==> vs' == vs && alt' == alt
    ensures v == Older ==>
              traf.reso[m].resospd == RS.ProjectedSpeed(traf.ac[m].gsEast, traf.ac[m].gsNorth,
                                                        traf.ac[leader].gsEast, traf.ac[leader].gsNorth,
                                                        norms[m], traf.layers[traf.ac[m].layer].lowerSpd)
    ensures snap' == Snap(v, snap, old(traf.reso[m].strategy), m)
  {
    RecordIntruder(traf, m, traf.ac[leader].id);
    snap' := Snap(v, snap, traf.reso[m].strategy, m);
    if v == Current {
      var g, s, a := RS.Reso9(traf, m, leader, norms[m]);
      gs', vs', alt' := gs[m := g], vs[m := s], alt[m := a];
    } else {
      var g := HybridResoSetters.Reso9(traf, m, leader, norms[m]);
      gs', vs', alt' := gs[m := g], vs, alt;
    }
  }

  /** The ECHO stacked for one MACC group. */
  function MaccEcho(ac: seq<Aircraft>, grp: seq<nat>): (c: Cmd)
    requires |grp| >= 1 && AllBelow(grp, |ac|)
    ensures c.EchoMacc? && c.leader == ac[grp[0]].id && |c.followers| == |grp| - 1
    ensures forall k :: 1 <= k < |grp| ==> c.followers[k - 1] == ac[grp[k]].id
  {
    EchoMacc(seq(|grp| - 1, k requires 0 <= k < |grp| - 1 => ac[grp[k + 1]].id), ac[grp[0]].id)
  }

  /** The ECHOes of the first n MACC groups, in order. */
  function MaccEchoes(ac: seq<Aircraft>, macc: seq<seq<nat>>, n: nat): (cmds: seq<Cmd>)
    requires GroupsOver(macc, |ac|) && n <= |macc|
    ensures |cmds| == n
  {
    if n == 0 then []
    else
      assert AllBelow(macc[n - 1], |ac|);
      MaccEchoes(ac, macc, n - 1) + [MaccEcho(ac, macc[n - 1])]
  }

  /**
   * The state of the MACC loop before member k of group g: the members
   * visited so far are set, nobody else changed since the loop started
   * (rows and outputs), and every resoidint only grew at its end.
   */
  ghost predicate MaccProgress(reso0: seq<ResoRow>, gs0: seq<real>, vs0: seq<real>, alt0: seq<real>,
                               reso: seq<ResoRow>, gs: seq<real>, vs: seq<real>, alt: seq<real>,
                               ac: seq<Aircraft>, macc: seq<seq<nat>>, g: nat, k: nat)
    requires GroupsOver(macc, |ac|)
  {
    && SameLengths(reso0, gs0, vs0, alt0, reso, gs, vs, alt, |ac|)
    && FollowersSet(reso, ac, macc, g, k)
    && OthersKept(reso0, gs0, vs0, alt0, reso, gs, vs, alt, macc, g, k)
  }

  predicate SameLengths(reso0: seq<ResoRow>, gs0: seq<real>, vs0: seq<real>, alt0: seq<real>,
                        reso: seq<ResoRow>, gs: seq<real>, vs: seq<real>, alt: seq<real>, n: nat)
  {
    && |reso0| == n && |reso| == n
    && |gs0| == n && |vs0| == n && |alt0| == n && |gs| == n && |vs| == n && |alt| == n
  }

  /** Nobody but the visited followers changed, and every resoidint only grew at its end. */
  predicate OthersKept(reso0: seq<ResoRow>, gs0: seq<real>, vs0: seq<real>, alt0: seq<real>,
                       reso: seq<ResoRow>, gs: seq<real>, vs: seq<real>, alt: seq<real>,
                       macc: seq<seq<nat>>, g: nat, k: nat)
    requires SameLengths(reso0, gs0, vs0, alt0, reso, gs, vs, alt, |reso0|)
  {
    && (forall i :: 0 <= i < |reso0| && !FollowerBefore(macc, g, k, i) ==>
          reso[i] == reso0[i] && gs[i] == gs0[i] && vs[i] == vs0[i] && alt[i] == alt0[i])
    && (forall i :: 0 <= i < |reso0| ==> IsPrefix(reso0[i].resoidint, reso[i].resoidint))
  }

  lemma ProgressStep(reso0: seq<ResoRow>, gs0: seq<real>, vs0: seq<real>, alt0: seq<real>,
                     reso: seq<ResoRow>, gs: seq<real>, vs: seq<real>, alt: seq<real>,
                     reso': seq<ResoRow>, gs': seq<real>, vs': seq<real>, alt': seq<real>,
                     ac: seq<Aircraft>, macc: seq<seq<nat>>, g: nat, k: nat)
    requires GroupsOver(macc, |ac|) && g < |macc| && 1 <= k < |macc[g]|
    requires MaccProgress(reso0, gs0, vs0, alt0, reso, gs, vs, alt, ac, macc, g, k)
    requires RS.OthersUnchanged(reso', reso, macc[g][k])
    requires reso'[macc[g][k]].strategy == Strategy.Reso9
    requires reso'[macc[g][k]].resoidint == AddOnce(reso[macc[g][k]].resoidint, ac[macc[g][0]].id)
    requires |gs'| == |ac| && |vs'| == |ac| && |alt'| == |ac|
    requires forall i :: 0 <= i < |ac| && i != macc[g][k] ==> gs'[i] == gs[i] && vs'[i] == vs[i] && alt'[i] == alt[i]
    ensures MaccProgress(reso0, gs0, vs0, alt0, reso', gs', vs', alt', ac, macc, g, k + 1)
  {
    var m := macc[g][k];
    forall h, j | 0 <= h < |macc| && 1 <= j < |macc[h]| && Before(h, j, g, k + 1)
      ensures reso'[macc[h][j]].strategy == Strategy.Reso9 && ac[macc[h][0]].id in reso'[macc[h][j]].resoidint
    {
      if macc[h][j] == m && !(h == g && j == k) {
        assert ac[macc[h][0]].id in reso[m].resoidint;
      }
    }
    forall i | 0 <= i < |ac| && !FollowerBefore(macc, g, k + 1, i)
      ensures reso'[i] == reso0[i] && gs'[i] == gs0[i] && vs'[i] == vs0[i] && alt'[i] == alt0[i]
    {
      assert Before(g, k, g, k + 1);
      assert i != m;
    }
    forall i | 0 <= i < |ac|
      ensures IsPrefix(reso0[i].resoidint, reso'[i].resoidint)
    {
      if i == m {
        var a, b, c := reso0[i].resoidint, reso[i].resoidint, reso'[i].resoidint;
        assert c[..|a|] == c[..|b|][..|a|];
      }
    }
  }

  /** Moving from the end of group g to the first member of group g + 1 changes nothing. */
  lemma ProgressNextGroup(reso0: seq<ResoRow>, gs0: seq<real>, vs0: seq<real>, alt0: seq<real>,
                          reso: seq<ResoRow>, gs: seq<real>, vs: seq<real>, alt: seq<real>,
                          ac: seq<Aircraft>, macc: seq<seq<nat>>, g: nat)
    requires GroupsOver(macc, |ac|) && g < |macc|
    requires MaccProgress(reso0, gs0, vs0, alt0, reso, gs, vs, alt, ac, macc, g, |macc[g]|)
    ensures MaccProgress(reso0, gs0, vs0, alt0, reso, gs, vs, alt, ac, macc, g + 1, 1)
  {
    forall i | 0 <= i < |ac| && !FollowerBefore(macc, g + 1, 1, i)
      ensures !FollowerBefore(macc, g, |macc[g]|, i)
    {
    }
  }

  /** The followers of group g, in order, each run reso9 against the group's leader. */
  method ApplyGroup(v: Variant, traf: Traf, macc: seq<seq<nat>>, g: nat, norms: seq<real>,
                    ghost reso0: seq<ResoRow>, ghost gs0: seq<real>, ghost vs0: seq<real>, ghost alt0: seq<real>,
                    gs: seq<real>, vs: seq<real>, alt: seq<real>, snap: set<nat>)
    returns (gs': seq<real>, vs': seq<real>, alt': seq<real>, snap': set<nat>)
    requires traf.Valid() && GroupsOver(macc, |traf.ac|) && g < |macc|
    requires SpeedNorms(traf.ac, norms) && LayerAboveExists(traf.ac, traf.layers)
    requires MaccProgress(reso0, gs0, vs0, alt0, traf.reso, gs, vs, alt, traf.ac, macc, g, 1)
    modifies traf`reso
    ensures traf.Valid()
    ensures MaccProgress(reso0, gs0, vs0, alt0, traf.reso, gs', vs', alt', traf.ac, macc, g, |macc[g]|)
  {
    gs', vs', alt', snap' := gs, vs, alt, snap;
    var k := 1;
    while k < |macc[g]|
      invariant 1 <= k <= |macc[g]|
      invariant traf.Valid()
      invariant MaccProgress(reso0, gs0, vs0, alt0, traf.reso, gs', vs', alt', traf.ac, macc, g, k)
    {
      ghost var reso, gs1, vs1, alt1 := traf.reso, gs', vs', alt';
      gs', vs', alt', snap' := FollowLeader(v, traf, macc[g][0], macc[g][k], norms, gs', vs', alt', snap');
      ProgressStep(reso0, gs0, vs0, alt0, reso, gs1, vs1, alt1, traf.reso, gs', vs', alt', traf.ac, macc, g, k);
      k := k + 1;
    }
  }

  /** The MACC loop before anything was visited. */
  lemma ProgressStart(reso: seq<ResoRow>, gs: seq<real>, vs: seq<real>, alt: seq<real>,
                      ac: seq<Aircraft>, macc: seq<seq<nat>>)
    requires GroupsOver(macc, |ac|)
    requires |reso| == |ac| && |gs| == |ac| && |vs| == |ac| && |alt| == |ac|
    ensures MaccProgress(reso, gs, vs, alt, reso, gs, vs, alt, ac, macc, 0, 1)
  {
    forall i | 0 <= i < |ac|
      ensures IsPrefix(reso[i].resoidint, reso[i].resoidint)
    {
      assert reso[i].resoidint[..|reso[i].resoidint|] == reso[i].resoidint;
    }
  }

  /** One group of the MACC loop: its followers, then its ECHO. */
  method VisitGroup(v: Variant, traf: Traf, macc: seq<seq<nat>>, g: nat, norms: seq<real>, log: CommandStack, ghost cmds0: seq<Cmd>,
                    ghost reso0: seq<ResoRow>, ghost gs0: seq<real>, ghost vs0: seq<real>, ghost alt0: seq<real>,
                    gs: seq<real>, vs: seq<real>, alt: seq<real>, snap: set<nat>)
    returns (gs': seq<real>, vs': seq<real>, alt': seq<real>, snap': set<nat>)
    requires traf.Valid() && GroupsOver(macc, |traf.ac|) && g < |macc|
    requires SpeedNorms(traf.ac, norms) && LayerAboveExists(traf.ac, traf.layers)
    requires MaccProgress(reso0, gs0, vs0, alt0, traf.reso, gs, vs, alt, traf.ac, macc, g, 1)
    requires log.cmds == cmds0 + MaccEchoes(traf.ac, macc, g)
    modifies traf`reso, log
    ensures traf.Valid()
    ensures MaccProgress(reso0, gs0, vs0, alt0, traf.reso, gs', vs', alt', traf.ac, macc, g + 1, 1)
    ensures log.cmds == cmds0 + MaccEchoes(traf.ac, macc, g + 1)
  {
    gs', vs', alt', snap' := ApplyGroup(v, traf, macc, g, norms, reso0, gs0, vs0, alt0, gs, vs, alt, snap);
    ProgressNextGroup(reso0, gs0, vs0, alt0, traf.reso, gs', vs', alt', traf.ac, macc, g);
    log.Push(MaccEcho(traf.ac, macc[g]));
  }

  /**
   * The MACC half of resolve: every follower of every group runs reso9
   * against its leader, one ECHO per group. Afterwards each follower flies
   * reso9 with its leader in resoidint, and every aircraft that is no
   * follower keeps its row and its three outputs.
   */
  method ApplyMacc(v: Variant, traf: Traf, macc: seq<seq<nat>>, norms: seq<real>, log: CommandStack,
                   gs: seq<real>, vs: seq<real>, alt: seq<real>, snap: set<nat>)
    returns (gs': seq<real>, vs': seq<real>, alt': seq<real>, snap': set<nat>)
    requires traf.Valid() && GroupsOver(macc, |traf.ac|)
    requires SpeedNorms(traf.ac, norms) && LayerAboveExists(traf.ac, traf.layers)
    requires |gs| == |traf.ac| && |vs| == |traf.ac| && |alt| == |traf.ac|
    modifies traf`reso, log
    ensures traf.Valid()
    ensures MaccProgress(old(traf.reso), gs, vs, alt, traf.reso, gs', vs', alt', traf.ac, macc, |macc|, 1)
    ensures log.cmds == old(log.cmds) + MaccEchoes(traf.ac, macc, |macc|)
  {
    gs', vs', alt', snap' := gs, vs, alt, snap;
    ghost var reso0, ac, cmds0 := traf.reso, traf.ac, log.cmds;
    ProgressStart(reso0, gs, vs, alt, ac, macc);
    assert MaccEchoes(ac, macc, 0) == [];
    assert log.cmds == cmds0 + [];
    var g := 0;
    while g < |macc|
      invariant g <= |macc| && traf.ac == ac
      invariant traf.Valid()
      invariant MaccProgress(reso0, gs, vs, alt, traf.reso, gs', vs', alt', ac, macc, g, 1)
      invariant log.cmds == cmds0 + MaccEchoes(ac, macc, g)
    {
      gs', vs', alt', snap' := VisitGroup(v, traf, macc, g, norms, log, cmds0, reso0, gs, vs, alt, gs', vs', alt', snap');
      g := g + 1;
    }
  }

  // ---------------------------------------------------------------- resolve

  /** Every aircraft's layer is in the layer table. */
  predicate LayersKnown(ac: seq<Aircraft>, layers: seq<Layer>)
  {
    forall i :: 0 <= i < |ac| ==> ac[i].layer < |layers|
  }

  /** The conflict pair si is resolved by its ownship in the second loop of `resolve`. */
  predicate ResolvingPair(v: Variant, ac: seq<Aircraft>, cps: seq<(string, string)>, macc: seq<seq<nat>>, si: nat)
    requires KnownPairs(ac, cps) && si < |cps|
  {
    !InMacc(macc, OwnOf(ac, cps, si)) && Resolves(v.Tb(), ac[OwnOf(ac, cps, si)], ac[IntruderOf(ac, cps, si)])
  }

  /** i is the ownship of a resolving pair among the first k of the sorted order. */
  predicate OwnsBefore(v: Variant, ac: seq<Aircraft>, cps: seq<(string, string)>, macc: seq<seq<nat>>, order: seq<nat>, k: nat, i: nat)
    requires KnownPairs(ac, cps) && AllBelow(order, |cps|) && k <= |order|
  {
    exists t :: 0 <= t < k && ResolvingPair(v, ac, cps, macc, order[t]) && OwnOf(ac, cps, order[t]) == i
  }

  /** The ECHO the second loop stacks for conflict si, if any. */
  function PairEcho(v: Variant, ac: seq<Aircraft>, layers: seq<Layer>, cps: seq<(string, string)>, macc: seq<seq<nat>>,
                    probe: ProbeQuery -> bool, si: nat): (cmds: seq<Cmd>)
    requires KnownPairs(ac, cps) && si < |cps| && LayersKnown(ac, layers)
    ensures |cmds| <= 1
    ensures cmds != [] ==> ResolvingPair(v, ac, cps, macc, si)
  {
    var own, intr := OwnOf(ac, cps, si), IntruderOf(ac, cps, si);
    if ResolvingPair(v, ac, cps, macc, si) then EchoFor(PairChoice(ac, layers, own, intr, probe), ac[own].id, ac[intr].id)
    else []
  }

  /** The ECHOes the second loop stacks for the first k conflicts of the sorted order. */
  function PairEchoes(v: Variant, ac: seq<Aircraft>, layers: seq<Layer>, cps: seq<(string, string)>, macc: seq<seq<nat>>,
                      order: seq<nat>, probe: ProbeQuery -> bool, k: nat): (cmds: seq<Cmd>)
    requires KnownPairs(ac, cps) && AllBelow(order, |cps|) && k <= |order| && LayersKnown(ac, layers)
    ensures |cmds| <= k
  {
    if k == 0 then []
    else PairEchoes(v, ac, layers, cps, macc, order, probe, k - 1) + PairEcho(v, ac, layers, cps, macc, probe, order[k - 1])
  }

  /**
   * The state of the second loop before conflict order[k]: only the
   * ownships of the resolving pairs met so far changed, each of them has the
   * intruders of those pairs in resoidint, and resoidint only grew.
   */
  ghost predicate PairProgress(v: Variant, reso0: seq<ResoRow>, gs0: seq<real>, vs0: seq<real>, alt0: seq<real>,
                               reso: seq<ResoRow>, gs: seq<real>, vs: seq<real>, alt: seq<real>,
                               ac: seq<Aircraft>, cps: seq<(string, string)>, macc: seq<seq<nat>>, order: seq<nat>, k: nat)
    requires KnownPairs(ac, cps) && AllBelow(order, |cps|) && k <= |order|
  {
    && SameLengths(reso0, gs0, vs0, alt0, reso, gs, vs, alt, |ac|)
    && (forall i :: 0 <= i < |ac| && !OwnsBefore(v, ac, cps, macc, order, k, i) ==>
          reso[i] == reso0[i] && gs[i] == gs0[i] && vs[i] == vs0[i] && alt[i] == alt0[i])
    && (forall i :: 0 <= i < |ac| ==> IsPrefix(reso0[i].resoidint, reso[i].resoidint))
    && IntrudersRecorded(v, reso, ac, cps, macc, order, k)
  }

  /** The intruder of every resolving pair among the first k is in its ownship's resoidint. */
  ghost predicate IntrudersRecorded(v: Variant, reso: seq<ResoRow>, ac: seq<Aircraft>, cps: seq<(string, string)>,
                                    macc: seq<seq<nat>>, order: seq<nat>, k: nat)
    requires KnownPairs(ac, cps) && AllBelow(order, |cps|) && k <= |order| && |reso| == |ac|
  {
    forall t :: 0 <= t < k && ResolvingPair(v, ac, cps, macc, order[t]) ==>
      ac[IntruderOf(ac, cps, order[t])].id in reso[OwnOf(ac, cps, order[t])].resoidint
  }

  lemma PrefixKeeps(a: seq<string>, b: seq<string>, x: string)
    requires IsPrefix(a, b) && x in a
    ensures x in b
  {
    var i :| 0 <= i < |a| && a[i] == x;
    assert b[..|a|][i] == x;
  }

  /** A resolving pair keeps the second loop's invariant. */
  lemma PairStepResolving(v: Variant, reso0: seq<ResoRow>, gs0: seq<real>, vs0: seq<real>, alt0: seq<real>,
                          reso: seq<ResoRow>, gs: seq<real>, vs: seq<real>, alt: seq<real>,
                          reso': seq<ResoRow>, gs': seq<real>, vs': seq<real>, alt': seq<real>,
                          ac: seq<Aircraft>, layers: seq<Layer>, cps: seq<(string, string)>, macc: seq<seq<nat>>,
                          order: seq<nat>, k: nat, probe: ProbeQuery -> bool, norms: seq<real>)
    requires KnownPairs(ac, cps) && AllBelow(order, |cps|) && k < |order| && LayersKnown(ac, layers) && SpeedNorms(ac, norms)
    requires PairProgress(v, reso0, gs0, vs0, alt0, reso, gs, vs, alt, ac, cps, macc, order, k)
    requires ResolvingPair(v, ac, cps, macc, order[k])
    requires Resolved(v, reso, reso', ac, layers, norms, OwnOf(ac, cps, order[k]), IntruderOf(ac, cps, order[k]),
                      probe, gs, vs, alt, gs', vs', alt')
    ensures PairProgress(v, reso0, gs0, vs0, alt0, reso', gs', vs', alt', ac, cps, macc, order, k + 1)
  {
    var own := OwnOf(ac, cps, order[k]);
    forall i | 0 <= i < |ac| && !OwnsBefore(v, ac, cps, macc, order, k + 1, i)
      ensures reso'[i] == reso0[i] && gs'[i] == gs0[i] && vs'[i] == vs0[i] && alt'[i] == alt0[i]
    {
      assert i != own;
      assert !OwnsBefore(v, ac, cps, macc, order, k, i);
    }
    forall i | 0 <= i < |ac|
      ensures IsPrefix(reso[i].resoidint, reso'[i].resoidint) && IsPrefix(reso0[i].resoidint, reso'[i].resoidint)
    {
      if i == own {
        var a, b, c := reso0[i].resoidint, reso[i].resoidint, reso'[i].resoidint;
        assert c[..|a|] == c[..|b|][..|a|];
      }
    }
    RecordedStep(v, reso, reso', ac, cps, macc, order, k);
  }

  /** Resolving conflict order[k] records its intruder and forgets none recorded before. */
  lemma RecordedStep(v: Variant, reso: seq<ResoRow>, reso': seq<ResoRow>, ac: seq<Aircraft>, cps: seq<(string, string)>,
                     macc: seq<seq<nat>>, order: seq<nat>, k: nat)
    requires KnownPairs(ac, cps) && AllBelow(order, |cps|) && k < |order| && |reso| == |ac| && |reso'| == |ac|
    requires IntrudersRecorded(v, reso, ac, cps, macc, order, k)
    requires forall i :: 0 <= i < |ac| ==> IsPrefix(reso[i].resoidint, reso'[i].resoidint)
    requires ac[IntruderOf(ac, cps, order[k])].id in reso'[OwnOf(ac, cps, order[k])].resoidint
    ensures IntrudersRecorded(v, reso', ac, cps, macc, order, k + 1)
  {
    forall t | 0 <= t < k + 1 && ResolvingPair(v, ac, cps, macc, order[t])
      ensures ac[IntruderOf(ac, cps, order[t])].id in reso'[OwnOf(ac, cps, order[t])].resoidint
    {
      var o := OwnOf(ac, cps, order[t]);
      if t < k {
        PrefixKeeps(reso[o].resoidint, reso'[o].resoidint, ac[IntruderOf(ac, cps, order[t])].id);
      }
    }
  }

  /** A pair that is skipped keeps the second loop's invariant. */
  lemma PairStepSkipped(v: Variant, reso0: seq<ResoRow>, gs0: seq<real>, vs0: seq<real>, alt0: seq<real>,
                        reso: seq<ResoRow>, gs: seq<real>, vs: seq<real>, alt: seq<real>,
                        ac: seq<Aircraft>, cps: seq<(string, string)>, macc: seq<seq<nat>>, order: seq<nat>, k: nat)
    requires KnownPairs(ac, cps) && AllBelow(order, |cps|) && k < |order|
    requires PairProgress(v, reso0, gs0, vs0, alt0, reso, gs, vs, alt, ac, cps, macc, order, k)
    requires !ResolvingPair(v, ac, cps, macc, order[k])
    ensures PairProgress(v, reso0, gs0, vs0, alt0, reso, gs, vs, alt, ac, cps, macc, order, k + 1)
  {
    forall i | 0 <= i < |ac| && !OwnsBefore(v, ac, cps, macc, order, k + 1, i)
      ensures !OwnsBefore(v, ac, cps, macc, order, k, i)
    {
    }
  }

  lemma PairEchoesStep(v: Variant, ac: seq<Aircraft>, layers: seq<Layer>, cps: seq<(string, string)>, macc: seq<seq<nat>>,
                       order: seq<nat>, probe: ProbeQuery -> bool, k: nat, cmds0: seq<Cmd>)
    requires KnownPairs(ac, cps) && AllBelow(order, |cps|) && k < |order| && LayersKnown(ac, layers)
    ensures cmds0 + PairEchoes(v, ac, layers, cps, macc, order, probe, k + 1)
         == cmds0 + PairEchoes(v, ac, layers, cps, macc, order, probe, k) + PairEcho(v, ac, layers, cps, macc, probe, order[k])
  {
  }

  /** One iteration of the second loop of `resolve`: the conflict order[k]. */
  method VisitPair(v: Variant, traf: Traf, cps: seq<(string, string)>, order: seq<nat>, k: nat, macc: seq<seq<nat>>,
                   probe: ProbeQuery -> bool, norms: seq<real>, log: CommandStack, ghost cmds0: seq<Cmd>,
                   ghost reso0: seq<ResoRow>, ghost gs0: seq<real>, ghost vs0: seq<real>, ghost alt0: seq<real>,
                   gs: seq<real>, vs: seq<real>, alt: seq<real>, snap: set<nat>)
    returns (gs': seq<real>, vs': seq<real>, alt': seq<real>, snap': set<nat>)
    requires traf.Valid() && KnownPairs(traf.ac, cps) && AllBelow(order, |cps|) && k < |order|
    requires SpeedNorms(traf.ac, norms) && LayerAboveExists(traf.ac, traf.layers)
    requires PairProgress(v, reso0, gs0, vs0, alt0, traf.reso, gs, vs, alt, traf.ac, cps, macc, order, k)
    requires log.cmds == cmds0 + PairEchoes(v, traf.ac, traf.layers, cps, macc, order, probe, k)
    modifies traf`reso, log
    ensures traf.Valid()
    ensures PairProgress(v, reso0, gs0, vs0, alt0, traf.reso, gs', vs', alt', traf.ac, cps, macc, order, k + 1)
    ensures log.cmds == cmds0 + PairEchoes(v, traf.ac, traf.layers, cps, macc, order, probe, k + 1)
  {
    ghost var reso, ac, layers, cmds := traf.reso, traf.ac, traf.layers, log.cmds;
    ghost var echo := PairEcho(v, ac, layers, cps, macc, probe, order[k]);
    gs', vs', alt', snap' := ResolvePair(v, traf, cps, order[k], macc, probe, norms, log, gs, vs, alt, snap);
    PairEchoesStep(v, ac, layers, cps, macc, order, probe, k, cmds0);
    if ResolvingPair(v, traf.ac, cps, macc, order[k]) {
      PairStepResolving(v, reso0, gs0, vs0, alt0, reso, gs, vs, alt, traf.reso, gs', vs', alt',
                        traf.ac, traf.layers, cps, macc, order, k, probe, norms);
    } else {
      PairStepSkipped(v, reso0, gs0, vs0, alt0, reso, gs, vs, alt, traf.ac, cps, macc, order, k);
    }
  }

  /**
   * What `resolve` leaves behind. Each output starts as the current
   * resolution target where its channel is active and the autopilot's value
   * otherwise; only ownships of resolving pairs and MACC followers change
   * their row or outputs; every resolving pair's intruder is in its
   * ownship's resoidint; every follower flies reso9 with its leader in
   * resoidint; resoidint lists only grow.
   */
  ghost predicate ResolveOutcome(v: Variant, reso0: seq<ResoRow>, ap: seq<Autopilot>, reso: seq<ResoRow>,
                                 gs: seq<real>, vs: seq<real>, alt: seq<real>,
                                 ac: seq<Aircraft>, cps: seq<(string, string)>, macc: seq<seq<nat>>, order: seq<nat>)
    requires KnownPairs(ac, cps) && AllBelow(order, |cps|) && GroupsOver(macc, |ac|)
    requires |reso0| == |ac| && |ap| == |ac|
  {
    && |reso| == |ac| && |gs| == |ac| && |vs| == |ac| && |alt| == |ac|
    && (forall i :: 0 <= i < |ac| && !OwnsBefore(v, ac, cps, macc, order, |order|, i) && !FollowerBefore(macc, |macc|, 1, i) ==>
          && reso[i] == reso0[i]
          && gs[i] == (if reso0[i].tasActive then reso0[i].resospd else ap[i].tas)
          && vs[i] == (if reso0[i].vsActive then reso0[i].resovs else ap[i].vs)
          && alt[i] == (if reso0[i].altActive then reso0[i].resoalt else ap[i].alt))
    && (forall i :: 0 <= i < |ac| ==> IsPrefix(reso0[i].resoidint, reso[i].resoidint))
    && IntrudersRecorded(v, reso, ac, cps, macc, order, |order|)
    && FollowersSet(reso, ac, macc, |macc|, 1)
  }

  /** The second loop followed by the MACC loop gives the outcome of `resolve`. */
  lemma ComposeResolve(v: Variant, reso0: seq<ResoRow>, ap: seq<Autopilot>, gs0: seq<real>, vs0: seq<real>, alt0: seq<real>,
                       reso1: seq<ResoRow>, gs1: seq<real>, vs1: seq<real>, alt1: seq<real>,
                       reso2: seq<ResoRow>, gs2: seq<real>, vs2: seq<real>, alt2: seq<real>,
                       ac: seq<Aircraft>, cps: seq<(string, string)>, macc: seq<seq<nat>>, order: seq<nat>)
    requires KnownPairs(ac, cps) && AllBelow(order, |cps|) && GroupsOver(macc, |ac|)
    requires |reso0| == |ac| && |ap| == |ac| && |gs0| == |ac| && |vs0| == |ac| && |alt0| == |ac|
    requires forall i :: 0 <= i < |ac| ==>
               && gs0[i] == (if reso0[i].tasActive then reso0[i].resospd else ap[i].tas)
               && vs0[i] == (if reso0[i].vsActive then reso0[i].resovs else ap[i].vs)
               && alt0[i] == (if reso0[i].altActive then reso0[i].resoalt else ap[i].alt)
    requires PairProgress(v, reso0, gs0, vs0, alt0, reso1, gs1, vs1, alt1, ac, cps, macc, order, |order|)
    requires MaccProgress(reso1, gs1, vs1, alt1, reso2, gs2, vs2, alt2, ac, macc, |macc|, 1)
    ensures ResolveOutcome(v, reso0, ap, reso2, gs2, vs2, alt2, ac, cps, macc, order)
  {
    forall i | 0 <= i < |ac|
      ensures IsPrefix(reso0[i].resoidint, reso2[i].resoidint)
    {
      var a, b, c := reso0[i].resoidint, reso1[i].resoidint, reso2[i].resoidint;
      assert c[..|a|] == c[..|b|][..|a|];
    }
    forall t | 0 <= t < |order| && ResolvingPair(v, ac, cps, macc, order[t])
      ensures ac[IntruderOf(ac, cps, order[t])].id in reso2[OwnOf(ac, cps, order[t])].resoidint
    {
      var o := OwnOf(ac, cps, order[t]);
      PrefixKeeps(reso1[o].resoidint, reso2[o].resoidint, ac[IntruderOf(ac, cps, order[t])].id);
    }
  }

  /** The outputs `resolve` starts from: np.where(active, target, autopilot) per channel. */
  function StartTargets(reso: seq<ResoRow>, ap: seq<Autopilot>): (t: (seq<real>, seq<real>, seq<real>))
    requires |ap| == |reso|
    ensures |t.0| == |reso| && |t.1| == |reso| && |t.2| == |reso|
  {
    (seq(|reso|, i requires 0 <= i < |reso| => if reso[i].tasActive then reso[i].resospd else ap[i].tas),
     seq(|reso|, i requires 0 <= i < |reso| => if reso[i].vsActive then reso[i].resovs else ap[i].vs),
     seq(|reso|, i requires 0 <= i < |reso| => if reso[i].altActive then reso[i].resoalt else ap[i].alt))
  }

  /** The groups of the MACC list are non-empty lists of aircraft indices. */
  lemma MaccGroupsOver(tb: Tiebreak, ac: seq<Aircraft>, cps: seq<(string, string)>, order: seq<nat>)
    requires KnownPairs(ac, cps) && AllBelow(order, |cps|)
    ensures GroupsOver(MaccUpTo(tb, ac, cps, order, |order|), |ac|)
  {
    var macc := MaccUpTo(tb, ac, cps, order, |order|);
    MaccGroupsWellFormed(tb, ac, cps, order, |order|);
    forall h | 0 <= h < |macc| ensures |macc[h]| >= 1 && AllBelow(macc[h], |ac|) {
      WellFormedAt(tb, ac, macc, h);
    }
  }

  lemma PairStart(v: Variant, reso: seq<ResoRow>, gs: seq<real>, vs: seq<real>, alt: seq<real>,
                  ac: seq<Aircraft>, cps: seq<(string, string)>, macc: seq<seq<nat>>, order: seq<nat>)
    requires KnownPairs(ac, cps) && AllBelow(order, |cps|)
    requires |reso| == |ac| && |gs| == |ac| && |vs| == |ac| && |alt| == |ac|
    ensures PairProgress(v, reso, gs, vs, alt, reso, gs, vs, alt, ac, cps, macc, order, 0)
  {
    forall i | 0 <= i < |ac|
      ensures IsPrefix(reso[i].resoidint, reso[i].resoidint)
    {
      assert reso[i].resoidint[..|reso[i].resoidint|] == reso[i].resoidint;
    }
  }

  /** The second loop of `resolve`: every conflict in sorted order, MACC ownships skipped. */
  method ResolvePairs(v: Variant, traf: Traf, cps: seq<(string, string)>, order: seq<nat>, macc: seq<seq<nat>>,
                      probe: ProbeQuery -> bool, norms: seq<real>, log: CommandStack,
                      gs: seq<real>, vs: seq<real>, alt: seq<real>)
    returns (gs': seq<real>, vs': seq<real>, alt': seq<real>, snap: set<nat>)
    requires traf.Valid() && KnownPairs(traf.ac, cps) && AllBelow(order, |cps|)
    requires SpeedNorms(traf.ac, norms) && LayerAboveExists(traf.ac, traf.layers)
    requires |gs| == |traf.ac| && |vs| == |traf.ac| && |alt| == |traf.ac|
    modifies traf`reso, log
    ensures traf.Valid()
    ensures PairProgress(v, old(traf.reso), gs, vs, alt, traf.reso, gs', vs', alt', traf.ac, cps, macc, order, |order|)
    ensures log.cmds == old(log.cmds) + PairEchoes(v, traf.ac, traf.layers, cps, macc, order, probe, |order|)
  {
    ghost var reso0, cmds0 := traf.reso, log.cmds;
    PairStart(v, reso0, gs, vs, alt, traf.ac, cps, macc, order);
    gs', vs', alt', snap := gs, vs, alt, {};
    assert PairEchoes(v, traf.ac, traf.layers, cps, macc, order, probe, 0) == [];
    assert log.cmds == cmds0 + [];
    var k := 0;
    while k < |order|
      invariant k <= |order| && traf.Valid()
      invariant PairProgress(v, reso0, gs, vs, alt, traf.reso, gs', vs', alt', traf.ac, cps, macc, order, k)
      invariant log.cmds == cmds0 + PairEchoes(v, traf.ac, traf.layers, cps, macc, order, probe, k)
    {
      gs', vs', alt', snap := VisitPair(v, traf, cps, order, k, macc, probe, norms, log, cmds0, reso0, gs, vs, alt, gs', vs', alt', snap);
      k := k + 1;
    }
  }

  /** The older copy copies the flight plans of the snapshotted aircraft into preresoroute. */
  method StoreSnapshots(v: Variant, traf: Traf, snap: set<nat>)
    requires traf.Valid()
    modifies traf`preresoroute
    ensures traf.Valid()
    ensures SnapshotsOnly(v, old(traf.preresoroute), traf.preresoroute, traf.route)
    ensures v == Current ==> traf.preresoroute == old(traf.preresoroute)
    ensures v == Older ==> forall i :: i in snap && i < |traf.ac| ==> traf.preresoroute[i] == traf.route[i]
    ensures v == Older ==> traf.preresoroute == TakeSnapshots(old(traf.preresoroute), traf.route, snap)
  {
    if v == Older {
      traf.preresoroute := TakeSnapshots(traf.preresoroute, traf.route, snap);
    }
  }

  /**
   * `resolve` of the hybrid resolution: the MACC list is built first, then
   * every conflict outside it is resolved pairwise by the ownship that has
   * to give way, then every MACC follower resolves against its leader.
   * Returns newgs, newvs, newalt (newtrk is the autopilot's track, untouched)
   * and the MACC list.
   */
  method Resolve(v: Variant, traf: Traf, cps: seq<(string, string)>, order: seq<nat>, probe: ProbeQuery -> bool,
                 norms: seq<real>, log: CommandStack) returns (gs: seq<real>, vs: seq<real>, alt: seq<real>, macc: seq<seq<nat>>)
    requires traf.Valid() && KnownPairs(traf.ac, cps) && AllBelow(order, |cps|)
    requires SpeedNorms(traf.ac, norms) && LayerAboveExists(traf.ac, traf.layers)
    modifies traf`reso, traf`preresoroute, log
    ensures traf.Valid()
    ensures SnapshotsOnly(v, old(traf.preresoroute), traf.preresoroute, traf.route)
    ensures v == Current ==> traf.preresoroute == old(traf.preresoroute)
    ensures macc == MaccUpTo(v.Tb(), traf.ac, cps, order, |order|) && GroupsOver(macc, |traf.ac|)
    ensures ResolveOutcome(v, old(traf.reso), traf.ap, traf.reso, gs, vs, alt, traf.ac, cps, macc, order)
    ensures log.cmds == old(log.cmds) + PairEchoes(v, traf.ac, traf.layers, cps, macc, order, probe, |order|)
                                      + MaccEchoes(traf.ac, macc, |macc|)
  {
    ghost var reso0 := traf.reso;
    var start := StartTargets(traf.reso, traf.ap);
    gs, vs, alt := start.0, start.1, start.2;
    macc := BuildMacc(traf, cps, order, v.Tb());
    MaccGroupsOver(v.Tb(), traf.ac, cps, order);
    ghost var gs0, vs0, alt0 := gs, vs, alt;
    var snap;
    gs, vs, alt, snap := ResolvePairs(v, traf, cps, order, macc, probe, norms, log, gs, vs, alt);
    ghost var reso1, gs1, vs1, alt1 := traf.reso, gs, vs, alt;
    gs, vs, alt, snap := ApplyMacc(v, traf, macc, norms, log, gs, vs, alt, snap);
    StoreSnapshots(v, traf, snap);
    ComposeResolve(v, reso0, traf.ap, gs0, vs0, alt0, reso1, gs1, vs1, alt1, traf.reso, gs, vs, alt, traf.ac, cps, macc, order);
  }
}
