/**
 * The nine resolution strategy setters of plugins/m2/resostrategies.py.
 * Each one records its strategy name for the ownship, switches on the
 * autopilot channels the resolution controls, stores the resolution targets
 * and the values to recover to, and returns the targets to the caller.
 */
module ResoStrategies {
  import opened Traffic
  import PyText

  /**
   * The layer speed clamp: a speed inside [lower, upper] is kept, one
   * outside becomes the nearer limit, and a tie goes to the upper limit.
   */
  function ClampToBand(spd: real, lower: real, upper: real): (r: real)
    ensures lower <= spd <= upper ==> r == spd
    ensures !(lower <= spd <= upper) ==>
              (r == lower || r == upper) && Abs(r - spd) <= Abs(lower - spd) && Abs(r - spd) <= Abs(upper - spd)
    ensures !(lower <= spd <= upper) && Abs(lower - spd) == Abs(upper - spd) ==> r == upper
    ensures lower <= upper ==> lower <= r <= upper
  {
    if lower <= spd <= upper then spd
    else if Abs(lower - spd) < Abs(upper - spd) then lower
    else upper
  }

  /**
   * The speed reso2 and reso9 start from: the intruder's ground velocity
   * projected on the ownship's, dot(int, own) / |own|, or lower + 0.5 when
   * |own| is zero (a hovering ownship). `ownNorm` is |own|, computed by the
   * caller.
   */
  function ProjectedSpeed(ownE: real, ownN: real, intE: real, intN: real, ownNorm: real, lower: real): (r: real)
    requires ownNorm >= 0.0 && ownNorm * ownNorm == ownE * ownE + ownN * ownN
    ensures ownNorm > 0.0 ==> r * ownNorm == intE * ownE + intN * ownN
    ensures ownNorm == 0.0 ==> r == lower + 0.5
  {
    if ownNorm > 0.0 then (intE * ownE + intN * ownN) / ownNorm
    else lower + 0.5
  }

  /** Initial vertical speed of a hover strategy: 0 when already close to the hover altitude, else vsmin. */
  function HoverVs(alt: real, resoalt: real, layerHeight: real, hpz: real, vsmin: real): (r: real)
    ensures r == 0.0 || r == vsmin
    ensures Abs(alt - resoalt) < Abs(layerHeight - hpz) ==> r == 0.0
    ensures !(Abs(alt - resoalt) < Abs(layerHeight - hpz)) ==> r == vsmin
  {
    if Abs(alt - resoalt) < Abs(layerHeight - hpz) then 0.0 else vsmin
  }

  /** `"reso" in aclayername.lower()`: the aircraft flies in a resolution layer. */
  predicate InResoLayer(layerName: string)
  {
    PyText.Contains(PyText.Lower(layerName), "reso")
  }

  /** The vertical speed recovered to after a hover or matching strategy: vsmax while climbing, else vsmin. */
  function RecoveryVs(fpown: int, a: Aircraft): (r: real)
    ensures fpown == 1 ==> r == a.vsmax
    ensures fpown != 1 ==> r == a.vsmin
  {
    if fpown == 1 then a.vsmax else a.vsmin
  }

  predicate OthersUnchanged(now: seq<ResoRow>, was: seq<ResoRow>, i: nat)
  {
    |now| == |was| && i < |was| && forall j :: 0 <= j < |was| && j != i ==> now[j] == was[j]
  }

  /** reso1: climb into the resolution layer above. */
  method Reso1(traf: Traf, i: nat) returns (resoalt: real, resovs: real)
    requires traf.Valid() && i < |traf.ac| && traf.ac[i].layer + 1 < |traf.layers|
    modifies traf`reso
    ensures traf.Valid()
    ensures OthersUnchanged(traf.reso, old(traf.reso), i)
    ensures resoalt == traf.layers[traf.ac[i].layer + 1].lowerAlt && resovs == traf.ac[i].vsmax
    ensures traf.reso[i] == old(traf.reso[i]).(strategy := Strategy.Reso1, altActive := true, vsActive := true,
                                                 resoalt := resoalt, resovs := resovs,
                                                 recoveryvs := traf.ap[i].vs)
  {
    var r := traf.reso[i];
    r := r.(strategy := Strategy.Reso1);
    r := r.(altActive := true, vsActive := true);
    var layer := traf.ac[i].layer;
    resoalt := traf.layers[layer + 1].lowerAlt;
    resovs := traf.ac[i].vsmax;
    r := r.(resoalt := resoalt, resovs := resovs, recoveryvs := traf.ap[i].vs);
    traf.reso := traf.reso[i := r];
  }

  /**
   * reso2: match the intruder's speed along the ownship track, clamped into
   * the layer's speed band when `limitspeed` holds; the result is stored in
   * resospd either way.
   */
  method Reso2(traf: Traf, i: nat, j: nat, ownNorm: real, limitspeed: bool) returns (resospd: real)
    requires traf.Valid() && i < |traf.ac| && j < |traf.ac|
    requires ownNorm >= 0.0
    requires ownNorm * ownNorm == traf.ac[i].gsEast * traf.ac[i].gsEast + traf.ac[i].gsNorth * traf.ac[i].gsNorth
    modifies traf`reso
    ensures traf.Valid()
    ensures OthersUnchanged(traf.reso, old(traf.reso), i)
    ensures var band := traf.layers[traf.ac[i].layer];
            var raw := ProjectedSpeed(traf.ac[i].gsEast, traf.ac[i].gsNorth, traf.ac[j].gsEast, traf.ac[j].gsNorth,
                                      ownNorm, band.lowerSpd);
            resospd == if limitspeed then ClampToBand(raw, band.lowerSpd, band.upperSpd) else raw
    ensures traf.reso[i] == old(traf.reso[i]).(strategy := Strategy.Reso2, tasActive := true,
                                                 recoveryspd := traf.ap[i].tas, resospd := resospd)
  {
    var r := traf.reso[i].(strategy := Strategy.Reso2);
    r := r.(tasActive := true);
    var band := traf.layers[traf.ac[i].layer];
    r := r.(recoveryspd := traf.ap[i].tas);
    resospd := ProjectedSpeed(traf.ac[i].gsEast, traf.ac[i].gsNorth, traf.ac[j].gsEast, traf.ac[j].gsNorth,
                              ownNorm, band.lowerSpd);
    if limitspeed {
      if band.lowerSpd <= resospd <= band.upperSpd {
      } else if Abs(band.lowerSpd - resospd) < Abs(band.upperSpd - resospd) {
        resospd := band.lowerSpd;
      } else {
        resospd := band.upperSpd;
      }
    }
    r := r.(resospd := resospd);
    traf.reso := traf.reso[i := r];
  }

  /** The common body of the hover strategies reso3, reso6 and reso7, at the given hover altitude. */
  method Hover(traf: Traf, i: nat, fpown: int, strategy: Strategy, resoalt: real) returns (resospd: real, resovs: real)
    requires traf.Valid() && i < |traf.ac|
    modifies traf`reso
    ensures traf.Valid()
    ensures OthersUnchanged(traf.reso, old(traf.reso), i)
    ensures resospd == 0.0
    ensures resovs == HoverVs(traf.ac[i].alt, resoalt, traf.layerHeight, traf.ac[i].hpz, traf.ac[i].vsmin)
    ensures traf.reso[i] == old(traf.reso[i]).(strategy := strategy, tasActive := true, vsActive := true,
                                                 altActive := true, resospd := 0.0, resovs := resovs,
                                                 resoalt := resoalt, recoveryspd := 0.0,
                                                 recoveryvs := RecoveryVs(fpown, traf.ac[i]))
  {
    var r := traf.reso[i].(strategy := strategy);
    r := r.(tasActive := true, vsActive := true, altActive := true);
    resospd := 0.0;
    var a := traf.ac[i];
    resovs := if Abs(a.alt - resoalt) < Abs(traf.layerHeight - a.hpz) then 0.0 else a.vsmin;
    r := r.(resospd := resospd, resovs := resovs, resoalt := resoalt, recoveryspd := 0.0);
    if fpown == 1 {
      r := r.(recoveryvs := a.vsmax);
    } else {
      r := r.(recoveryvs := a.vsmin);
    }
    traf.reso := traf.reso[i := r];
  }

  /** reso3: hover at the lower altitude of the current (resolution) layer. */
  method Reso3(traf: Traf, i: nat, fpown: int) returns (resospd: real, resovs: real, resoalt: real)
    requires traf.Valid() && i < |traf.ac|
    modifies traf`reso
    ensures traf.Valid()
    ensures OthersUnchanged(traf.reso, old(traf.reso), i)
    ensures resoalt == traf.layers[traf.ac[i].layer].lowerAlt
    ensures resospd == 0.0
    ensures resovs == HoverVs(traf.ac[i].alt, resoalt, traf.layerHeight, traf.ac[i].hpz, traf.ac[i].vsmin)
    ensures traf.reso[i] == old(traf.reso[i]).(strategy := Strategy.Reso3, tasActive := true, vsActive := true,
                                                 altActive := true, resospd := 0.0, resovs := resovs,
                                                 resoalt := resoalt, recoveryspd := 0.0,
                                                 recoveryvs := RecoveryVs(fpown, traf.ac[i]))
  {
    resoalt := traf.layers[traf.ac[i].layer].lowerAlt;
    resospd, resovs := Hover(traf, i, fpown, Strategy.Reso3, resoalt);
  }

  /** reso4: level off; only the strategy changes (to "None"), the caller switches the altitude channel off. */
  method Reso4(traf: Traf, i: nat) returns (newalt: real, altactive: bool)
    requires traf.Valid() && i < |traf.ac|
    modifies traf`reso
    ensures traf.Valid()
    ensures OthersUnchanged(traf.reso, old(traf.reso), i)
    ensures newalt == traf.ac[i].alt && !altactive
    ensures traf.reso[i] == old(traf.reso[i]).(strategy := NoReso)
  {
    newalt := traf.ac[i].alt;
    altactive := false;
    traf.reso := traf.reso[i := traf.reso[i].(strategy := NoReso)];
  }

  /** reso5: reso1 followed by an unclamped reso2, recorded as "RESO5". */
  method Reso5(traf: Traf, i: nat, j: nat, ownNorm: real) returns (resoalt: real, resovs: real, resospd: real)
    requires traf.Valid() && i < |traf.ac| && j < |traf.ac| && traf.ac[i].layer + 1 < |traf.layers|
    requires ownNorm >= 0.0
    requires ownNorm * ownNorm == traf.ac[i].gsEast * traf.ac[i].gsEast + traf.ac[i].gsNorth * traf.ac[i].gsNorth
    modifies traf`reso
    ensures traf.Valid()
    ensures OthersUnchanged(traf.reso, old(traf.reso), i)
    ensures resoalt == traf.layers[traf.ac[i].layer + 1].lowerAlt && resovs == traf.ac[i].vsmax
    ensures resospd == ProjectedSpeed(traf.ac[i].gsEast, traf.ac[i].gsNorth, traf.ac[j].gsEast, traf.ac[j].gsNorth,
                                      ownNorm, traf.layers[traf.ac[i].layer].lowerSpd)
    ensures traf.reso[i] == old(traf.reso[i]).(strategy := Strategy.Reso5, altActive := true, vsActive := true,
                                                 tasActive := true, resoalt := resoalt, resovs := resovs,
                                                 recoveryvs := traf.ap[i].vs, recoveryspd := traf.ap[i].tas,
                                                 resospd := resospd)
  {
    resoalt, resovs := Reso1(traf, i);
    resospd := Reso2(traf, i, j, ownNorm, false);
    traf.reso := traf.reso[i := traf.reso[i].(strategy := Strategy.Reso5)];
  }

  /** reso6: climb into the layer above and hover at its lower altitude. */
  method Reso6(traf: Traf, i: nat, fpown: int) returns (resospd: real, resovs: real, resoalt: real)
    requires traf.Valid() && i < |traf.ac| && traf.ac[i].layer + 1 < |traf.layers|
    modifies traf`reso
    ensures traf.Valid()
    ensures OthersUnchanged(traf.reso, old(traf.reso), i)
    ensures resoalt == traf.layers[traf.ac[i].layer + 1].lowerAlt
    ensures resospd == 0.0
    ensures resovs == HoverVs(traf.ac[i].alt, resoalt, traf.layerHeight, traf.ac[i].hpz, traf.ac[i].vsmin)
    ensures traf.reso[i] == old(traf.reso[i]).(strategy := Strategy.Reso6, tasActive := true, vsActive := true,
                                                 altActive := true, resospd := 0.0, resovs := resovs,
                                                 resoalt := resoalt, recoveryspd := 0.0,
                                                 recoveryvs := RecoveryVs(fpown, traf.ac[i]))
  {
    resoalt := traf.layers[traf.ac[i].layer + 1].lowerAlt;
    resospd, resovs := Hover(traf, i, fpown, Strategy.Reso6, resoalt);
  }

  /**
   * reso7: descend into the layer below and hover at its lower altitude.
   * The index below layer 0 is -1, which Python reads as the last layer.
   */
  method Reso7(traf: Traf, i: nat, fpown: int) returns (resospd: real, resovs: real, resoalt: real)
    requires traf.Valid() && i < |traf.ac|
    modifies traf`reso
    ensures traf.Valid()
    ensures OthersUnchanged(traf.reso, old(traf.reso), i)
    ensures resoalt == PyIndex(traf.layers, traf.ac[i].layer - 1).lowerAlt
    ensures traf.ac[i].layer > 0 ==> resoalt == traf.layers[traf.ac[i].layer - 1].lowerAlt
    ensures traf.ac[i].layer == 0 ==> resoalt == traf.layers[|traf.layers| - 1].lowerAlt
    ensures resospd == 0.0
    ensures resovs == HoverVs(traf.ac[i].alt, resoalt, traf.layerHeight, traf.ac[i].hpz, traf.ac[i].vsmin)
    ensures traf.reso[i] == old(traf.reso[i]).(strategy := Strategy.Reso7, tasActive := true, vsActive := true,
                                                 altActive := true, resospd := 0.0, resovs := resovs,
                                                 resoalt := resoalt, recoveryspd := 0.0,
                                                 recoveryvs := RecoveryVs(fpown, traf.ac[i]))
  {
    resoalt := PyIndex(traf.layers, traf.ac[i].layer - 1).lowerAlt;
    resospd, resovs := Hover(traf, i, fpown, Strategy.Reso7, resoalt);
  }

  /** reso8: match the intruder's vertical speed; only the vs channel is switched on. */
  method Reso8(traf: Traf, i: nat, j: nat, fpown: int) returns (resovsown: real)
    requires traf.Valid() && i < |traf.ac| && j < |traf.ac|
    modifies traf`reso
    ensures traf.Valid()
    ensures OthersUnchanged(traf.reso, old(traf.reso), i)
    ensures resovsown == traf.ac[j].vs
    ensures traf.reso[i] == old(traf.reso[i]).(strategy := Strategy.Reso8, vsActive := true, resovs := resovsown,
                                                 recoveryvs := RecoveryVs(fpown, traf.ac[i]))
  {
    var r := traf.reso[i].(strategy := Strategy.Reso8);
    r := r.(vsActive := true);
    resovsown := traf.ac[j].vs;
    r := r.(resovs := resovsown);
    if fpown == 1 {
      r := r.(recoveryvs := traf.ac[i].vsmax);
    } else {
      r := r.(recoveryvs := traf.ac[i].vsmin);
    }
    traf.reso := traf.reso[i := r];
  }

  /**
   * Which layer a non-cruising reso9 aircraft hovers in: the current one,
   * unless `rfind('reso')` on the layer name is 0 (falsy), i.e. the last
   * "reso" in the name starts it; then the one above.
   */
  predicate Reso9UsesLayerAbove(layerName: string)
  {
    PyText.RFind(layerName, "reso") == 0
  }

  lemma Reso9LayerChoice(layerName: string)
    ensures Reso9UsesLayerAbove(layerName) <==>
              PyText.OccursAt(layerName, "reso", 0)
              && forall k :: 0 < k <= |layerName| ==> !PyText.OccursAt(layerName, "reso", k)
    ensures !PyText.Contains(layerName, "reso") ==> !Reso9UsesLayerAbove(layerName)
  {
    var r := PyText.RFind(layerName, "reso");
    if PyText.OccursAt(layerName, "reso", 0) && forall k :: 0 < k <= |layerName| ==> !PyText.OccursAt(layerName, "reso", k) {
      assert PyText.Contains(layerName, "reso");
      assert r >= 0;
    }
  }

  /**
   * reso9, the multi-aircraft strategy. A cruising aircraft matches speed
   * like reso2 (clamped) and stays level; any other aircraft hovers like
   * reso3, in the current layer or the one above (see Reso9UsesLayerAbove).
   */
  method Reso9(traf: Traf, i: nat, j: nat, ownNorm: real) returns (resospd: real, resovs: real, resoalt: real)
    requires traf.Valid() && i < |traf.ac| && j < |traf.ac|
    requires traf.ac[i].phase != 0 && Reso9UsesLayerAbove(traf.layers[traf.ac[i].layer].name) ==>
               traf.ac[i].layer + 1 < |traf.layers|
    requires ownNorm >= 0.0
    requires ownNorm * ownNorm == traf.ac[i].gsEast * traf.ac[i].gsEast + traf.ac[i].gsNorth * traf.ac[i].gsNorth
    modifies traf`reso
    ensures traf.Valid()
    ensures OthersUnchanged(traf.reso, old(traf.reso), i)
    ensures traf.reso[i].strategy == Strategy.Reso9 && traf.reso[i].tasActive
    ensures traf.reso[i].resospd == resospd
    ensures traf.reso[i].resoidint == old(traf.reso[i].resoidint)
    ensures traf.ac[i].phase == 0 ==>
              var band := traf.layers[traf.ac[i].layer];
              && resospd == ClampToBand(ProjectedSpeed(traf.ac[i].gsEast, traf.ac[i].gsNorth, traf.ac[j].gsEast,
                                                       traf.ac[j].gsNorth, ownNorm, band.lowerSpd),
                                        band.lowerSpd, band.upperSpd)
              && resovs == 0.0 && resoalt == traf.ac[i].alt
              && traf.reso[i] == old(traf.reso[i]).(strategy := Strategy.Reso9, tasActive := true,
                                                      recoveryspd := traf.ap[i].tas, resospd := resospd)
    ensures traf.ac[i].phase != 0 ==>
              var layer := if Reso9UsesLayerAbove(traf.layers[traf.ac[i].layer].name)
                           then traf.ac[i].layer + 1 else traf.ac[i].layer;
              && resoalt == traf.layers[layer].lowerAlt
              && resospd == 0.0
              && resovs == HoverVs(traf.ac[i].alt, resoalt, traf.layerHeight, traf.ac[i].hpz, traf.ac[i].vsmin)
              && traf.reso[i] == old(traf.reso[i]).(strategy := Strategy.Reso9, tasActive := true, vsActive := true,
                                                      altActive := true, resospd := 0.0, resovs := resovs,
                                                      resoalt := resoalt, recoveryspd := 0.0)
  {
    var r := traf.reso[i].(strategy := Strategy.Reso9);
    var a := traf.ac[i];
    if a.phase == 0 {
      r := r.(tasActive := true);
      var band := traf.layers[a.layer];
      r := r.(recoveryspd := traf.ap[i].tas);
      resospd := ProjectedSpeed(a.gsEast, a.gsNorth, traf.ac[j].gsEast, traf.ac[j].gsNorth, ownNorm, band.lowerSpd);
      if band.lowerSpd <= resospd <= band.upperSpd {
      } else if Abs(band.lowerSpd - resospd) < Abs(band.upperSpd - resospd) {
        resospd := band.lowerSpd;
      } else {
        resospd := band.upperSpd;
      }
      r := r.(resospd := resospd);
      resovs := 0.0;
      resoalt := a.alt;
    } else {
      r := r.(tasActive := true, vsActive := true, altActive := true);
      if PyText.RFind(traf.layers[a.layer].name, "reso") != 0 {
        resoalt := traf.layers[a.layer].lowerAlt;
      } else {
        resoalt := traf.layers[a.layer + 1].lowerAlt;
      }
      resovs := if Abs(a.alt - resoalt) < Abs(traf.layerHeight - a.hpz) then 0.0 else a.vsmin;
      resospd := 0.0;
      r := r.(resospd := resospd, resovs := resovs, resoalt := resoalt, recoveryspd := 0.0);
    }
    traf.reso := traf.reso[i := r];
  }
}
