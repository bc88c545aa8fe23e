/**
 * The strategy setters of plugins/m2/hybridreso.py that differ from those
 * of plugins/m2/resostrategies.py. reso2 stores its speed only when it
 * clamps it into the layer band, so reso5 (which asks for the unclamped
 * speed) leaves resospd as it was; reso9 always matches speed, unclamped.
 * reso1, reso3, reso4, reso6, reso7 and reso8 are the same in both copies
 * (module ResoStrategies).
 *
 * The copy builds the two velocity vectors as `np.array([gseast], gsnorth)`,
 * which passes the north component where numpy expects a type; the model
 * uses the two-component vectors the comment beside those lines describes,
 * as ResoStrategies.ProjectedSpeed does.
 */
module HybridResoSetters {
  import opened Traffic
  import RS = ResoStrategies

  /**
   * reso2 of hybridreso.py: the projected speed, clamped into the layer's
   * band when `limitspeed` holds. Only a clamped speed is stored in resospd.
   */
  method Reso2(traf: Traf, i: nat, j: nat, ownNorm: real, limitspeed: bool) returns (resospd: real)
    requires traf.Valid() && i < |traf.ac| && j < |traf.ac|
    requires ownNorm >= 0.0
    requires ownNorm * ownNorm == traf.ac[i].gsEast * traf.ac[i].gsEast + traf.ac[i].gsNorth * traf.ac[i].gsNorth
    modifies traf`reso
    ensures traf.Valid()
    ensures RS.OthersUnchanged(traf.reso, old(traf.reso), i)
    ensures var band := traf.layers[traf.ac[i].layer];
            var raw := RS.ProjectedSpeed(traf.ac[i].gsEast, traf.ac[i].gsNorth, traf.ac[j].gsEast, traf.ac[j].gsNorth,
                                         ownNorm, band.lowerSpd);
            resospd == if limitspeed then RS.ClampToBand(raw, band.lowerSpd, band.upperSpd) else raw
    ensures traf.reso[i] == old(traf.reso[i]).(strategy := Strategy.Reso2, tasActive := true,
                                                 recoveryspd := traf.ap[i].tas,
                                                 resospd := if limitspeed then resospd else old(traf.reso[i].resospd))
  {
    var r := traf.reso[i].(strategy := Strategy.Reso2);
    r := r.(tasActive := true);
    var band := traf.layers[traf.ac[i].layer];
    r := r.(recoveryspd := traf.ap[i].tas);
    resospd := RS.ProjectedSpeed(traf.ac[i].gsEast, traf.ac[i].gsNorth, traf.ac[j].gsEast, traf.ac[j].gsNorth,
                                 ownNorm, band.lowerSpd);
    if limitspeed {
      if band.lowerSpd <= resospd <= band.upperSpd {
        r := r.(resospd := resospd);
      } else if Abs(band.lowerSpd - resospd) < Abs(band.upperSpd - resospd) {
        resospd := band.lowerSpd;
        r := r.(resospd := resospd);
      } else {
        resospd := band.upperSpd;
        r := r.(resospd := resospd);
      }
    }
    traf.reso := traf.reso[i := r];
  }

  /**
   * reso5 of hybridreso.py: reso1, then the unclamped reso2, recorded as
   * "RESO5". The speed it returns is not stored: resospd keeps whatever
   * value an earlier resolution left there.
   */
  method Reso5(traf: Traf, i: nat, j: nat, ownNorm: real) returns (resoalt: real, resovs: real, resospd: real)
    requires traf.Valid() && i < |traf.ac| && j < |traf.ac| && traf.ac[i].layer + 1 < |traf.layers|
    requires ownNorm >= 0.0
    requires ownNorm * ownNorm == traf.ac[i].gsEast * traf.ac[i].gsEast + traf.ac[i].gsNorth * traf.ac[i].gsNorth
    modifies traf`reso
    ensures traf.Valid()
    ensures RS.OthersUnchanged(traf.reso, old(traf.reso), i)
    ensures resoalt == traf.layers[traf.ac[i].layer + 1].lowerAlt && resovs == traf.ac[i].vsmax
    ensures resospd == RS.ProjectedSpeed(traf.ac[i].gsEast, traf.ac[i].gsNorth, traf.ac[j].gsEast, traf.ac[j].gsNorth,
                                         ownNorm, traf.layers[traf.ac[i].layer].lowerSpd)
    ensures traf.reso[i] == old(traf.reso[i]).(strategy := Strategy.Reso5, altActive := true, vsActive := true,
                                                 tasActive := true, resoalt := resoalt, resovs := resovs,
                                                 recoveryvs := traf.ap[i].vs, recoveryspd := traf.ap[i].tas)
  {
    resoalt, resovs := RS.Reso1(traf, i);
    resospd := Reso2(traf, i, j, ownNorm, false);
    traf.reso := traf.reso[i := traf.reso[i].(strategy := Strategy.Reso5)];
  }

  /**
   * reso9 of hybridreso.py: whatever its flight phase, the follower matches
   * the projected speed of its leader, without the layer clamp.
   */
  method Reso9(traf: Traf, i: nat, j: nat, ownNorm: real) returns (resospd: real)
    requires traf.Valid() && i < |traf.ac| && j < |traf.ac|
    requires ownNorm >= 0.0
    requires ownNorm * ownNorm == traf.ac[i].gsEast * traf.ac[i].gsEast + traf.ac[i].gsNorth * traf.ac[i].gsNorth
    modifies traf`reso
    ensures traf.Valid()
    ensures RS.OthersUnchanged(traf.reso, old(traf.reso), i)
    ensures resospd == RS.ProjectedSpeed(traf.ac[i].gsEast, traf.ac[i].gsNorth, traf.ac[j].gsEast, traf.ac[j].gsNorth,
                                         ownNorm, traf.layers[traf.ac[i].layer].lowerSpd)
    ensures traf.reso[i] == old(traf.reso[i]).(strategy := Strategy.Reso9, tasActive := true,
                                                 recoveryspd := traf.ap[i].tas, resospd := resospd)
  {
    var r := traf.reso[i].(strategy := Strategy.Reso9);
    r := r.(tasActive := true);
    var lower := traf.layers[traf.ac[i].layer].lowerSpd;
    r := r.(recoveryspd := traf.ap[i].tas);
    resospd := RS.ProjectedSpeed(traf.ac[i].gsEast, traf.ac[i].gsNorth, traf.ac[j].gsEast, traf.ac[j].gsNorth,
                                 ownNorm, lower);
    r := r.(resospd := resospd);
    traf.reso := traf.reso[i := r];
  }
}
