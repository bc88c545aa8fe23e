# Metropolis-2 BlueSky plugins: a Dafny model of the per-tick decision logic

The Metropolis-2 fork of the BlueSky air-traffic simulator adds plugins for
urban drone traffic. This project models the decision code of those plugins
and proves properties of it:

- **Tactical conflict resolution** (`hybrid_resolution.dfy`, `resostrategies.dfy`,
  `hybridreso_setters.dfy`, `resumenav.dfy`, `hybridreso.dfy`): the priority
  rule that picks who gives way, the multi-aircraft conflict (MACC) groups,
  the strategy table over the two aircraft's flight phases, the nine strategy
  setters that switch the autopilot channels and set targets, and the
  `resumenav` state machine that keeps or releases resolutions over the
  persistent set of conflict pairs. Both copies of the plugin are covered:
  `hybridResolution.py` and the older `hybridreso.py`.
- **Intent** (`hybridconfdetect.dfy`, `intent.dfy`): the intent filter that drops
  conflict pairs whose intents stay apart, and the builder of each aircraft's
  intent polyline within its look-ahead distance.
- **Per-aircraft checkers** (`overshootcheck.dfy`, `ingeofence.dfy`,
  `descendcheck.dfy`, `checkstate.dfy`, `speedupdate.dfy`, `centralspd.dfy`):
  - the waypoint overshoot detector and the geofence reroute decision;
  - the terminal-descent trigger and the orchestrating state checker;
  - the ETA speed-update hysteresis and the centralised cruise-speed mask.
- **Strategic deconfliction and scenario generation** (`timefmt.dfy`,
  `occupancy.dfy`, `routing.dfy`, `turns.dfy`, `fpeval.dfy`, `prototype.dfy`,
  `pathpoints.dfy`, `routeplanner.dfy`, `scenario.dfy`, `reroute.dfy`,
  `translator.dfy`):
  - clock-time conversion and time-slot occupancy tests;
  - travel time with turn penalties and departure delays;
  - flight-plan evaluation against the occupancy;
  - turn detection and turn-speed tables;
  - the waypoint lists of a route and the generated scenario lines;
  - the tactical reroute command sequence;
  - the scenario translator's token rewriting.

Shared pieces:

- `traffic.dfy` holds the simulator's per-aircraft arrays as a class of sequences indexed by aircraft.
- `stack.dfy` models the command stack as a log of structured commands, one per `stack.stack` call.
- `pytext.dfy` holds the Python string operations the plugins rely on.
- `wrappers.dfy` holds `Option`. A Python exception on a path that the model follows becomes `None`.

Geometry, conflict probes, shortest paths and polygon tests are parameters
of the operations that use them.

Where the code runs a loop or updates state, the model keeps that form:

- each such operation is a method over a class's fields or over the command log;
- the method is proved against a specification function;
- lemmas then state what the source promises about that function.

The pure helpers are functions.

## Model

| member | source | states |
|---|---|---|
| InGeoFence.Vertices | plugins/m2/ingeoFence.py:21 | a fence's flat coordinate list becomes one (lon, lat) vertex per whole lat/lon pair, coordinate 2k+1 paired with 2k |
| InGeoFence.RouteLineShape | plugins/m2/ingeoFence.py:29-36 | the checked line starts at the aircraft and then follows the waypoints from the active one to the end; with no active waypoint (-1) only the last waypoint follows, and an empty route leaves the aircraft alone |
| InGeoFence.NoRouteNoReroute | plugins/m2/ingeoFence.py:44-59 | an aircraft with an empty route never intersects a fence and is never rerouted, whatever the fences are |
| InGeoFence.NoRouteDestIsAircraft | plugins/m2/ingeoFence.py:51-52 | with an empty route the end point checked is the aircraft itself, so destval equals acval |
| InGeoFence.Checker | plugins/m2/ingeoFence.py:14-61 | answers (routeval, acval) of the assessment and stacks REROUTEGEOFENCE exactly when the route crosses a fence while neither the aircraft nor the end point is inside one; nothing else is stacked |
| Intent.TargetAlt | plugins/M2-decentralised/intent.py:59-64 | the intent altitude is the selected or the current altitude, always within one metre of the selected one, and the selected one whenever they differ by more than a metre |
| Intent.Walk | plugins/M2-decentralised/intent.py:84-131 | the absorbed points are the consecutive waypoints from the active one, and no point is synthesised only when the route runs out |
| Intent.WalkDistance | plugins/M2-decentralised/intent.py:104-115 | the covered distance is the start distance plus exactly the legs of the absorbed waypoints |
| Intent.WalkBudget | plugins/M2-decentralised/intent.py:107-124 | a walk starting within the look-ahead budget never overspends it, and a point is synthesised only where the next leg would reach the budget |
| Intent.Line | plugins/M2-decentralised/intent.py:80-126 | the intent line is the aircraft's own position, then the absorbed waypoints, then the synthesised point if any |
| Intent.AircraftIntent | plugins/M2-decentralised/intent.py:55-131 | one aircraft's intent exists exactly when its route is not empty, and its line then has at least two points and starts at the aircraft |
| Intent.CalcOne | plugins/M2-decentralised/intent.py:59-131 | the loop over the route computes exactly the aircraft's intent |
| Intent.IntentTable.Create | plugins/M2-decentralised/intent.py:39-44 | n new aircraft get no intent and existing entries are kept |
| Intent.IntentTable.CalcIntent | plugins/M2-decentralised/intent.py:46-132 | every aircraft before the first empty route gets its intent in index order; from that aircraft on the previous intents stay, and the pass completes exactly when no route is empty |
| OvershootCheck.CalcDistWhen | plugins/m2/overshootcheck.py:52-90 | a distance is measured exactly when the route is not empty and the active waypoint is the one with the greatest name; it is then the distance to the active waypoint in metres |
| OvershootCheck.Check | plugins/m2/overshootcheck.py:93-104 | the check fires exactly when a measured distance exceeds the remembered one; firing resets the memory to 99999, a measured non-firing distance (never larger than the memory) replaces it, no measurement keeps it |
| OvershootCheck.ApproachNeverFires | plugins/m2/overshootcheck.py:93-104 | an aircraft whose measured distances never grow, starting below the memory, is never reported as overshooting |
| OvershootCheck.FiredResets | plugins/m2/overshootcheck.py:94-97 | after firing, the next check fires only for a distance beyond 99999 m |
| OvershootCheck.OvershootCmdsFrom | plugins/m2/overshootcheck.py:44-50 | every command of an update is REROUTEOVERSHOOT for one of the aircraft visited |
| OvershootCheck.OvershootCmdsMembers | plugins/m2/overshootcheck.py:44-50 | with unique callsigns an aircraft gets REROUTEOVERSHOOT in an update exactly when its check fires |
| OvershootCheck.Overshoot.constructor | plugins/m2/overshootcheck.py:30-34 | both arrays start empty |
| OvershootCheck.Overshoot.Create | plugins/m2/overshootcheck.py:36-41 | n new aircraft start not overshot with memory 99999; existing entries stay |
| OvershootCheck.Overshoot.Checker | plugins/m2/overshootcheck.py:93-104 | answers the check's verdict, writes only that aircraft's memory, and stacks REROUTEOVERSHOOT exactly when it fires |
| OvershootCheck.Overshoot.Update | plugins/m2/overshootcheck.py:43-50 | every aircraft's flag and memory become its check's verdict against its old memory, and the log grows by exactly the firing aircraft's commands in index order |
| OvershootCheck.Overshoot.EchoAcOvershot | plugins/m2/overshootcheck.py:106-118 | the echo starts with the callsign and is the 'has overshot.' answer exactly when the stored overshoot flag is set |
| OvershootCheck.Overshoot.EchoAfterUpdate | plugins/m2/overshootcheck.py:106-118 | in the state update leaves, the echo of an aircraft says 'has overshot.' exactly when its distance to the active waypoint is known and exceeds the distance remembered before the update |
| OvershootCheck.OvershotText | plugins/m2/overshootcheck.py:110-113 | the two answers differ, so the echo reads 'has overshot.' exactly for a set flag |
| DescendCheck.DescendCmdsAtCases | plugins/m2/descendcheck.py:55-73 | the three descent commands (stop at 0.0215982 nm, descend to -5 ft, delete at 0 ft) are stacked exactly at the top of descent: an active waypoint that is the one before the greatest-named one, no resolution and no conflict |
| DescendCheck.NoDescentOnSingleWaypoint | plugins/m2/descendcheck.py:57-68 | a one-waypoint route never starts the descent |
| DescendCheck.DeleteAt | plugins/m2/descendcheck.py:68-73 | ATALT 0 DEL is stacked for an aircraft exactly when it is at its top of descent |
| DescendCheck.DescendDeletes | plugins/m2/descendcheck.py:51-73 | a delete in an update's commands names exactly an aircraft visited at its top of descent |
| DescendCheck.DescendCmdsMembers | plugins/m2/descendcheck.py:51-73 | with unique callsigns an aircraft is scheduled for deletion in an update exactly when it is at its top of descent |
| DescendCheck.Update | plugins/m2/descendcheck.py:50-73 | the log grows by exactly each aircraft's descent commands in index order and nothing else changes |
| DescendCheck.CheckOne | plugins/m2/descendcheck.py:55-73 | one aircraft's turn stacks exactly its descent commands |
| CheckState.Started | plugins/m2/checkState.py:122-123 | the descent flag is the descent checker's answer only while the gate is open (not started, no geofence duration, no resolution), and once true it stays true |
| CheckState.ReportCmds | plugins/m2/checkState.py:101-114 | an aircraft's check stacks REROUTEGEOFENCE exactly when the geofence assessment asks for it and REROUTEOVERSHOOT exactly when the overshoot check fires, and nothing else |
| CheckState.HouseCmds | plugins/m2/checkState.py:116-127 | DELWPT of the last waypoint is stacked exactly for an aircraft seen for the first time, DEL exactly when the descent gate is closed and the aircraft is below one foot |
| CheckState.AircraftCmdsCases | plugins/m2/checkState.py:98-127 | for one aircraft's turn, each of the four commands is stacked exactly under its condition (fence, overshoot, first sighting, low and not descending) |
| CheckState.AircraftCmdsOwn | plugins/m2/checkState.py:98-127 | every command of an aircraft's turn names that aircraft and is one of the four kinds |
| CheckState.FirstFail | plugins/m2/checkState.py:116-117 | the first aircraft, from a given index, that is new and has an empty route (where `wpname[-1]` raises); none before it fails |
| CheckState.TurnsTaken | plugins/m2/checkState.py:98-127 | the number of aircraft whose turn started before the raise: all up to the failing one, that one included |
| CheckState.NewIdsMembers | plugins/m2/checkState.py:116-119 | the callsigns appended to reference_ac are exactly the unseen callsigns among the aircraft visited |
| CheckState.NewIdsNoDup | plugins/m2/checkState.py:116-119 | with unique callsigns reference_ac never holds a callsign twice |
| CheckState.DelWptOnlyNew | plugins/m2/checkState.py:116-118 | DELWPT is only ever stacked for an aircraft not yet in reference_ac |
| CheckState.DelOnlyLow | plugins/m2/checkState.py:121-127 | DEL is only ever stacked for an aircraft below one foot whose descent gate is closed |
| CheckState.TurnStep | plugins/m2/checkState.py:98-127 | one aircraft's turn, applied to the arrays after the turns before it, gives the arrays after one more turn: its geofence and overshoot entries written, its descent flag moved and its callsign remembered only when it does not raise |
| CheckState.Checks.constructor | plugins/m2/checkState.py:35-50 | all arrays and reference_ac start empty |
| CheckState.Checks.Create | plugins/m2/checkState.py:51-65 | n new aircraft start not descending, not overshot, at distance 99999 and outside every geofence; existing entries stay |
| CheckState.Checks.Delete | plugins/m2/checkState.py:68-75 | deleting an aircraft removes its entry from every array and keeps the others in order |
| CheckState.Checks.Reset | plugins/m2/checkState.py:77-93 | all arrays and reference_ac are empty again |
| CheckState.Checks.Update | plugins/m2/checkState.py:96-127 | the update (with the overshoot calls fixed) completes exactly when no new aircraft has an empty route; the arrays and the stacked commands are those of the turns taken, up to and including the aircraft that raises |
| CheckState.Checks.Turn | plugins/m2/checkState.py:98-127 | one aircraft's turn extends the arrays and the command log by exactly that aircraft's part, and tells whether the loop goes on |
| CheckState.Checks.CheckOne | plugins/m2/checkState.py:101-127 | one aircraft's checks write its geofence, overshoot and distance entries, its descent flag and reference_ac entry unless it raises, and stack exactly its commands |
| CheckState.Checks.CheckRoute | plugins/m2/checkState.py:101-114 | the geofence and overshoot checks write only that aircraft's four entries and stack only their reports |
| CheckState.Checks.CheckFence | plugins/m2/checkState.py:101-107 | the aircraft's two geofence entries take the checker's answers, nothing else in the state changes, and only the geofence reroute is stacked, exactly when the checker asks for it |
| CheckState.Checks.CheckOvershoot | plugins/m2/checkState.py:109-112 | the aircraft's overshot flag and remembered distance take the overshoot verdict on the measured distance, nothing else changes, and REROUTEOVERSHOOT is stacked exactly when the distance grew |
| CheckState.Checks.Housekeep | plugins/m2/checkState.py:116-127 | the first-sighting and descent part writes only the descent flag and reference_ac, and only when the aircraft does not raise |
| CheckState.Checks.UpdateAsWritten | plugins/m2/checkState.py:96-112 | as written, an update of a non-empty traffic records the first aircraft's geofence result and then raises at the overshoot call, so nothing else is written or stacked; an empty traffic is a no-op that completes |
| CheckState.Checks.EchoAcGeofence | plugins/m2/checkState.py:129-138 | the echo starts with the callsign and reads 'geofence conflict True.' exactly when the stored geofence answer is set |
| CheckState.Checks.GeofenceEchoAfterUpdate | plugins/m2/checkState.py:129-138 | after the turns of update, the geofence echo of every checked aircraft answers True exactly when the geofence checker finds its route crossing a geofence |
| CheckState.GeofenceText | plugins/m2/checkState.py:129-132 | the geofence echo reads 'True.' exactly for a conflict |
| CheckState.Checks.EchoAcOvershot | plugins/m2/checkState.py:140-152 | the echo starts with the callsign and is the 'has overshot.' answer exactly when the stored overshoot flag is set |
| CheckState.Checks.OvershootEchoAfterUpdate | plugins/m2/checkState.py:140-152 | after the turns of update, the overshoot echo of every checked aircraft says 'has overshot.' exactly when its distance to the active waypoint is known and exceeds the one remembered before (the corrected update, see Findings) |
| SpeedUpdate.Trunc | plugins/m2/speed_update.py:44 | `int()` of a float truncates toward zero, for both signs |
| SpeedUpdate.OnlyInCruise | plugins/m2/speed_update.py:17 | outside a cruising layer, in another flight phase or before the second waypoint nothing is stacked and the flag is kept |
| SpeedUpdate.StartCases | plugins/m2/speed_update.py:22-32 | with the flag clear and away from the last two waypoints, a speed difference below -25 on a straight leg speeds up to the layer's upper limit, above 25 slows down to the lower limit, and otherwise nothing happens |
| SpeedUpdate.RaisedOnlyBySpeedChange | plugins/m2/speed_update.py:22-32 | the flag is only ever raised together with two identical SPD commands (upper or lower limit) and an ECHO |
| SpeedUpdate.LoweredWithNavOn | plugins/m2/speed_update.py:33-54 | whenever the flag is lowered LNAV ON and VNAV ON are stacked |
| SpeedUpdate.ReleaseCases | plugins/m2/speed_update.py:33-54 | with the flag set it is released on a small difference, near a turn or on the 19-knot bug, and otherwise it stays set exactly when the aircraft is away from the last two waypoints |
| SpeedUpdate.NearDestinationReleases | plugins/m2/speed_update.py:50-54 | at the second-to-last waypoint the flag always ends lowered and the last three commands send the aircraft back to waypoint speed |
| SpeedUpdate.Flags.constructor | plugins/m2/speed_update.py:10-54 | every aircraft starts with the flag clear |
| SpeedUpdate.Flags.SetSpeed | plugins/m2/speed_update.py:10-54 | setSpeed writes only the aircraft's flag and stacks exactly the commands of the specification |
| SpeedUpdate.Flags.AdjustSpeed | plugins/m2/speed_update.py:18-54 | the cruising branch writes only the aircraft's flag and stacks exactly the commands of the specification |
| CentralisedSpd.NavTimedMask | plugins/M2CentralisedSpd.py:34-48 | an aircraft with LNAV on, not rogue, nonzero selected speed, not turning (dist2turn at least 75) and level gets 20 (MP20) or 30; every other selected speed is kept (the element-wise type test, see Findings) |
| CentralisedSpd.NavTimedMaskAsWritten | plugins/M2CentralisedSpd.py:34-48 | as written, every aircraft the mask selects gets 30, whatever its type, and every other aircraft keeps its selected speed |
| CentralisedSpd.MP20GetsThirtyAsWritten | plugins/M2CentralisedSpd.py:46 | a level, straight MP20 on LNAV at 10 gets 30 as written and 20 as intended |
| CentralisedSpd.NavTimedEmpty | plugins/M2CentralisedSpd.py:31-32 | with no traffic nothing changes |
| CentralisedSpd.NavTimedIdempotent | plugins/M2CentralisedSpd.py:29-50 | running the function twice gives the same speeds as running it once |
| ResoStrategies.ClampToBand | plugins/m2/resostrategies.py:67-75 | a speed inside the layer's band is kept; one outside becomes the nearer limit (the upper one on a tie), so the result is never farther from the speed than either limit and lies in the band |
| ResoStrategies.ProjectedSpeed | plugins/m2/resostrategies.py:54-64 | the intruder's ground velocity projected on the ownship's track (times the ownship's speed it is the dot product), or the lower speed limit plus 0.5 for a hovering ownship |
| ResoStrategies.HoverVs | plugins/m2/resostrategies.py:100-102 | the initial vertical speed of a hover is 0 exactly when the aircraft is already closer to the hover altitude than layer height minus hpz, and vsmin otherwise |
| ResoStrategies.RecoveryVs | plugins/m2/resostrategies.py:114-118 | the recovery vertical speed is vsmax exactly in the climbing phase and vsmin in every other phase |
| ResoStrategies.Reso1 | plugins/m2/resostrategies.py:7-33 | climbs at vsmax to the lower altitude of the layer above, switches on the altitude and vs channels, saves the autopilot vs for recovery and leaves every other aircraft's resolution state unchanged |
| ResoStrategies.Reso2 | plugins/m2/resostrategies.py:36-79 | switches on the speed channel, saves the autopilot speed and stores the projected speed, clamped into the layer band exactly when limitspeed holds; no other aircraft changes |
| ResoStrategies.Hover | plugins/m2/resostrategies.py:82-120 | the shared hover step: all three channels on, speed 0, the hover vs, the given altitude, recovery speed 0 and the phase-dependent recovery vs |
| ResoStrategies.Reso3 | plugins/m2/resostrategies.py:82-120 | hovers at the lower altitude of the current layer with the state the hover step sets |
| ResoStrategies.Reso4 | plugins/m2/resostrategies.py:123-136 | keeps the current altitude with the altitude channel off and only resets the strategy name |
| ResoStrategies.Reso5 | plugins/m2/resostrategies.py:139-151 | reso1's climb together with reso2's unclamped projected speed, recorded as RESO5 |
| ResoStrategies.Reso6 | plugins/m2/resostrategies.py:154-192 | hovers at the lower altitude of the layer above |
| ResoStrategies.Reso7 | plugins/m2/resostrategies.py:195-233 | hovers at the lower altitude of the layer below, which for the lowest layer is the last layer by Python's negative indexing |
| ResoStrategies.Reso8 | plugins/m2/resostrategies.py:236-261 | matches the intruder's vertical speed with only the vs channel switched on and the phase-dependent recovery vs |
| ResoStrategies.Reso9LayerChoice | plugins/m2/resostrategies.py:319-327 | the layer above is used exactly when the last occurrence of "reso" in the layer name is at position 0, so a name without "reso" hovers in its own layer |
| ResoStrategies.Reso9 | plugins/m2/resostrategies.py:264-342 | a cruising aircraft gets the clamped projected speed and stays level at its altitude; any other aircraft hovers at speed 0 in its own layer or the one above as Reso9LayerChoice says; only a non-cruising aircraft whose layer name starts with 'reso' needs a layer above |
| HybridResoSetters.Reso2 | plugins/m2/hybridreso.py:643-714 | returns the projected speed, clamped exactly when limitspeed holds, but stores it in resospd only when it was clamped |
| HybridResoSetters.Reso5 | plugins/m2/hybridreso.py:776-789 | reso1's climb and the unclamped projected speed, which is returned while resospd keeps its earlier value |
| HybridResoSetters.Reso9 | plugins/m2/hybridreso.py:911-940 | in every flight phase stores the unclamped projected speed with only the speed channel on |
| HybridConfdetect.VerticalConditionTable | plugins/m2/hybridConfdetect.py:84-106 | the vertical condition is the test hpz >= the target-altitude gap in the phase and altitude combinations that measure it, and the ownship's swverconf everywhere else |
| HybridConfdetect.SurvivorsMembers | plugins/m2/hybridConfdetect.py:119-126 | the filtered list holds exactly the input pairs whose intent still conflicts and is never longer than the input |
| HybridConfdetect.SurvivorsConcat | plugins/m2/hybridConfdetect.py:57-60 | filtering keeps the input order: filtering a concatenation filters each part |
| HybridConfdetect.ClearedPairs | plugins/m2/hybridConfdetect.py:126-131 | swconfl is switched off exactly at the index pairs of the pairs that are removed |
| HybridConfdetect.MarksKeys | plugins/m2/hybridConfdetect.py:121-133 | changeactive holds exactly the aircraft of the input pairs |
| HybridConfdetect.MarksActive | plugins/m2/hybridConfdetect.py:121-141 | an aircraft is marked active exactly when some surviving pair involves it, so a later removed pair never clears the mark |
| HybridConfdetect.FilterPairs | plugins/m2/hybridConfdetect.py:53-133 | the first loop returns the surviving pairs in order, switches off swconfl exactly at the removed pairs and builds the changeactive dictionary |
| HybridConfdetect.FilterOne | plugins/m2/hybridConfdetect.py:60-133 | one pass over pair k carries the returned list, changeactive and the switched-off cells from the first k pairs to the first k + 1, and touches swconfl only at that pair when it does not survive |
| HybridConfdetect.ClearOne | plugins/m2/hybridConfdetect.py:131 | switches off one cell of swconfl and keeps every other cell |
| HybridConfdetect.WriteActive | plugins/m2/hybridConfdetect.py:135-141 | inconf takes the value changeactive gives for each of its aircraft and keeps its value elsewhere |
| HybridConfdetect.IntentFilter | plugins/m2/hybridConfdetect.py:49-143 | the surviving pairs, swconfl switched off at the removed pairs, and inconf true exactly for the aircraft left in some conflict, false for those whose every conflict was removed, and untouched elsewhere |
| HybridResolution.ResolvesExactly | plugins/m2/hybridResolution.py:508-532 | the ownship resolves exactly when its priority is lower, or the priorities are equal and its callsign number is larger |
| HybridResolution.ExactlyOneResolves | plugins/m2/hybridResolution.py:508-532 | when priority or callsign number differ, exactly one of the two aircraft has to resolve |
| HybridResolution.NeitherResolvesOnTie | plugins/m2/hybridResolution.py:519-529 | with equal priority and callsign number neither aircraft resolves, so such a conflict is left unresolved |
| HybridResolution.ResolvesTransitive | plugins/m2/hybridResolution.py:508-532 | having to resolve is transitive, which is what lets the highest-priority scan pick a group leader |
| HybridResolution.TiebreaksAgreeOnLetterCallsigns | plugins/m2/hybridreso.py:597-598 | for a callsign of one letter followed by digits, the older copy's all-digits number equals the current copy's suffix number |
| HybridResolution.TiebreaksDisagree | plugins/m2/hybridreso.py:597-598 | for callsigns that start with a digit the two tie-breaks can order two aircraft oppositely ("112" and "205") |
| HybridResolution.PairsUpToIsFilter | plugins/m2/hybridResolution.py:496-506 | the collected indices are exactly the pairs with the given ownship and a cruising intruder, in increasing order |
| HybridResolution.Pairs | plugins/m2/hybridResolution.py:496-506 | the loop returns the collected pair indices of the whole conflict list |
| HybridResolution.SurvivorResolvesAgainstNone | plugins/m2/hybridResolution.py:68-73 | the aircraft the highest_prio scan ends with has to resolve against no member of the group |
| HybridResolution.RemoveFirst | plugins/m2/hybridResolution.py:74 | list.remove drops exactly one occurrence: one element shorter and the same multiset less that element |
| HybridResolution.GroupWellFormed | plugins/m2/hybridResolution.py:66-76 | a cruising ownship with at least two cruising intruders gives a group of at least three cruising aircraft led by one that resolves against none of them |
| HybridResolution.IntrudersCruise | plugins/m2/hybridResolution.py:501-502 | every intruder of the collected pairs cruises |
| HybridResolution.MaccGroupsWellFormed | plugins/m2/hybridResolution.py:55-76 | every group of the MACC list is well formed in that sense |
| HybridResolution.BuildGroup | plugins/m2/hybridResolution.py:66-76 | the group-building loop returns the ownship and the collected intruders with the scan's survivor moved to the front |
| HybridResolution.ScanGroup | plugins/m2/hybridResolution.py:67-75 | the scan and the reordering return the survivor first, followed by the other members in their order |
| HybridResolution.BuildMacc | plugins/m2/hybridResolution.py:55-76 | the MACC loop returns one group per cruising ownship with more than one cruising intruder, in sorted conflict order, skipping ownships already grouped |
| HybridResolution.VisitConflict | plugins/m2/hybridResolution.py:57-76 | one conflict extends the MACC list exactly as the next step of that definition |
| HybridResolution.MaccGroupsOver | plugins/m2/hybridResolution.py:55-76 | every MACC group is a non-empty list of aircraft indices |
| HybridResolution.TableChoice | plugins/m2/hybridResolution.py:105-202 | for each flight-phase combination, resolution-layer flag and probe answer, which strategy is chosen, each case as an if-and-only-if, with the phase error outside phases 0 to 2 |
| HybridResolution.EchoFor | plugins/m2/hybridResolution.py:105-202 | each table entry stacks exactly one ECHO, except reso4 and the phase error, which stack none |
| HybridResolution.GsTarget | plugins/m2/hybridreso.py:776-789 | the speed target an entry leaves is the stored resolution speed, except reso5 of the older copy, which hands back the unstored projected speed |
| HybridResolution.AddOnce | plugins/m2/hybridResolution.py:100-103 | the callsign is added only when missing: the old list is a prefix of the new one, the new one holds the callsign, and a list without duplicates keeps none |
| HybridResolution.RecordIntruder | plugins/m2/hybridResolution.py:100-103 | the intruder callsign is added to the ownship's resoidint once and no other aircraft changes |
| HybridResolution.Reso5 | plugins/m2/hybridResolution.py:129 | the climb with speed matching of either copy: strategy RESO5, resoidint kept, and resospd left as it was in the older copy |
| HybridResolution.ApplyChoice | plugins/m2/hybridResolution.py:105-202 | runs the chosen strategy for the ownship and writes newgs, newvs and newalt exactly as that table entry does |
| HybridResolution.ApplySpeedChoice | plugins/m2/hybridResolution.py:105-202 | the same for the entries that write the speed target: reso2, reso3, reso5, reso6 and reso7 |
| HybridResolution.ApplyOtherChoice | plugins/m2/hybridResolution.py:161-199 | the same for reso1, reso4, reso8 and the phase error |
| HybridResolution.ResolveAgainst | plugins/m2/hybridResolution.py:89-202 | a resolving ownship records the intruder, applies the table entry and stacks that entry's ECHO |
| HybridResolution.ResolvePair | plugins/m2/hybridResolution.py:80-202 | a conflict whose ownship is in a MACC group or does not have to give way changes nothing; otherwise it is resolved as above |
| HybridResolution.TakeSnapshots | plugins/m2/hybridreso.py:142 | every pre-resolution flight plan is kept, except those of the snapshotted aircraft, which become their current plan |
| HybridResolution.StoreSnapshots | plugins/m2/hybridreso.py:138-143 | the older copy snapshots exactly the aircraft that start a resolution; the current copy leaves preresoroute unchanged; the older copy's preresoroute is exactly the old one with the flight plan of every snapshotted aircraft copied in |
| HybridResolution.PairEcho | plugins/m2/hybridResolution.py:110-200 | a conflict stacks at most one ECHO, and only when its ownship resolves it |
| HybridResolution.PairEchoes | plugins/m2/hybridResolution.py:80-202 | the second loop stacks at most one ECHO per conflict |
| HybridResolution.ResolvePairs | plugins/m2/hybridResolution.py:80-202 | after the second loop only ownships of resolving pairs have changed, every resolving pair's intruder is in its ownship's resoidint, resoidint lists only grow, and the ECHOes are those of the conflicts in sorted order |
| HybridResolution.FollowLeader | plugins/m2/hybridResolution.py:204-211 | a MACC follower records its leader once, flies reso9 and takes reso9's speed, vertical speed and altitude (the older copy only the speed) |
| HybridResolution.MaccEcho | plugins/m2/hybridResolution.py:212 | the group's ECHO names the leader and the followers in group order |
| HybridResolution.MaccEchoes | plugins/m2/hybridResolution.py:204-212 | one ECHO per MACC group |
| HybridResolution.ApplyMacc | plugins/m2/hybridResolution.py:204-213 | afterwards every follower flies reso9 with its leader in resoidint, every other aircraft keeps its row and targets, and one ECHO per group is stacked in order |
| HybridResolution.StartTargets | plugins/m2/hybridResolution.py:47-50 | each output starts as the resolution target where that channel is active and the autopilot value otherwise, one entry per aircraft |
| HybridResolution.ComposeResolve | plugins/m2/hybridResolution.py:80-213 | the second loop followed by the MACC loop gives the outcome resolve promises |
| HybridResolution.Resolve | plugins/m2/hybridResolution.py:39-216 | aircraft that neither resolve a pair nor follow in a MACC group keep their row and start targets; every resolving pair's intruder and every follower's leader is recorded, followers fly reso9, resoidint only grows, and the ECHOes of both loops are stacked in order |
| ResumeNav.HoveringPairRetention | plugins/m2/hybridResolution.py:312-317 | a pair of two hovering aircraft counts as past CPA, so it is kept exactly while the strategy's distance test and the vertical LOS both hold |
| ResumeNav.SpeedStrategyHeldWhileClose | plugins/m2/hybridResolution.py:277-278 | a pair resolved by RESO2 or RESO9 is kept, whatever the CPA, while it is within twice rpz horizontally and in vertical LOS |
| ResumeNav.PlainStrategyKeptUntilCpa | plugins/m2/hybridResolution.py:286-317 | without a strategy-specific rule a pair is kept exactly until its CPA is passed or both aircraft hover |
| ResumeNav.RemovedNameAsWritten | plugins/m2/hybridResolution.py:327-328 | the callsign removed as written is the intruder's whenever the intruder still exists |
| ResumeNav.RemovedName | plugins/m2/hybridResolution.py:327-328 | the corrected removal always names the pair's intruder |
| ResumeNav.DeletedIntruderRemovesBystander | plugins/m2/hybridResolution.py:235-328 | as written, dropping the pair (A1, B2) after B2 was deleted removes C3, the last aircraft, which is not part of the pair |
| ResumeNav.Without | plugins/m2/hybridResolution.py:327-328 | removing callsigns keeps exactly the others, and a list without duplicates stays without them |
| ResumeNav.WithoutStep | plugins/m2/hybridResolution.py:327-328 | one more removal with list.remove is filtering one more callsign out, given the list has no duplicates |
| ResumeNav.VisitStep | plugins/m2/hybridResolution.py:234-325 | visiting one more pair adds its ownship to the owners, to the kept owners when kept, and its intruder to the dropped names when not |
| ResumeNav.RetainedRowStep | plugins/m2/hybridResolution.py:323-328 | a dropped pair removes its intruder once from its ownship's resoidint and changes no other row |
| ResumeNav.DeletedStep | plugins/m2/hybridResolution.py:237-325 | a visited pair joins delpairs exactly when it is not kept |
| ResumeNav.ChangeActiveStep | plugins/m2/hybridResolution.py:317-323 | a visited pair sets its ownship's flag true when kept and otherwise keeps an earlier true mark, adding it false |
| ResumeNav.VisitResoPair | plugins/m2/hybridResolution.py:234-328 | one iteration leaves delpairs, changeactive and the rows as the definitions after one more pair |
| ResumeNav.ScanPairs | plugins/m2/hybridResolution.py:230-328 | the first loop deletes exactly the pairs not kept, builds changeactive and removes the dropped intruders, independent of the set's iteration order (with the intended RemovedName, see Findings) |
| ResumeNav.SetActive | plugins/m2/hybridResolution.py:334-339 | active takes changeactive's value for each of its keys and keeps its value elsewhere |
| ResumeNav.KeptPairs | plugins/m2/hybridResolution.py:331 | removing delpairs from resopairs leaves exactly the kept pairs |
| ResumeNav.OwnersExist | plugins/m2/hybridResolution.py:237-239 | every key of changeactive is an aircraft index |
| ResumeNav.RetainPairs | plugins/m2/hybridResolution.py:227-339 | the new conflicts join resopairs, only kept pairs remain, dropped intruders leave resoidint, and an ownship is active exactly when one of its pairs is kept (with the intended RemovedName, see Findings) |
| ResumeNav.RecoveryProbe | plugins/m2/hybridResolution.py:350-446 | a probe is consulted exactly when the aircraft has an active waypoint and one of the known strategies |
| ResumeNav.Recovery | plugins/m2/hybridResolution.py:350-460 | a cleared probe releases the resolution and leaves the autopilot alone; otherwise the row is kept; resoidint is never touched |
| ResumeNav.RecoveryCommands | plugins/m2/hybridResolution.py:393-403 | commands are issued exactly when RESO3, RESO6 or RESO7 clears with an active waypoint |
| ResumeNav.HeldAltitude | plugins/m2/hybridResolution.py:367-424 | a vertical strategy that cannot recover yet holds its resolution altitude as autopilot and selected altitude |
| ResumeNav.SpeedStrategyWaits | plugins/m2/hybridResolution.py:373-446 | RESO2 and RESO9 leave the autopilot alone during recovery |
| ResumeNav.RecoveryOfReleased | plugins/m2/hybridResolution.py:455-460 | a released row goes through recovery unchanged and silent |
| ResumeNav.NoWaypointReleases | plugins/m2/hybridResolution.py:455-460 | without an active waypoint the resolution is dropped at once and no command is issued |
| ResumeNav.RecoveryCmdsAreResumes | plugins/m2/hybridResolution.py:393-403 | with no aircraft flying RESO3, RESO6 or RESO7 the recovery loop issues no command |
| ResumeNav.RecoveredPointwise | plugins/m2/hybridResolution.py:342-460 | after n aircraft exactly the inactive ones among them have been recovered, each once, and every other aircraft is unchanged |
| ResumeNav.ReplaceRowKeepsNoDup | plugins/m2/hybridResolution.py:342-460 | recovery keeps every resoidint free of duplicates |
| ResumeNav.RecoverAll | plugins/m2/hybridResolution.py:342-460 | the third loop leaves the rows, autopilot targets and commands of the recovery of every inactive aircraft in index order |
| ResumeNav.ResumeNav | plugins/m2/hybridResolution.py:218-460 | the retention pass followed by the recovery of every aircraft left inactive, with the resulting pairs, flags, rows, autopilot targets and commands (with the intended RemovedName, see Findings) |
| HybridReso.HeldTargets | plugins/m2/hybridreso.py:388-422 | the write-back holds the resolution speed for RESO3, RESO6 and RESO7, the resolution vertical speed for those and RESO8, the resolution altitude (also as selected altitude) for RESO1, RESO3, RESO5, RESO6 and RESO7, and keeps every other target |
| HybridReso.HeldRoute | plugins/m2/hybridreso.py:388-422 | the held flight plan is still a valid plan with the same waypoint names |
| HybridReso.HeldWaypoint | plugins/m2/hybridreso.py:388-422 | RESO1 and RESO5 put the resolution altitude, RESO2, RESO5 and RESO9 the resolution speed, into the active waypoint only; every other waypoint and field is kept |
| HybridReso.HeldAps | plugins/m2/hybridreso.py:377-422 | one autopilot entry per aircraft after the second loop |
| HybridReso.HeldRoutes | plugins/m2/hybridreso.py:377-422 | the flight plans after the second loop keep their active waypoints |
| HybridReso.HoldStep | plugins/m2/hybridreso.py:377-422 | one more key sets its flag and, when it is active with an active waypoint, writes its targets back |
| HybridReso.HeldAll | plugins/m2/hybridreso.py:377-422 | after every key the targets are the write-back of each active ownship, and the flags those of changeactive |
| HybridReso.HoldOne | plugins/m2/hybridreso.py:382-422 | one key: its flag is set, and its autopilot targets and flight plan are written back exactly when it is active with an active waypoint |
| HybridReso.SetActiveAndHold | plugins/m2/hybridreso.py:377-422 | the second loop sets every flag from changeactive and leaves the write-back of every active ownship |
| HybridReso.Reso5FreesOnEither | plugins/m2/hybridreso.py:496-499 | RESO5 recovers as soon as either the descent probe or the recovery-speed probe is clear |
| HybridReso.ChannelsOff | plugins/m2/hybridreso.py:429-432 | the four channels are off while the strategy and resoidint are kept |
| HybridReso.RecoveredRow | plugins/m2/hybridreso.py:427-547 | after recovery the channels are off and resoidint is kept |
| HybridReso.RecoveredStrategy | plugins/m2/hybridreso.py:427-547 | the strategy becomes "None" unless the aircraft keeps its resolution, in which case it stays |
| HybridReso.RecoveredTargets | plugins/m2/hybridreso.py:447-543 | keeping holds what the write-back holds; a restore brings the saved flight plan back (RESO8 also its recovery vertical speed); otherwise nothing changes |
| HybridReso.RecoveryCommandsCases | plugins/m2/hybridreso.py:436-547 | no command without a waypoint or strategy; an unknown strategy and a held RESO5 fly direct to the active waypoint; a restore is silent only for RESO8, otherwise it commands the restored altitude, first the restored speed for RESO1, RESO2, RESO5 and RESO9 |
| HybridReso.RecoveryOfReleased | plugins/m2/hybridreso.py:546-547 | a released row goes through recovery unchanged and silent |
| HybridReso.QuietWithoutResolutions | plugins/m2/hybridreso.py:438 | aircraft with no active waypoint or no strategy issue no command |
| HybridReso.VisitStep | plugins/m2/hybridreso.py:427-547 | visiting aircraft n replaces its entries, and only them, by their recovered values |
| HybridReso.CmdsStep | plugins/m2/hybridreso.py:427-547 | the commands of aircraft n follow those before it, and an active aircraft adds none |
| HybridReso.InactiveIdle | plugins/m2/hybridreso.py:429-432 | after the loop every inactive aircraft has its four channels off |
| HybridReso.VisitRecovery | plugins/m2/hybridreso.py:427-547 | one aircraft of the third loop leaves the state and commands of one more visited aircraft |
| HybridReso.RecoverAll | plugins/m2/hybridreso.py:427-547 | the third loop recovers every inactive aircraft in index order and stacks their commands in that order |
| HybridReso.RetainAndHold | plugins/m2/hybridreso.py:259-422 | the retention pass with this copy's rules, then the flags of changeactive and the write-back of every active ownship (with the intended RemovedName, see Findings) |
| HybridReso.ResumeNav | plugins/m2/hybridreso.py:259-547 | resumenav of this copy: kept pairs, flags, rows, autopilot targets, flight plans and commands are those of the retention pass, the write-back and the recovery loop in turn (with the intended RemovedName, see Findings) |
| TimeFormat.GetSec | plugins/routingTactical.py:529-531 | a parsed clock string never gives a negative number of seconds; a string that does not split into three numbers has no value |
| TimeFormat.Pad2NoColon | plugins/routingTactical.py:1435 | a two-digit field holds no colon, so a formatted clock splits back into its three fields |
| TimeFormat.ClockSplit | plugins/routingTactical.py:1435 | splitting a formatted clock at ':' gives back its three padded fields |
| TimeFormat.GetSecClock | plugins/routingTactical.py:529-531 | get_sec reads back 3600 h + 60 m + s from any clock string with natural fields |
| TimeFormat.TimeToStrFields | plugins/routingTactical.py:1431-1435 | TimeToStr of a time rounding to t >= 0 has hours, then minutes and seconds below 60, adding back up to t, so get_sec gives t |
| TimeFormat.GetSecTimeToStr | plugins/routingTactical.py:1431-1435 | the round trip get_sec(TimeToStr(t)) == t for every whole t >= 0 |
| TimeFormat.GetSecGetMin | plugins/routingTactical.py:534-536 | get_sec(get_min(t)) is t modulo a day, and exactly t on 0 <= t < 86400 |
| TimeFormat.GetSecNeedsThreeFields | plugins/routingTactical.py:530 | a string that does not split into three fields has no value, where Python raises |
| Occupancy.MeetsIsOverlap | plugins/routingTactical.py:563-571 | for proper slots the five tests together are exactly the overlap of two half-open intervals |
| Occupancy.BackToBackFree | plugins/routingTactical.py:563-571 | a slot that ends where the other starts does not meet it, in either order |
| Occupancy.SlotsFree | plugins/routingTactical.py:559-574 | the for-else scan answers free exactly when no listed slot meets the request |
| Occupancy.SomeSlotsFree | plugins/routingTactical.py:587-600 | the edge scan answers free exactly when no listed slot other than None meets the request |
| Occupancy.NodeIsFreeCases | plugins/routingTactical.py:550-574 | a node is free exactly when its field is unset or no reserved slot meets the request, which for proper slots means no reserved slot overlaps it |
| Occupancy.EdgeIsFreeCases | plugins/routingTactical.py:577-600 | an edge is free exactly when its ends coincide, its field is unset or no listed slot meets the request |
| Occupancy.Reserve | plugins/routingTactical.py:1309-1331 | a reservation is appended after the slots already listed, or becomes the only slot of an unset field |
| Occupancy.ReservedNotFree | plugins/routingTactical.py:563-564 | once a slot is reserved on a node the same request is refused there |
| Occupancy.NodeIsFreeExact | plugins/m2/strategic_deconfliction/GaphOcupation_Script.py:68-77 | the prototype finds a node free exactly when its field is unset or the time is not listed |
| Occupancy.SlotsFreeExact | plugins/m2/strategic_deconfliction/GaphOcupation_Script.py:79-92 | the prototype's scan refuses only an exact repeat of the slot |
| Occupancy.EdgeIsFreeExact | plugins/m2/strategic_deconfliction/GaphOcupation_Script.py:79-92 | the prototype finds an edge free exactly when its ends coincide, its field is unset or the slot is not listed |
| Occupancy.RouterStricter | plugins/routingTactical.py:577-600 | every edge the router finds free the prototype finds free too |
| Occupancy.OverlapOnlyRouterRefuses | plugins/routingTactical.py:591 | the slot (0, 10) on an edge holding (5, 15) is free for the prototype but refused by the router |
| Routing.Ceil | plugins/routingTactical.py:614 | the ceiling n satisfies n - 1 < x <= n |
| Routing.TurnPenalty | plugins/routingTactical.py:618-650 | the penalty added at a turn node is 0, 3, 5 or 8 seconds |
| Routing.TravelTimeCases | plugins/routingTactical.py:603-657 | between two distinct nodes the time is None exactly on a geofenced street (length 9999.9) or at speed 0; otherwise it is the crossing time rounded up, plus 8, 5 or 3 s when the next street turns by an interior angle below the cutoff, by angle band |
| Routing.TravelTimeSameNode | plugins/routingTactical.py:604-606 | between a node and itself the time is the plan's departure time in seconds |
| Routing.DelayPending | plugins/routingTactical.py:793-803 | a plan comes back exactly when it is pending and its departure plus 30 s is at most 300 s; it is the same plan with its departure read back 30 s later |
| Turns.AbsR | plugins/routingTactical.py:1826 | the absolute value is non-negative and equal to the input or its negation |
| Turns.FoldRange | plugins/routingTactical.py:1826-1827 | the heading change of two bearings in [-180, 180] lies in [0, 180] and does not depend on their order |
| Turns.GetTurnArrays | plugins/routingTactical.py:1774-1855 | one entry per point: a point is a turn exactly when its heading change exceeds the cutoff, its speed is the table's for a turn and 0 otherwise, its coordinates are the point's for a turn and the sentinel otherwise, and the heading changes of the interior points are returned in order |
| Turns.Mark | plugins/routingTactical.py:1814-1850 | one pass of the loop marks point i exactly as that definition and keeps the points before it |
| Turns.TurnIndices | plugins/routingTactical.py:1739-1744 | the indices are exactly the positions of the set flags, strictly increasing, one per turn; they are Positions of the flags |
| Turns.NonZero | plugins/routingTactical.py:1730 | the filtered list is no longer than the input and holds no zero |
| Turns.Positions | plugins/routingTactical.py:1739-1744 | the positions of the set flags: one per set flag, each a set flag within the list |
| Turns.PositionsOrdered | plugins/routingTactical.py:1739-1744 | every set flag is listed, and the positions strictly increase |
| Turns.NonZeroAtPositions | plugins/routingTactical.py:1727-1744 | when the non-zero speeds are exactly those at set flags, the k-th filtered speed is the speed at the k-th set flag |
| Turns.OneSpeedPerTurn | plugins/routingTactical.py:1727-1744 | when a point has a non-zero speed exactly when it is a turn, there is one filtered speed per turn index |
| Turns.TurnTablesDisagree | plugins/routingTactical.py:338-348 | from 25 degrees on the two tables agree only on [100, 150): below 100 the arrays give 10 and the scenario 2, from 150 the arrays give 2 and the scenario 10 (never reached as written, see Findings) |
| Turns.Kept | plugins/routingTactical.py:324-327 | the kept interior angles are a sub-list of angles below 180 minus the cutoff (never reached as written, see Findings) |
| Turns.UnitaryTurnSpeeds | plugins/routingTactical.py:338-348 | one speed per kept angle, each taken from the scenario's table (never reached as written, see Findings) |
| FpEvaluation.LegSlot | plugins/routingTactical.py:1250-1258 | the street's slot starts at the previous checkpoint and lasts the travel time, plus the take-off time on the first street of the bottom layer |
| FpEvaluation.RecordStep | plugins/routingTactical.py:1261-1277 | recording a slot that is free on both nodes and on the street keeps every recorded slot free |
| FpEvaluation.WalkRecordsFree | plugins/routingTactical.py:1218-1304 | a walk that reaches the end of the route recorded only free slots on route nodes and layer streets; a refused walk names a street of the layer between route nodes |
| FpEvaluation.PreflightSlot | plugins/routingTactical.py:1177-1178 | the take-off slot at the first node starts at the departure and lasts 13 s |
| FpEvaluation.SameRouteDelays | plugins/routingTactical.py:1155-1157 | the same route as the previous attempt gives -1 and leaves the layer as it was |
| FpEvaluation.RetryMarksOneStreet | plugins/routingTactical.py:1283-1300 | a refused street gives 0 and changes only that street's weight, to the maximum; the street joins two route nodes |
| FpEvaluation.OccupancyOnlyGrows | plugins/routingTactical.py:1144-1339 | an evaluation never removes a reservation: every field is kept or gets one slot appended, the sets of nodes and streets stay, and only a route that fits appends |
| FpEvaluation.CommitAppends | plugins/routingTactical.py:1309-1331 | committing appends at most one slot to each field and keeps the nodes and streets |
| FpEvaluation.RoutedSlotsWereFree | plugins/routingTactical.py:1144-1339 | when the route fits, every appended slot was free before the evaluation, on a route node or a street between route nodes, and the weights are unchanged |
| FpEvaluation.Planner.constructor | plugins/routingTactical.py:381-400 | the planner starts with no marked streets and the given angle cutoff |
| FpEvaluation.Planner.WalkRoute | plugins/routingTactical.py:1216-1304 | the loop over the route gives the walk from its first node at the start time |
| FpEvaluation.Planner.FpEvaluations | plugins/routingTactical.py:1144-1339 | the verdict and layer of the evaluation; a refused street is appended to edges_pesoL and nothing else is |
| Prototype.TravelTimeAsWritten | plugins/m2/strategic_deconfliction/GaphOcupation_Script.py:94-101 | 0 between a node and itself; otherwise, for a known street at non-zero speed, the crossing time rounded up plus the given time |
| Prototype.ArrivalsAsWritten | plugins/m2/strategic_deconfliction/GaphOcupation_Script.py:129-159 | one checked time per route node |
| Prototype.Arrivals | plugins/m2/strategic_deconfliction/GaphOcupation_Script.py:129-159 | one arrival time per route node, as intended |
| Prototype.ArrivalsAsWrittenValue | plugins/m2/strategic_deconfliction/GaphOcupation_Script.py:129-135 | as written the first node is checked at 0 and node k at k times the departure plus the legs so far |
| Prototype.ArrivalsValue | plugins/m2/strategic_deconfliction/GaphOcupation_Script.py:129-135 | as intended node k is reached at the departure plus the legs so far, never before the departure |
| Prototype.DepartureAddedEveryStep | plugins/m2/strategic_deconfliction/GaphOcupation_Script.py:134 | for two 10 m streets at 10 m/s leaving at 100 s the script checks 0, 101 and 202 s where the nodes are reached at 100, 101 and 102 s |
| Prototype.WalkRecordsFree | plugins/m2/strategic_deconfliction/GaphOcupation_Script.py:132-159 | a walk that ends recorded only free times and slots; a refusal names a street between route nodes |
| Prototype.RefusedMarksOneStreet | plugins/m2/strategic_deconfliction/GaphOcupation_Script.py:146-156 | a refused plan leaves the occupancy and the plan unchanged and raises one street's weight, between route nodes, to the maximum |
| Prototype.ApprovedAppendsFree | plugins/m2/strategic_deconfliction/GaphOcupation_Script.py:164-184 | an approved plan is marked APPROVED, keeps the weights, and every field gains at most one entry that was free before |
| Prototype.Script.constructor | plugins/m2/strategic_deconfliction/GaphOcupation_Script.py:192-198 | the script starts from the given frames |
| Prototype.Script.FpEvaluations | plugins/m2/strategic_deconfliction/GaphOcupation_Script.py:117-186 | the frames, the code and the plan row are those of the evaluation (with the intended arrival times, see Findings) |
| Prototype.Script.GetPaths | plugins/m2/strategic_deconfliction/GaphOcupation_Script.py:103-115 | when no evaluation raises there is one result per plan, and every plan after the first ends planned (with the intended arrival times, see Findings) |
| PathPoints.Flatten | plugins/routingTactical.py:1701-1717 | the points are read street after street |
| PathPoints.KeptAsWritten | plugins/routingTactical.py:1711-1717 | the list as written is no longer than the points read |
| PathPoints.Kept | plugins/routingTactical.py:1711-1717 | the list as intended is no longer than the points read |
| PathPoints.KeptLast | plugins/routingTactical.py:1711-1717 | the last kept point is the last point read, unless every point is at the origin and nothing was kept |
| PathPoints.KeptProperties | plugins/routingTactical.py:1711-1717 | as intended no point appears twice in a row, only points of the geometry are kept, and none is lost except points at the origin |
| PathPoints.SameLatitudeDropped | plugins/routingTactical.py:1711 | an east-west street's second point is dropped as written and kept as intended |
| PathPoints.KeptAsWrittenBothDiffer | plugins/routingTactical.py:1711 | as written every kept point differs in both coordinates from the point read before it |
| PathPoints.KeptStep | plugins/routingTactical.py:1711-1717 | one more point is kept exactly when it differs from the point read before it |
| PathPoints.RoutePoints | plugins/routingTactical.py:1701-1717 | the two loops return the intended kept points as equal-length latitude and longitude lists (see Findings) |
| PathPoints.ReadStreet | plugins/routingTactical.py:1707-1717 | the inner loop lists the kept points after one more street and remembers its last point (see Findings) |
| PathPoints.TurnIndex | plugins/m2/nodesToCommands_v2.py:125-137 | a turn node's index is its first position among the kept points, or 9999 when it is not there |
| PathPoints.FirstIndex | plugins/m2/nodesToCommands_v2.py:132 | the first position of a point that occurs |
| PathPoints.TurnBool | plugins/m2/nodesToCommands_v2.py:140-147 | one flag per kept point, set exactly at the turn indices |
| RoutePlanner.Oriented | plugins/m2/nodesToCommands_v2.py:44-50 | a street is looked up in its stored direction when listed and in the reverse direction otherwise; the result is always one of the two directions |
| RoutePlanner.Reverse | plugins/m2/nodesToCommands_v2.py:59-62 | reversing a line keeps its length and puts point k at position length - 1 - k |
| RoutePlanner.StreetGeometry | plugins/m2/nodesToCommands_v2.py:54-62 | a street's line exists exactly when the street, its first node's position and a non-empty stored line exist; it is the stored line or its reversal, and it starts at the first node unless it was reversed |
| RoutePlanner.GeometriesMeaning | plugins/m2/nodesToCommands_v2.py:41-65 | the street lines of a route come back exactly when every leg's line does, one per leg, in route order |
| RoutePlanner.GeometriesNoneStays | plugins/m2/nodesToCommands_v2.py:41-65 | once one leg raises, every longer prefix of the route raises too |
| RoutePlanner.StreetGeometries | plugins/m2/nodesToCommands_v2.py:41-65 | the loop over the legs gives the lines of every leg, or nothing when one raises |
| RoutePlanner.InteriorAngle | plugins/m2/nodesToCommands_v2.py:74-80 | an interior angle exists exactly when the current street has a table holding the next street in one of its two directions; the direct entry wins when present |
| RoutePlanner.TurnNodesMeaning | plugins/m2/nodesToCommands_v2.py:68-98 | the angle list comes back exactly when every interior angle can be looked up; it then holds those angles in route order and there are at most as many turn nodes as angles |
| RoutePlanner.TurnNodesMembers | plugins/m2/nodesToCommands_v2.py:83-96 | a node is a turn node exactly when it is the stored second node of a street whose angle to the next street is below 180 - cutoff |
| RoutePlanner.TurnNodesNoneStays | plugins/m2/nodesToCommands_v2.py:68-98 | once one angle lookup raises, every longer prefix raises too |
| RoutePlanner.TurnNodes | plugins/m2/nodesToCommands_v2.py:68-98 | the loop over consecutive streets gives the turn nodes and the angle list, or nothing when a lookup raises |
| RoutePlanner.TurnNodeIndices | plugins/m2/nodesToCommands_v2.py:125-137 | the index list exists exactly when every turn node has a position; each index is the first kept point at that position, or 9999 when none is |
| RoutePlanner.Zip | plugins/routingTactical.py:1701-1717 | the latitude and longitude lists pair up into the kept (lon, lat) points, one pair per point |
| RoutePlanner.FlagsAtFirstOccurrence | plugins/m2/nodesToCommands_v2.py:140-147 | a flag set from the turn indices marks exactly the waypoints that are the first occurrence of a turn node's position |
| RoutePlanner.RouteWaypoints | plugins/m2/nodesToCommands_v2.py:38-149 | route gives the kept points of the oriented street lines as latitudes and longitudes, the interior angles, and flags that mark exactly the first occurrence of each turn node; it succeeds whenever every line, angle and turn-node position exists (the intended Kept, see Findings) |
| RoutePlanner.RouteTactical | plugins/routingTactical.py:1606-1772 | the router's route succeeds exactly when every line exists and some point is kept (the intended Kept, see Findings); the flags are the turns get_turn_arrays finds in the points, the indices are the flagged positions in increasing order, the k-th turn speed is the table speed (10, 5 or 2) of the k-th turn's heading change, and the k-th angle is the heading change at interior point k + 1 |
| RoutePlanner.NonZeroAreTurnSpeeds | plugins/routingTactical.py:1727-1730 | after dropping the zeros from get_turn_arrays' speeds, every speed left is one of 10, 5 and 2 |
| RoutePlanner.NonZeroFrom | plugins/routingTactical.py:1730 | every speed the zero filter keeps was in the list it filtered |
| RoutePlanner.TurnSpeedsAtTurns | plugins/routingTactical.py:1727-1744 | the zero-filtered speeds of get_turn_arrays are one per turn, in route order, each the table speed of that turn's heading change |
| RoutePlanner.RouteReturn | plugins/routingTactical.py:1772 | route returns seven values, the last the angle cutoff 25 |
| RoutePlanner.Unpack | plugins/routingTactical.py:250 | tuple assignment succeeds exactly when there are as many names as values, and then binds them in order |
| RoutePlanner.RouteCall | plugins/routingTactical.py:1605-1606 | `route` under `logger.catch` gives its seven values exactly when the planner holds its graph, and None otherwise |
| RoutePlanner.UnpackResult | plugins/routingTactical.py:250 | a tuple assignment succeeds only from a result that exists and has exactly as many values as names |
| RoutePlanner.UnitaryUnpackAsWritten | plugins/routingTactical.py:244-250 | as written, the planner constructor call does not bind, so the planner has no graph, `route` gives None and the unpack at line 250 fails for every route; even a working planner's seven values fail against six names and succeed against seven; the Dict2Scn call of line 373 does not bind either |
| RoutePlanner.UnitaryInputsIntended | plugins/routingTactical.py:244-250 | as intended, with the planner built from the graph and seven names, the turn flags, turn indices, turn speeds, interior angles and the cutoff 25 each land on the name that means them |
| Scenario.CruiseSpeed | plugins/m2/nodesToCommands_v2.py:162-168 | an MP30 cruises at 30 kts; an MP20 and every other vehicle type at 20 kts |
| Scenario.TurnsBefore | plugins/m2/nodesToCommands_v2.py:207-221 | the number of turn angles used before waypoint n is at most n |
| Scenario.TurnSpeedInTable | plugins/m2/nodesToCommands_v2.py:214-221 | the turn speed the waypoint loop writes is always 10, 5 or 2 kts |
| Scenario.WaypointsV2Meaning | plugins/m2/nodesToCommands_v2.py:195-241 | the waypoint loop succeeds exactly when there are no more interior turns than angles; it then writes one waypoint per point, each as stated point by point, having used one angle per turn |
| Scenario.WaypointKinds | plugins/m2/nodesToCommands_v2.py:207-235 | each waypoint carries its point's position and altitude; the last point (of two or more) is the only fly-over, an interior turn the only turn-speed point, with a table speed; speed 0 exactly at the ends and at interior non-turns repeating the previous or the next point |
| Scenario.WaypointsV2NoneStays | plugins/m2/nodesToCommands_v2.py:207-221 | once the angles run out at some waypoint, every longer prefix fails too |
| Scenario.WaypointLoopV2 | plugins/m2/nodesToCommands_v2.py:195-241 | the loop's result is the waypoint list the loop's specification gives, and it fails exactly when that does |
| Scenario.ScenarioV2Shape | plugins/m2/nodesToCommands_v2.py:157-245 | a scenario exists exactly for two points or more and no more turns than angles: eight lines at the start time, a blank line before the first, the creation at the first point heading for the second at the first altitude, the altitude of the middle point, and one waypoint per point |
| Scenario.Drone2ScnV2 | plugins/m2/nodesToCommands_v2.py:157-245 | the scenario maker's Drone2Scn gives exactly the lines its specification describes |
| Scenario.ScenarioMaker.constructor | plugins/m2/nodesToCommands_v2.py:334-388 | a new maker has not written the header yet |
| Scenario.ScenarioMaker.Dict2Scn | plugins/m2/nodesToCommands_v2.py:334-388 | Dict2Scn writes only the first drone's scenario; an empty dictionary, a missing key or a failed scenario gives nothing and leaves the header flag alone; otherwise the three header lines go first exactly when no header was written before, and the flag is then set |
| Scenario.HeaderOnlyOnce | plugins/m2/nodesToCommands_v2.py:378-386 | of two scenarios from one new maker, the first carries the header before its creation line and the second starts right at its creation line |
| Scenario.Trunc | plugins/routingTactical.py:1383 | int() of a float truncates toward zero: below or at the value for a non-negative one, above or at it for a negative one, within one |
| Scenario.WaypointsTacticalMeaning | plugins/routingTactical.py:1398-1426 | the router's waypoint loop succeeds exactly when there are no more interior turns than turn speeds; it then writes one waypoint per point after the first, each as stated point by point |
| Scenario.SameWaypointsAfterFirst | plugins/routingTactical.py:1401-1421 | the router's and the scenario maker's loops write the same waypoint for every point after the first when the router's turn speeds are the speeds the maker's table reaches |
| Scenario.WaypointsTacticalNoneStays | plugins/routingTactical.py:1406-1411 | once the turn speeds run out at some waypoint, every longer prefix fails too |
| Scenario.WaypointLoopTactical | plugins/routingTactical.py:1398-1426 | the loop's result is the waypoint list its specification gives, and it fails exactly when that does |
| Scenario.ScenarioTacticalShape | plugins/routingTactical.py:1348-1428 | a router scenario exists exactly for three points or more and no more turns than turn speeds: three lines at the start time, the turn indices as given, each turn speed truncated, and one waypoint per point after the first |
| Scenario.Drone2ScnTactical | plugins/routingTactical.py:1348-1428 | the router's Drone2Scn gives exactly the lines its specification describes |
| Scenario.Last4 | plugins/routingTactical.py:1550 | the last four characters of a path, or the whole path when shorter |
| Scenario.ScnPathProperties | plugins/routingTactical.py:1550-1551 | the file name always ends in .scn, the given path is its prefix, it is unchanged exactly when it already ends in .scn, and naming it twice changes nothing |
| Scenario.Dict2ScnTacticalWrites | plugins/routingTactical.py:1521-1578 | the router's Dict2Scn writes something exactly when the dictionary's first drone has every key and a scenario; it then goes to a .scn file and starts with the drone's SETTURNS line |
| Reroute.FirstLayerNamed | plugins/m2/tactical_rerouting.py:96 | the index found is the first layer carrying the name; there is none exactly when no layer carries it |
| Reroute.Positions | plugins/m2/tactical_rerouting.py:94-95 | the positions exist exactly when every path node is in the node table; they are then the nodes' positions in path order |
| Reroute.MakePlanCases | plugins/m2/tactical_rerouting.py:86-101 | a plan exists exactly when the route has a waypoint, a path to its destination exists, every path node has a position and a reso_0 layer exists; it then holds the path nodes' positions in order, the first reso_0 layer's upper altitude in feet, and the type's maximum speed in knots, or 12.8611 m/s in knots for an unknown type |
| Reroute.AddWpts | plugins/m2/tactical_rerouting.py:108-109 | one ADDWPT command per path node taken |
| Reroute.AddWptsAt | plugins/m2/tactical_rerouting.py:108-109 | the k-th ADDWPT command is the k-th path node's, latitude first, at the plan's altitude and speed |
| Reroute.RerouteCmdsShape | plugins/m2/tactical_rerouting.py:105-110 | for n path nodes the reroute stacks n + 4 commands: DELRTE, SPD 0, ALT, one ADDWPT per node in path order at one altitude and speed, then the speed command at that altitude; all name the aircraft |
| Reroute.TacticalReroute.StackPlan | plugins/m2/tactical_rerouting.py:105-110 | the stack grows by exactly the plan's commands, in order |
| Reroute.TacticalReroute.Reroute | plugins/m2/tactical_rerouting.py:84-111 | when a plan exists the stack grows by its commands and the answer is (True, "<id> has a new route"); when a lookup fails nothing is stacked and there is no answer |
| ScenarioTranslator.ReplacePair | scenario_translator.py:66-67 | replacing a coordinate pair succeeds exactly when the pair translates; the two tokens become the translated pair and every other token stays |
| ScenarioTranslator.CreTokens | scenario_translator.py:58-61 | a CRE command translates exactly when it has five tokens and its latitude and longitude translate; tokens 3 and 4 become the translation and nothing else changes |
| ScenarioTranslator.TranslatedBelowSome | scenario_translator.py:79-87 | the pairs formed among the first m tokens (positions 2 and 3 mod 6) all translate exactly when the walk over them succeeds |
| ScenarioTranslator.TranslatedBelowKept | scenario_translator.py:79-87 | every token outside those pairs is kept |
| ScenarioTranslator.TranslatedBelowPairs | scenario_translator.py:79-87 | each of those pairs is replaced by its own translation |
| ScenarioTranslator.TranslatedBelowSpaceless | scenario_translator.py:79-87 | spaceless tokens stay spaceless when the translation writes no space |
| ScenarioTranslator.AddWaypointsTokensMeaning | scenario_translator.py:74-87 | an ADDWAYPOINTS command translates exactly when no latitude lacks its longitude and every pair translates; every latitude and the longitude after it are translated and nothing else changes |
| ScenarioTranslator.CmdTokens | scenario_translator.py:55-87 | an unlisted command keeps its tokens; a translated command keeps its length and name; an ATDIST translates its coordinates, keeps the identifier and distance, and translates its nested command in turn (the nested command kept whole, see Findings) |
| ScenarioTranslator.CmdTranslator | scenario_translator.py:42-91 | an unlisted command comes back as its own token list; a listed one comes back as joined text exactly when its tokens translate (the nested command kept whole, see Findings) |
| ScenarioTranslator.TranslatorRoundTrip | scenario_translator.py:62-89 | splitting a translated command at its spaces gives back its translated tokens |
| ScenarioTranslator.NestedCommandKept | scenario_translator.py:64-72 | a translated ATDIST command is its first five translated tokens, a space, and the text of its translated nested command |
| ScenarioTranslator.CmdTranslatorAsWritten | scenario_translator.py:64-72 | as written, the translator succeeds exactly when the corrected one does, agrees with it unless an ATDIST nests a listed command, and always starts with the command name |
| ScenarioTranslator.NestedCommandSpliced | scenario_translator.py:70 | as written, an ATDIST whose nested command is CRE, ADDWAYPOINTS or ATDIST comes out with a space right after the nested command's first character, so it differs from the intended text |
| ScenarioTranslator.StampLength | scenario_translator.py:104-105 | the time stamp is the first nine characters, or the whole line when it is shorter |
| ScenarioTranslator.TranslateLine | scenario_translator.py:103-114 | a translated line keeps its time stamp; a line whose command is not listed is kept as it is (the nested command kept whole, see Findings) |
| ScenarioTranslator.TranslateLineTokens | scenario_translator.py:104-114 | a line translates exactly when its command's tokens do, and it is then its time stamp followed by those translated tokens (the nested command kept whole, see Findings) |
| ScenarioTranslator.TranslateScenario | scenario_translator.py:102-114 | the loop gives one translated line per input line, in order, or nothing when a line fails (the nested command kept whole, see Findings) |
| Traffic.ArgMax | plugins/m2/tactical_rerouting.py:88 | np.argmax over the waypoint names picks an index of a greatest name under Python's string order, the first such index |
| Traffic.IdIndexFirst | plugins/m2/hybridResolution.py:59 | looking up a callsign finds the first aircraft carrying it, and -1 means no aircraft carries it |
| Traffic.IdIndexOwn | plugins/m2/hybridResolution.py:235 | with unique callsigns, looking up aircraft k's own callsign gives k back |
| HybridResolution.Survivor | plugins/m2/hybridResolution.py:67-72 | the highest-priority candidate of a group is always the ownship or one of its intruders |
| HybridConfdetect.RemoveFirstAfter | plugins/m2/hybridConfdetect.py:126 | list.remove deletes exactly the first occurrence of the pair and keeps the rest in order |
| ScenarioTranslator.AsWrittenSplices | scenario_translator.py:70 | as written, the translated nested command of an ATDIST is spliced into the token list one character per token before the join |
| PyText.Round | plugins/routingTactical.py:1432 | round() gives an integer within one half of the time, the even one on a tie |
| PyText.JoinSplit | scenario_translator.py:106-114 | joining the split of a command at its spaces gives the command back unchanged |
| PyText.SplitJoin | scenario_translator.py:62 | splitting a join of spaceless tokens at the separator gives the tokens back |
| PyText.Pad2Value | plugins/routingTactical.py:1435 | a two-digit field written by TimeToStr reads back as its number |

## Left out

- Geodesy and projections are not modelled; their results are inputs of the operations. This covers `qdrdist`, `kwikdist`, `kwikqdrdist`, `kwikpos` and the flat-earth CPA geometry of `resumenav`. It also covers `translate_data` of `scenario_translator.py`, which is a parameter that returns a translated pair or `None`.
- Foreign library calls are parameters:
  - osmnx `shortest_path` and `nearest_nodes`;
  - shapely `nearest_points`, `intersects` and `contains` on the geofence multipolygon;
  - `conflictProbe`, `findact` and the `argsort` order of the conflict pairs;
  - the aircraft performance table (`v_max`).
- GeoDataFrame lookups (`.loc`) are maps. A missing key raises in Python and gives `None` here.
- Occupation fields are modelled as already-parsed slot lists; the `eval` of their text is not modelled.
- Floating-point arithmetic is not modelled. Speeds, altitudes and coordinates are reals. The router's `normal_round(x, 6)` of coordinates is not modelled: the node positions are taken as already rounded. The float32 storage of coordinates is not modelled either.
- The decimal text of numbers inside stacked commands and scenario lines is not modelled. Commands and scenario lines are structured values. The ZOOM, PAN and CASMACHTHR header lines are constants of the same kind.
- File I/O is not modelled:
  - the strategic router's `Dict2Scn` is modelled as the file name plus the lines it appends;
  - the translator's read of the scenario, the write of its `_translated.scn` copy and the output file name are not modelled;
  - `loadGraphData`, `loadFPlansData` and `sortSCNFinal` are not part of this model.
- The ETA difference that `setSpeed` reacts to is an input. `etacheck.py` and `speedcheck.py` are not part of this model.
- The strategic router's plan loop around `fp_evaluations` is not modelled: `get_paths`, `elevatorNodes` and their retry counters, which read and write dataframes and files.
- Prototype.Script.GetPaths: the retry loop of the prototype script is bounded by a `fuel` argument. A plan still refused after that many attempts is reported as refused, where the script would keep trying.
- PyText.ParseNat: `int()` is modelled only on unsigned decimal literals. A sign, surrounding blanks or underscores, which Python accepts, give `None`.
- Callsigns are assumed to have the 'letter + digits' form. The `ValueError` that `int(id[1:])` raises on any other callsign is not modelled.
- The `IndexError` of `np.where(layernames == name)[0][0]` when an aircraft's layer is missing is not modelled: an aircraft's layer is held as an index into the layer table.
- The `np.array([gseast], gsnorth)` lines of `hybridreso.py` are not modelled as written; numpy rejects them. The model uses the two-component velocity vectors they are meant to build, as in `resostrategies.py`.
- `np.squeeze(MACC)` on ragged groups is modelled as membership in the union of the groups.
- The `zip` in both `Drone2Scn` loops stops at the shortest list. The model asks for latitudes, longitudes, altitudes and turn flags of equal length; `route` always produces them so.
- Slice assignment on the translator's token list is modelled on values: the list is a fresh local, so no aliasing is lost.
- `TimeToStr` of `nodesToCommands_v2.py:247-251` and `get_sec` of `GaphOcupation_Script.py:56-59` compute the same thing as the router's `TimeToStr` and `get_sec`. TimeFormat models them once.
- ResoStrategies.Reso1: requires a layer above the aircraft's own. The IndexError the source raises for an aircraft in the top layer is not modelled.
- ResoStrategies.Reso5: requires a layer above, as Reso1; the top-layer IndexError is not modelled.
- ResoStrategies.Reso6: requires a layer above, as Reso1; the top-layer IndexError is not modelled.
- HybridResolution.Reso5: requires a layer above, as ResoStrategies.Reso5; the top-layer IndexError is not modelled.
- HybridResoSetters.Reso5: requires a layer above, as ResoStrategies.Reso5; the top-layer IndexError is not modelled.
- HybridResolution.ResolvePair: requires a layer above every aircraft (LayerAboveExists). The source reads the layer above only for an ownship that runs reso1, reso5, reso6 or a hovering reso9, and raises IndexError for one in the top layer; that case is not modelled.
- HybridResolution.ResolveAgainst: requires LayerAboveExists, as ResolvePair.
- HybridResolution.VisitPair: requires LayerAboveExists, as ResolvePair.
- HybridResolution.ResolvePairs: requires LayerAboveExists, as ResolvePair.
- HybridResolution.ApplyGroup: requires LayerAboveExists, as ResolvePair.
- HybridResolution.VisitGroup: requires LayerAboveExists, as ResolvePair.
- HybridResolution.ApplyMacc: requires LayerAboveExists, as ResolvePair.
- HybridResolution.Resolve: requires LayerAboveExists, as ResolvePair.
- HybridReso.VisitRecovery: requires a saved plan (`preresoroute`) that covers the active waypoint of every aircraft (PreResoCovers). The source reads the saved plan only when it restores an aircraft, and raises IndexError when that plan is too short; that case is not modelled.
- HybridReso.RecoverAll: requires PreResoCovers, as VisitRecovery.
- HybridReso.ResumeNav: requires PreResoCovers, as VisitRecovery.
- ResumeNav.Climbing: a route without waypoints counts as descending. The source's `wpalt[iwpid]` raises IndexError there.
- HybridConfdetect.FilterPairs: the intent of every aircraft is given as a target altitude and intent lines. The TypeError the source raises when an aircraft's intent is still `None` is not modelled.
- Stack.Direct: `route.direct()` is a call on the route object, not a stack command. It is modelled as a command in the stacked list so that its order among the commands is kept.
- Turns.GetTurnArrays: requires at least one point. The source raises IndexError on an empty list; RouteTactical returns `None` before calling it.
- ResumeNav.ScanPairs: models the intended RemovedName, not the `traf.id[-1]` of the source (see Findings).
- ResumeNav.RetainPairs: models the intended RemovedName (see Findings).
- ResumeNav.ResumeNav: models the intended RemovedName (see Findings).
- HybridReso.RetainAndHold: models the intended RemovedName (see Findings).
- HybridReso.ResumeNav: models the intended RemovedName (see Findings).
- Prototype.Walk: checks node k at the intended arrival time, not at k times the departure (see Findings).
- Prototype.Evaluate: uses the intended arrival times, as Walk.
- Prototype.Script.FpEvaluations: uses the intended arrival times, as Walk.
- Prototype.Script.GetPaths: uses the intended arrival times, as Walk.
- RoutePlanner.RouteWaypoints: keeps the points of the intended Kept, not the both-coordinates test of the source (see Findings).
- RoutePlanner.RouteTactical: keeps the points of the intended Kept, as RouteWaypoints.
- Turns.Kept: the unitary scenario builder's angle filter, which is never reached as written (see Findings). It is modelled as intended.
- Turns.UnitaryTurnSpeeds: never reached as written, as Turns.Kept.
- Turns.TurnTablesDisagree: compares a table that is never reached as written, as Turns.Kept.
- Scenario.Dict2ScnTacticalWrites: the router's `Dict2Scn` is called only from `buildScenarioUnitary`, which raises before the call, so it is never reached as written (see Findings). It is modelled as its own code reads.
- Scenario.Drone2ScnTactical: reached only through the router's `Dict2Scn`, as Scenario.Dict2ScnTacticalWrites.
- Scenario.ScenarioTacticalShape: never reached as written, as Scenario.Drone2ScnTactical.
- Scenario.WaypointLoopTactical: never reached as written, as Scenario.Drone2ScnTactical.
- CentralisedSpd.NavTimedMask: models the element-wise type test the code evidently means; as written every selected aircraft gets 30 (see Findings).
- ScenarioTranslator.CmdTokens: keeps a nested ATDIST command as its translated tokens, as intended; line 70 splices its characters (see Findings).
- ScenarioTranslator.CmdTranslator: puts a nested ATDIST command in whole, as intended, where the code splices it (see Findings).
- ScenarioTranslator.TranslateLine: uses the intended nested command of CmdTranslator (see Findings).
- ScenarioTranslator.TranslateLineTokens: ties lines to the intended CmdTokens (see Findings).
- ScenarioTranslator.TranslateScenario: translates each line with the intended TranslateLine, so an ATDIST line nesting a listed command is not the script's output (see Findings).
- Concurrency, network clients, UI and the other plugins of the repository are not part of this model.

## Findings

| source | as written | input that shows it | evidently intended | confidence | as-written member | corrected member |
|---|---|---|---|---|---|---|
| plugins/m2/hybridResolution.py:327-328 | a dropped pair whose intruder was deleted (`idx2 == -1`) removes `traf.id[-1]` from the ownship's `resoidint`, which is the callsign of the last aircraft | aircraft [A1, C3]; pair (A1, B2) after B2 was deleted: C3 is removed and B2 stays | remove the intruder's own callsign | not executed | ResumeNav.DeletedIntruderRemovesBystander | ResumeNav.RemovedName |
| plugins/m2/checkState.py:111-112 | `update` calls `overshootcheck.calc_dist` as a module function, which does not exist, so every update of a non-empty traffic stops with AttributeError after the first geofence check | any traffic with one aircraft | run the overshoot and descent checks of the plugin instances for every aircraft | not executed | CheckState.Checks.UpdateAsWritten | CheckState.Checks.Update |
| plugins/m2/strategic_deconfliction/GaphOcupation_Script.py:134 | the timestamp passed to `travel_time` adds `departure_time` again at every node, so node k is checked at k times the departure plus the legs | departure 100 s, two streets of 1 s: nodes checked at 0, 101 and 202 s instead of 100, 101 and 102 s | check each node at departure plus the legs so far | not executed | Prototype.DepartureAddedEveryStep | Prototype.ArrivalsValue |
| plugins/routingTactical.py:1711 | `if lon != last_lon and lat != last_lat` keeps a point only when both coordinates change, so a point that shares its latitude with the previous one is dropped | a street from (1.0, 5.0) to (2.0, 5.0) loses its second point | drop only a point equal to the previous one | not executed | PathPoints.SameLatitudeDropped | PathPoints.KeptProperties |
| plugins/m2/nodesToCommands_v2.py:116 | the same test as the router's: a point is kept only when both coordinates change | a street from (1.0, 5.0) to (2.0, 5.0) loses its second point | drop only a point equal to the previous one | not executed | PathPoints.SameLatitudeDropped | PathPoints.KeptProperties |
| scenario_translator.py:70 | `cmd_split[5:] = cmd_translator(cmd_split[5:])` splices the translated nested command, a string, into the token list one character per token | `ATDIST D1 52.1 4.3 1.5 CRE D2 M600 52.2 4.4 90 100 30` comes out with the nested command's characters separated by spaces (`C R E ...`) | keep the nested command's text as one piece | not executed | ScenarioTranslator.NestedCommandSpliced | ScenarioTranslator.NestedCommandKept |
| plugins/routingTactical.py:244-250 | line 244 passes three positional arguments to `PathPlanner(G, angle_cutoff=25)` (line 1585); the constructor's `logger.catch` swallows the TypeError, so the planner has no graph, `route` (also under `logger.catch`) returns None, and line 250 raises TypeError unpacking it, which the builder's own `logger.catch` swallows. Even with a working planner, line 250 binds the seven values `route` returns (line 1772) to six names, and line 373 passes nine arguments to the eight-parameter `Dict2Scn` of line 1521, so the turn table at lines 324-348 and that `Dict2Scn` call are never reached | any route | build the planner from the graph alone, bind seven names in `route`'s order and pass the eight arguments `Dict2Scn` takes | not executed | RoutePlanner.UnitaryUnpackAsWritten | RoutePlanner.UnitaryInputsIntended |
| plugins/M2CentralisedSpd.py:46 | `np.where(bs.traf.type == 'MP20', 20, 30)` compares BlueSky's list of aircraft types with one string, which is the single value False (the list type of `traf.type` is BlueSky's own declaration, not part of this model), so every aircraft the mask selects gets 30, an MP20 included | one MP20 flying level and straight on LNAV at selected speed 10 gets 30 | compare the types element-wise, so an MP20 gets 20 and any other type 30 | not executed | CentralisedSpd.MP20GetsThirtyAsWritten | CentralisedSpd.NavTimedMask |
