# Green corridor emergency routing — a Dafny model

This project models the decision logic of an emergency-vehicle routing study built on
the SUMO traffic simulator. An ambulance is routed through a city network by three
routers, and each run is measured:

- an **adaptive weighted A\*** router. Its edge cost `w_d * distance + w_t * time`
  shifts the weights toward time as the trip progresses, as the emergency gets more
  severe, and during rush hour;
- a **fixed-weight A\*** baseline (0.6 / 0.4);
- a **distance-only Dijkstra** baseline.

During the adaptive run, a **traffic-signal preemption** controller forces a green phase
for the ambulance's link at the next signal. It also detects a vehicle stuck at a signal,
restores the original program with a cooldown, and marks a signal as gridlocked after
too many fallbacks. The run loops detect arrival and count crossed or preempted
signals. The remaining modules model:

- the experiment batch runner: its argument parsing, algorithm filter, experiment
  count and run order;
- the result analyzer: the success filter, the grouping, the comparisons and the
  effect-size labels;
- the utilities: configuration validators, bounding-box extraction, the traffic-light
  program fixer, and background-traffic generation.

Every simulator query (TraCI and sumolib) becomes an input:

- an oracle function for the network (`outgoing`, the road distance, the edge speed);
- one observation record per tick of a run;
- an `Option`, a flag or a fault record for each raising query the model covers (listed under "Left out").

Python floats are `real`, and `float("inf")` is the `Inf` case of `Common.Cost`. The
hour of day, which the engine reads from the clock, is a parameter.

Modules, one file each:

| file | module | models |
|---|---|---|
| `common.dfy` | `Common` | costs with infinity, first strict minimum |
| `text.dfy` | `Text` | `str.find`, `in`, `split`, decimal rendering |
| `config.dfy` | `Config` | `src/utils/config.py` |
| `adaptive_weights.dfy` | `AdaptiveWeights` | the weight engine of `get_adaptive_weights` |
| `adaptive_routing.dfy` | `AdaptiveRouting` | `RouteContext`, the router's cost functions, `find_next_edge`, `create_route` |
| `signal_preemption.dfy` | `SignalPreemption` | `TrafficLightController.preempt_traffic_lights` |
| `simulation_monitor.dfy` | `SimulationMonitor` | the per-tick bookkeeping of the three run loops |
| `baseline_routing.dfy` | `BaselineRouting` | `create_route_fixed_astar`, `create_route_dijkstra` |
| `fix_traffic_lights.dfy` | `FixTrafficLights` | `src/utils/fix_traffic_lights.py` |
| `extract_bbox.dfy` | `ExtractBbox` | `src/utils/extract_bbox.py` |
| `generate_traffic.dfy` | `GenerateTraffic` | `src/utils/generate_traffic.py` |
| `batch_runner.dfy` | `BatchRunner` | `src/experiments/batch_runner.py` |
| `analyzer.dfy` | `Analyzer` | `src/experiments/analyzer.py` |

Imperative code keeps its imperative form, and each such method is proved equal to a
pure specification function about which the lemmas are stated:

- The preemption controller is a class holding the five registries. `PreemptTrafficLights`
  is proved against the function `Step`.
- The router owns a `RouteContext` object. Its cost methods append to the weight history
  and overwrite the distance travelled, and they are proved against `CalcCost`,
  `HeuristicCost`, `Evaluate` and `NextEdge`.
- The run loops, the greedy walks, the phase scan, the fixer (in place over an array),
  the route parser and the batch loops are `while` loops with invariants.

## Model

| member | source | states |
|---|---|---|
| `Common.FirstMinIndex` | src/algorithms/adaptive_astar.py:309-316 | the index a "keep the first strictly smaller cost" scan settles on: None iff every cost is infinite, otherwise a finite cost strictly below all earlier ones and not beaten by any later one |
| `Common.FirstMinIndexStep` | src/algorithms/adaptive_astar.py:312-316 | scanning one more cost moves the chosen index to it exactly when it is strictly below the current minimum |
| `Common.BelowIsStrictOrder` | src/algorithms/adaptive_astar.py:312 | the `<` used on costs with infinity is irreflexive, asymmetric and transitive; infinity is below nothing and every finite cost is below infinity |
| `Common.Plus` | src/algorithms/adaptive_astar.py:284-287 | `g + h` is finite iff both terms are finite |
| `Text.Find` | src/utils/generate_traffic.py:246 | `str.find`: -1 iff the pattern does not occur, otherwise the first occurrence |
| `Text.FindFrom` | src/utils/generate_traffic.py:246 | `str.find` with a start: an occurrence at or after the start with none between them, -1 iff none |
| `Text.ContainsSpliced` | src/utils/generate_traffic.py:249 | text containing a pattern still contains it after text is added on either side |
| `Text.Split` | src/experiments/batch_runner.py:536 | `str.split(sep)` yields one part more than there are separators, and no part contains the separator |
| `Text.JoinSplit` | src/experiments/batch_runner.py:536 | joining the parts of a split with the separator gives back the string |
| `Text.SplitAtFirstSeparator` | src/experiments/batch_runner.py:536 | splitting `a + sep + b`, with no separator in `a`, gives `a` followed by the parts of `b` |
| `Text.NatToString` | src/utils/generate_traffic.py:176 | a vehicle number renders as a non-empty string of decimal digits without a leading zero, whose value (`DigitsValue`) is the number |
| `Text.NatToStringInjective` | src/utils/generate_traffic.py:176 | two numbers render alike iff they are equal |
| `Config.ValidateWeights` | src/utils/config.py:108-112 | true iff both weights lie in [0, 1] and their sum is within 0.001 of 1; weights in range that sum to exactly 1 are accepted |
| `Config.ValidateSeverity` | src/utils/config.py:115-125 | true exactly for CRITICAL, HIGH and MEDIUM |
| `Config.ValidateSpeed` | src/utils/config.py:128-139 | true iff 40 <= speed <= 120 km/h, both ends included |
| `Config.ConstantsConsistent` | src/utils/config.py:19-35 | the base weights pass the validator; the minimum and maximum time weights add up to 1; the base time weight lies between them; every severity shift is in [0, 0.15] |
| `AdaptiveWeights.SeverityShift` | src/algorithms/adaptive_astar.py:140-145 | the severity shift lies in [0, 0.15], and a severity outside the table gets 0, as MEDIUM does |
| `AdaptiveWeights.ComputeWeights` | src/algorithms/adaptive_astar.py:158-164 | the returned weights sum to exactly 1, the time weight is at most 0.95, and the distance weight at least 0.05 |
| `AdaptiveWeights.TimeWeight` | src/algorithms/adaptive_astar.py:158-161 | `min(0.95, base + total shift)`; `TimeWeightAtLeastBase`, `TimeWeightMonotoneInProgress` and `SeverityOrder` state how it moves |
| `AdaptiveWeights.TimeWeightAtLeastBase` | src/algorithms/adaptive_astar.py:131-164 | with non-negative progress and a base below the cap, the time weight never falls below its base |
| `AdaptiveWeights.EngineWeightsAreValid` | src/algorithms/adaptive_astar.py:158-164 | for a non-negative base and non-negative progress, both weights lie in [0, 1] and pass the configuration's weight validator |
| `AdaptiveWeights.TimeWeightMonotoneInProgress` | src/algorithms/adaptive_astar.py:131-164 | with everything else fixed, more distance travelled never lowers the time weight |
| `AdaptiveWeights.SeverityOrder` | src/algorithms/adaptive_astar.py:140-145 | time weight for CRITICAL >= HIGH >= MEDIUM, and an unknown severity weighs exactly like MEDIUM |
| `AdaptiveWeights.RushHourAddsFivePercent` | src/algorithms/adaptive_astar.py:152-155 | the total shift in a rush hour exceeds the shift at a calm hour by exactly 0.05 |
| `AdaptiveWeights.RushHoursOfTheDay` | src/algorithms/adaptive_astar.py:152-155 | an hour of the day is a rush hour iff it is 7, 8, 9, 16, 17, 18 or 19 |
| `AdaptiveWeights.ScenarioCriticalRushHour` | src/algorithms/adaptive_astar.py:131-164 | base 0.4, CRITICAL, full progress, 08:00 gives weights (0.2, 0.8) |
| `AdaptiveWeights.ScenarioMediumBaseline` | src/algorithms/adaptive_astar.py:131-164 | base 0.4, MEDIUM, no progress, noon gives the base weights (0.6, 0.4) |
| `AdaptiveRouting.Router.GetAdaptiveWeights` | src/algorithms/adaptive_astar.py:108-177 | returns the engine's weights (summing to 1, time at most 0.95) and appends exactly one history sample carrying them, leaving the earlier samples unchanged |
| `AdaptiveRouting.WeighStep` | src/algorithms/adaptive_astar.py:108-177 | one engine call on the context: the weights and the context with one more history sample; `WeighStepKeepsHistory` states its meaning |
| `AdaptiveRouting.WeighStepKeepsHistory` | src/algorithms/adaptive_astar.py:167-175 | one engine call keeps every history sample well formed (weights sum to 1, time at most 0.95, congestion 0) and only appends one |
| `AdaptiveRouting.Router.CalculateCost` | src/algorithms/adaptive_astar.py:179-225 | g(n) as `CalcCost`: infinite for a negative road distance or an unset goal, otherwise the weighted sum, with the context's distance travelled overwritten afterwards |
| `AdaptiveRouting.CalcCost` | src/algorithms/adaptive_astar.py:179-225 | g(n) and the context it leaves; `UnreachableIsInfinite` and `EvaluateAllKeepsHistory` state its meaning |
| `AdaptiveRouting.UnreachableIsInfinite` | src/algorithms/adaptive_astar.py:198-199 | a node with negative road distance from the start gets an infinite g and f and leaves the context untouched by g |
| `AdaptiveRouting.Router.HeuristicEstimate` | src/algorithms/adaptive_astar.py:227-271 | h(n) as `HeuristicCost`: infinite for a negative distance to the goal, otherwise weighted with the current context |
| `AdaptiveRouting.HeuristicCost` | src/algorithms/adaptive_astar.py:227-271 | h(n) and the context it leaves; `EvaluateAllKeepsHistory` states what it keeps |
| `AdaptiveRouting.Router.EvaluateNode` | src/algorithms/adaptive_astar.py:273-287 | f = g + h, with h computed in the context g left behind |
| `AdaptiveRouting.Evaluate` | src/algorithms/adaptive_astar.py:273-287 | f = g + h with the context threaded through both |
| `AdaptiveRouting.EvaluateAll` | src/algorithms/adaptive_astar.py:312-316 | one cost per candidate, with the context threaded through them in order |
| `AdaptiveRouting.EvaluateAllStep` | src/algorithms/adaptive_astar.py:312-316 | evaluating one more candidate appends its f and continues from the context the previous candidates left |
| `AdaptiveRouting.EvaluateAllKeepsHistory` | src/algorithms/adaptive_astar.py:167-221 | evaluating candidates keeps the history well formed, only extends it, and leaves severity, total distance and goal alone |
| `AdaptiveRouting.CandidateCosts` | src/algorithms/adaptive_astar.py:312-316 | one f per outgoing edge |
| `AdaptiveRouting.NextEdgeIsFirstMinimum` | src/algorithms/adaptive_astar.py:300-320 | `find_next_edge` returns None iff every outgoing edge has infinite f (in particular when there are none), otherwise an outgoing edge of finite, first strictly smallest f |
| `AdaptiveRouting.Router.FindNextEdge` | src/algorithms/adaptive_astar.py:289-320 | the loop returns `NextEdge`'s edge and leaves the context `NextEdge` describes; a returned edge is an outgoing edge |
| `AdaptiveRouting.NextEdge` | src/algorithms/adaptive_astar.py:289-320 | `find_next_edge` as a function; `NextEdgeIsFirstMinimum` proves it picks the first strictly smallest f |
| `AdaptiveRouting.StaticWeights` | src/algorithms/adaptive_astar.py:363-366 | the effort pass's weights sum to 1 with the time weight capped at 0.95 |
| `AdaptiveRouting.StaticWeightsAreEngineWeightsAtStart` | src/algorithms/adaptive_astar.py:140-366 | outside rush hour, the effort pass's weights equal the engine's weights before any travel |
| `AdaptiveRouting.StaticEffort` | src/algorithms/adaptive_astar.py:369-374 | the effort formula `w_d * length + w_t * (length / max(speed, 1.0)) * 10.0`; `StaticEffortNonNegative` bounds it |
| `AdaptiveRouting.StaticEffortNonNegative` | src/algorithms/adaptive_astar.py:369-374 | a non-negative edge length gets a non-negative effort |
| `AdaptiveRouting.EffortOutlivesOtherEdge` | src/algorithms/adaptive_astar.py:350-380 | an edge with another id does not change the edge that last set an id's effort |
| `AdaptiveRouting.AnnotateEfforts` | src/algorithms/adaptive_astar.py:350-380 | every non-internal edge gets an effort and no internal (`:`) edge does; the effort of an id is the effort formula applied to the last edge carrying that id |
| `AdaptiveRouting.ChooseRoute` | src/algorithms/adaptive_astar.py:386-405 | the engine's route if it has two or more edges; otherwise the retry's route if non-empty; otherwise `[start, goal]`, which is also the result when the engine raises |
| `AdaptiveRouting.Router.CreateRoute` | src/algorithms/adaptive_astar.py:322-405 | a raising distance query leaves the context as it was and returns `[start, goal]` without efforts; a raising time query keeps the recorded total distance and goal and returns `[start, goal]` without efforts; otherwise it records distance, goal and start time, returns `ChooseRoute`'s route, and gives every non-internal edge, and no internal one, the effort formula of the last edge with its id under the trip's severity |
| `AdaptiveRouting.RouteContext.constructor` | src/algorithms/adaptive_astar.py:64-71 | the context starts with severity HIGH, zero distances and an empty history |
| `AdaptiveRouting.Router.constructor` | src/algorithms/adaptive_astar.py:100-106 | a router keeps its base weights and a fresh context |
| `AdaptiveRouting.NewRouter` | src/algorithms/adaptive_astar.py:100-101 | a router is made iff the base weights sum to 1 within 0.001; otherwise the constructor raises |
| `SignalPreemption.CompatiblePhases` | src/algorithms/adaptive_astar.py:549-556 | exactly the phases green (`G`/`g`) at the link index, guarded by the index being inside the state, in ascending order |
| `SignalPreemption.CollectCompatiblePhases` | src/algorithms/adaptive_astar.py:549-556 | the scan over program 0's phases returns `CompatiblePhases` |
| `SignalPreemption.CompatiblePhasesAppend` | src/algorithms/adaptive_astar.py:549-556 | one more phase extends the compatible list by its index iff it is green at the link |
| `SignalPreemption.PhaseCommands` | src/algorithms/adaptive_astar.py:559-566 | one 10-second phase switch per compatible phase, in order |
| `SignalPreemption.IssuePhaseCommands` | src/algorithms/adaptive_astar.py:554-571 | the switching loop returns `Switches`' outcome: all switches and True, or, when a TraCI call raises, the complete switches before it, what took effect of the failing one, and False |
| `SignalPreemption.PhaseCommandsAppend` | src/algorithms/adaptive_astar.py:559-566 | one more compatible phase adds one switch at the end |
| `SignalPreemption.Switches` | src/algorithms/adaptive_astar.py:554-571 | the loop reports True iff no switch raises; a raising `setPhase`, `setPhaseDuration` or `getRedYellowGreenState` leaves the earlier switches and the part of its own that took effect |
| `SignalPreemption.SwitchesFollowPhases` | src/algorithms/adaptive_astar.py:558-564 | complete or not, the i-th command addresses the signal and selects the i-th compatible phase, and there are never more commands than phases |
| `SignalPreemption.Preempt` | src/algorithms/adaptive_astar.py:543-569 | the preemption proper: within range and red or yellow, the compatible phases are switched in; `PreemptsExactly` proves when it preempts |
| `SignalPreemption.TrackStuck` | src/algorithms/adaptive_astar.py:500-541 | the stuck tracker's new record and timeout flag; `TimeoutNeedsLongStop` proves when it fires |
| `SignalPreemption.Fallback` | src/algorithms/adaptive_astar.py:508-536 | the fallback after a timeout; `FallbackEffect` and `FallbackKeepsInvariant` state its effect |
| `SignalPreemption.Capture` | src/algorithms/adaptive_astar.py:449-456 | the one-time capture of a light's original program; `OriginalProgramCapturedOnce` proves it never overwrites |
| `SignalPreemption.Step` | src/algorithms/adaptive_astar.py:416-572 | one preemption call on the registries; the lemmas `NoSignalNoChange` through `StepKeepsInvariant` state its meaning |
| `SignalPreemption.RequestGreen` | src/algorithms/adaptive_astar.py:544-569 | the preemption proper returns `Preempt`'s outcome |
| `SignalPreemption.TimeoutNeedsLongStop` | src/algorithms/adaptive_astar.py:502-541 | the stuck tracker fires iff the light is the vehicle's previous light, the speed is below the threshold, a stop start is recorded and strictly more than the timeout has passed; the previous light is updated, and enough speed clears the stop start |
| `SignalPreemption.NoSignalNoChange` | src/algorithms/adaptive_astar.py:438-444 | an unknown vehicle or no light ahead changes nothing and preempts nothing |
| `SignalPreemption.CooldownSuppresses` | src/algorithms/adaptive_astar.py:449-467 | during a light's cooldown nothing is preempted, and only the one-time program capture changes the registries |
| `SignalPreemption.GridlockIsAbsorbing` | src/algorithms/adaptive_astar.py:480-518 | the gridlock set only grows, and a gridlocked light is never preempted |
| `SignalPreemption.OriginalProgramCapturedOnce` | src/algorithms/adaptive_astar.py:449-456 | a captured original program is never overwritten, and a light seen for the first time gets the program the simulator reports |
| `SignalPreemption.FallbackEffect` | src/algorithms/adaptive_astar.py:508-536 | a fallback counts the light; it starts a cooldown of `now + period` only below the gridlock limit and when there is no program to restore or the restore succeeded |
| `SignalPreemption.PreemptsExactly` | src/algorithms/adaptive_astar.py:464-571 | a call preempts iff the light is out of cooldown, not gridlocked, the speed query answered, the vehicle has not timed out, the light is within range, shows `r`/`y`, has a green phase for the link and no switch raised; the commands are then the switches; when a switch raises, the outcome is False with the switches before it and the part of the failing one that took effect |
| `SignalPreemption.CommandsTouchOnlyTheSignalAhead` | src/algorithms/adaptive_astar.py:520-566 | every command addresses the light ahead, and every switched-in phase exists and is green for the vehicle's link |
| `SignalPreemption.FallbackCountsOnlyOnTimeout` | src/algorithms/adaptive_astar.py:502-512 | the fallback count of the light ahead rises by exactly one on a timeout; otherwise counts and gridlock are untouched |
| `SignalPreemption.CooldownStartsOnlyOnFallback` | src/algorithms/adaptive_astar.py:508-536 | a cooldown is started only by a timeout below the gridlock limit with no program to restore or a successful restore, and is then `now + cooldown_period` |
| `SignalPreemption.FallbackKeepsInvariant` | src/algorithms/adaptive_astar.py:508-518 | a fallback keeps the invariant that a gridlocked light has reached the fallback limit and both gridlock sets agree |
| `SignalPreemption.StepKeepsInvariant` | src/algorithms/adaptive_astar.py:416-572 | every call keeps that gridlock invariant |
| `SignalPreemption.ScenarioStuckFallback` | src/algorithms/adaptive_astar.py:502-536 | standing 11 s at a red light with program "0": the call restores "0", starts a 30 s cooldown, counts one fallback and preempts nothing |
| `SignalPreemption.ScenarioGridlock` | src/algorithms/adaptive_astar.py:512-518 | a third timeout at the same light gridlocks it without a cooldown |
| `SignalPreemption.ScenarioPhases` | src/algorithms/adaptive_astar.py:549-566 | for phases `Gr`, `rG`, `gr` and link 0 the compatible phases are 0 and 2, and the switches follow in that order |
| `SignalPreemption.ScenarioGreens` | src/algorithms/adaptive_astar.py:549-556 | for phases `Gr`, `rG`, `gr` and link 0 the compatible phases are 0 and 2 |
| `SignalPreemption.ScenarioPreempt` | src/algorithms/adaptive_astar.py:544-569 | a red light 100 m ahead with a green phase for the link is preempted |
| `SignalPreemption.ScenarioSwitchRaises` | src/algorithms/adaptive_astar.py:558-571 | with phases 0 and 2 compatible and the second `setPhaseDuration` raising, the call returns False after switching to phase 0 and selecting phase 2 |
| `SignalPreemption.TrafficLightController.constructor` | src/algorithms/adaptive_astar.py:416-436 | the controller starts with empty registries |
| `SignalPreemption.TrafficLightController.TrackVehicle` | src/algorithms/adaptive_astar.py:486-541 | updates only the vehicle's stuck record, as the stuck tracker prescribes, and reports a timeout |
| `SignalPreemption.TrafficLightController.RevertOrGridlock` | src/algorithms/adaptive_astar.py:508-536 | applies the fallback to the registries and issues its restore command |
| `SignalPreemption.TrafficLightController.PreemptTrafficLights` | src/algorithms/adaptive_astar.py:416-572 | the new registries and the outcome are those of `Step`, including a raising position or speed query (the stuck record is created and nothing preempted) and a raising switch, and the gridlock invariant is kept |
| `SimulationMonitor.Reasons` | src/algorithms/adaptive_astar.py:920-951 | the arrival reasons are non-empty iff one of the four conditions holds, list each condition exactly when it holds, and follow the report order |
| `SimulationMonitor.ReasonTextsDistinct` | src/algorithms/dijkstra.py:299-324 | the six reported reason texts are pairwise different, so a report names its reasons unambiguously |
| `SimulationMonitor.StuckCounterRules` | src/algorithms/standard_astar.py:300-312 | off the penultimate edge, or when the lane queries raise, the counter is kept; on it, the counter resets unless the vehicle is stopped at the lane end, and then grows by one; stuck iff stopped there with the counter already at 5 or more |
| `SimulationMonitor.StuckCounterStep` | src/algorithms/standard_astar.py:300-312 | the stuck counter's update; `StuckCounterRules` states when it resets, grows by one or is kept, and when it reports stuck |
| `SimulationMonitor.Close` | src/algorithms/standard_astar.py:277-283 | the ids of the lights ahead closer than 5 m |
| `SimulationMonitor.CloseOfTail` | src/algorithms/standard_astar.py:277-283 | the close lights of a list are those of its head and of its tail |
| `SimulationMonitor.Crossings` | src/algorithms/standard_astar.py:277-283 | the crossing loop as a function; `CrossingsAddCloseLights` and `CrossingsCountNewLights` state what it adds and counts |
| `SimulationMonitor.CrossingsAddCloseLights` | src/algorithms/standard_astar.py:277-283 | one tick's crossing loop adds exactly the close lights to the seen set |
| `SimulationMonitor.CrossingsCountNewLights` | src/algorithms/dijkstra.py:252-258 | the crossing counter grows by exactly the number of newly seen lights |
| `SimulationMonitor.CountCrossings` | src/algorithms/standard_astar.py:274-285 | the crossing loop computes `Crossings` |
| `SimulationMonitor.TickCountsDistinctLights` | src/algorithms/standard_astar.py:273-285 | one tick keeps the counter equal to the number of distinct lights seen |
| `SimulationMonitor.RunBaselineCountsDistinctLights` | src/algorithms/dijkstra.py:248-260 | over a whole baseline run, lights crossed always equals the number of distinct lights seen, and lights are never forgotten |
| `SimulationMonitor.TickArrivalHasReason` | src/algorithms/standard_astar.py:317-350 | a tick that declares arrival gives at least one reason and the vehicle had departed; a tick that does not stop records no arrival |
| `SimulationMonitor.RunBaselineArrivalHasReason` | src/algorithms/dijkstra.py:231-325 | an arrival always carries a reason, and a run never exceeds 10000 steps |
| `SimulationMonitor.RemovedVehicleEndsRun` | src/algorithms/dijkstra.py:321-325 | a departed vehicle that leaves the simulation ends the run with the single reason "removed from simulation" |
| `SimulationMonitor.BaselineTickStep` | src/algorithms/standard_astar.py:260-354 | one baseline tick; `TickCountsDistinctLights` and `TickArrivalHasReason` state its meaning |
| `SimulationMonitor.RunBaseline` | src/algorithms/dijkstra.py:231-325 | the baseline loop over the ticks; `RunBaselineCountsDistinctLights` and `RunBaselineArrivalHasReason` state its meaning |
| `SimulationMonitor.MonitorBaselineTick` | src/algorithms/standard_astar.py:260-354 | the body of the baseline loop computes `BaselineTickStep` |
| `SimulationMonitor.RunBaselineMonitor` | src/algorithms/dijkstra.py:231-325 | the baseline loop ends in `RunBaseline`'s state, with the crossing counter equal to the number of distinct lights and at most 10000 steps |
| `SimulationMonitor.KeepAhead` | src/algorithms/adaptive_astar.py:851-854 | cleanup keeps only the counted light that is still next ahead: nothing when no light is ahead, and at most that light otherwise |
| `SimulationMonitor.PreemptionCountingRules` | src/algorithms/adaptive_astar.py:839-854 | the counter grows by one iff a light is ahead, the call preempted and the light was not yet counted; afterwards the set is empty with no light ahead and at most the light ahead otherwise |
| `SimulationMonitor.PreemptionCounting` | src/algorithms/adaptive_astar.py:839-854 | the counting after a preemption call; `PreemptionCountingRules` states when it counts |
| `SimulationMonitor.DropPassedLights` | src/algorithms/adaptive_astar.py:851-854 | the cleanup loop computes `KeepAhead` |
| `SimulationMonitor.PreemptCallKeepsInvariant` | src/algorithms/adaptive_astar.py:842-844 | the run loop's preemption call keeps the gridlock invariant and never shrinks the gridlock set |
| `SimulationMonitor.AfterPreemptionBounds` | src/algorithms/adaptive_astar.py:839-854 | after a tick's preemption and counting, the counter grew by at most one, at most one light is remembered and the invariant holds |
| `SimulationMonitor.AdaptiveTickBounds` | src/algorithms/adaptive_astar.py:834-995 | a whole adaptive tick adds at most one preempted light, remembers at most one light, keeps the registry invariant and the step count |
| `SimulationMonitor.AfterMonitoring` | src/algorithms/adaptive_astar.py:856-881 | the guarded monitoring block: the distance and speed read before a query raises are kept, and a speed read once stays until the next successful read |
| `SimulationMonitor.AdaptiveTickStep` | src/algorithms/adaptive_astar.py:834-995 | one adaptive tick: preemption and counting, the monitoring block, then the arrival check; `AdaptiveTickBounds`, `AdaptiveTickAborts`, `RaisingFallbackAbortsRun` and `UnreportedArrivalRunsOn` state its meaning |
| `SimulationMonitor.StuckAtPenultimate` | src/algorithms/adaptive_astar.py:903-917 | the stuck test reads the speed last assigned by the monitoring block, possibly of an earlier tick; a speed never assigned raises inside the test's own handler and reads as not stuck |
| `SimulationMonitor.ProgressPrintRaises` | src/algorithms/adaptive_astar.py:930-940 | the arrival's progress line is printed when the route has a length and some distance was read, and raises when `speed` and the weights were never assigned |
| `SimulationMonitor.ArrivalCheck` | src/algorithms/adaptive_astar.py:884-995 | the arrival check of a tick: nothing once an arrival was detected; the reasons when the queries answer and the progress line prints; the handler otherwise |
| `SimulationMonitor.Handler` | src/algorithms/adaptive_astar.py:972-993 | the exception handler: an abort when its road query raises, an arrival on the goal edge unless one was already detected, nothing else |
| `SimulationMonitor.CheckArrival` | src/algorithms/adaptive_astar.py:884-993 | the arrival statements of the loop body compute `ArrivalCheck` |
| `SimulationMonitor.ArrivalCheckKeeps` | src/algorithms/adaptive_astar.py:884-995 | the arrival check changes only the detection flag, the arrival and the abort flag; it never clears a detection or changes a recorded arrival after one, and a new arrival ends the run |
| `SimulationMonitor.AdaptiveTickAborts` | src/algorithms/adaptive_astar.py:884-977 | from a run not yet aborted, a tick aborts iff the vehicle is present, the handler's road query raises, and the handler was entered because the arrival queries raised or a detection's progress line did (`UnreportedDetection`); an aborting tick ends the run with its arrival unchanged, and a tick that does not end the run neither aborts nor records an arrival |
| `SimulationMonitor.RunAdaptive` | src/algorithms/adaptive_astar.py:829-995 | the adaptive loop over the ticks, ending at a reported arrival or an abort; `RunAdaptiveBounds`, `RaisingFallbackAbortsRun`, `RunAdaptiveEndsOnce` and `DetectedRunNeverReports` state its meaning |
| `SimulationMonitor.RunAdaptiveBounds` | src/algorithms/adaptive_astar.py:829-951 | over a whole adaptive run (`RunBounds`), the count of preempted lights never decreases and grows by at most one per step, at most one light is remembered, the registry invariant holds, and gridlock only grows |
| `SimulationMonitor.CountedTickBounds` | src/algorithms/adaptive_astar.py:829-854 | one counted tick keeps `RunBounds` and uses one step |
| `SimulationMonitor.RunAdaptiveAfterBounds` | src/algorithms/adaptive_astar.py:829-995 | the rest of a run after a tick that kept `RunBounds` keeps it too |
| `SimulationMonitor.RaisingFallbackAbortsRun` | src/algorithms/adaptive_astar.py:972-977 | when the arrival queries raise and the handler's `getRoadID` raises too, the run ends at that tick, aborted, with no arrival recorded |
| `SimulationMonitor.RunAdaptiveEndsOnce` | src/algorithms/adaptive_astar.py:829-995 | a run that starts without arrival or abort never ends with both |
| `SimulationMonitor.DetectedRunNeverReports` | src/algorithms/adaptive_astar.py:901 | once an arrival is detected, the rest of the run keeps the detection and records no new arrival |
| `SimulationMonitor.UnreportedArrivalRunsOn` | src/algorithms/adaptive_astar.py:856-977 | a vehicle in the arrived list whose speed was never read but whose distance was: the progress line raises after the detection, the handler's road test ends nothing, the run goes on with the next tick and never reports an arrival |
| `SimulationMonitor.PreemptAndCount` | src/algorithms/adaptive_astar.py:839-854 | drives the controller through one preemption call and returns the counting `PreemptionCounting` describes |
| `SimulationMonitor.MonitorAdaptiveTick` | src/algorithms/adaptive_astar.py:834-995 | the body of the adaptive loop computes `AdaptiveTickStep`, monitoring block and abort included, and leaves the controller in the new registry state |
| `SimulationMonitor.RunAdaptiveMonitor` | src/algorithms/adaptive_astar.py:824-995 | the adaptive loop ends in `RunAdaptive`'s state; from a valid registry, the invariant holds at the end, at most one light is remembered, and at most one light is counted per step |
| `BaselineRouting.CandidateCost` | src/algorithms/standard_astar.py:84-110 | a candidate is scored finitely iff its distance query succeeds with a non-negative distance; the distance-only score is that distance |
| `BaselineRouting.CandidateCosts` | src/algorithms/dijkstra.py:79-92 | one score per outgoing edge |
| `BaselineRouting.ChooseNextIsFirstMinimum` | src/algorithms/standard_astar.py:81-113 | no next edge iff every candidate is skipped; otherwise an outgoing edge of first strictly smallest score |
| `BaselineRouting.DistanceOnlyPicksNearest` | src/algorithms/dijkstra.py:79-95 | the Dijkstra baseline moves to a candidate whose distance to the goal is non-negative and no larger than that of any other reachable candidate |
| `BaselineRouting.BestNextEdge` | src/algorithms/standard_astar.py:81-113 | the inner loop returns the first strictly smallest candidate |
| `BaselineRouting.ChooseNext` | src/algorithms/standard_astar.py:81-113 | the candidate scan as a function; `ChooseNextIsFirstMinimum` proves it picks the first strictly smallest finite score |
| `BaselineRouting.Moves` | src/algorithms/standard_astar.py:81-117 | a move from one edge to the next is an outgoing edge chosen by `ChooseNext` |
| `BaselineRouting.Halts` | src/algorithms/standard_astar.py:67-113 | the walk stops at the goal, with no iterations left, at a revisited edge, at an edge without outgoing edges, or when no candidate scores finitely |
| `BaselineRouting.Walk` | src/algorithms/standard_astar.py:67-117 | the edges the loop appends to the route before it stops; `WalkEndHalts`, `WalkStopsWhereItHalts`, `WalkMoves` and `WalkDistinct` prove what it is |
| `BaselineRouting.WalkEndHalts` | src/algorithms/standard_astar.py:67-117 | the walk is empty iff it halts where it begins, and then it ends there; otherwise it begins at the current edge and its last edge moves to the end edge |
| `BaselineRouting.WalkStopsWhereItHalts` | src/algorithms/standard_astar.py:67-113 | at the end edge, with the walked edges visited and the iterations they used spent, the loop halts |
| `BaselineRouting.WalkMoves` | src/algorithms/standard_astar.py:81-117 | each edge of the walk moves to the next by the best-candidate choice |
| `BaselineRouting.WalkDistinct` | src/algorithms/standard_astar.py:67-117 | the walked edges are distinct, none was visited before, none is the goal, and there are at most as many as the iterations allowed |
| `BaselineRouting.WalkRoute` | src/algorithms/standard_astar.py:58-120 | the walk followed by the goal has every route property `GreedyWalk` promises |
| `BaselineRouting.WalkLoop` | src/algorithms/standard_astar.py:58-120 | the route-building loop ends with `Walk` from the start followed by the goal |
| `BaselineRouting.GreedyWalk` | src/algorithms/standard_astar.py:58-120 | the route is `Walk` from the start followed by the goal: non-empty, ending at the goal, which appears nowhere else; the edges before it are distinct, start at the start edge, are at most `max_iterations` in number, and each move picks the best candidate; the edge the loop stopped on is reached by a best move from the last edge of the prefix and is one where `Halts` holds (goal reached, iterations spent, a revisited edge, no outgoing edges, or no finite candidate) |
| `BaselineRouting.CreateRouteFixedAStar` | src/algorithms/standard_astar.py:40-120 | every `GreedyWalk` guarantee under the fixed 0.6 / 0.4 score: the route is its `Walk` plus the goal, distinct edges, best-candidate moves, and a stop where `Halts` holds |
| `BaselineRouting.CreateRouteDijkstra` | src/algorithms/dijkstra.py:38-102 | every `GreedyWalk` guarantee under the distance-only score: the route is its `Walk` plus the goal, distinct edges, nearest-candidate moves, and a stop where `Halts` holds |
| `FixTrafficLights.ClassesAreExclusive` | src/utils/fix_traffic_lights.py:88-115 | no state is both all-green and all-red, and an empty state is neither |
| `FixTrafficLights.GenerateFixedPhases` | src/utils/fix_traffic_lights.py:164-189 | no phases for n <= 0, otherwise four phases of n links each, with durations "30", "3", "30", "3" |
| `FixTrafficLights.GeneratedLinks` | src/utils/fix_traffic_lights.py:169-187 | with h = n // 2, link i of the four phases is G/y/r/r for i < h and r/r/G/y otherwise |
| `FixTrafficLights.GeneratedPhasesAreSafe` | src/utils/fix_traffic_lights.py:169-187 | for n >= 2, no generated phase is all-green or all-red |
| `FixTrafficLights.OneLinkIsStillAllRed` | src/utils/fix_traffic_lights.py:169-187 | for n = 1 the first phase is "r" (all red) and the third is "G" (all green) |
| `FixTrafficLights.PhaseIssuesComplete` | src/utils/fix_traffic_lights.py:79-133 | an all-green phase yields a CRITICAL ALL_GREEN issue; an all-red one a WARNING ALL_RED; a duration below 3 a WARNING SHORT_PHASE |
| `FixTrafficLights.PhasesIssuesComplete` | src/utils/fix_traffic_lights.py:79-133 | the same holds for every phase of a program |
| `FixTrafficLights.PhasesIssuesSound` | src/utils/fix_traffic_lights.py:79-133 | every reported phase issue names the light and is justified by its phase's state or duration |
| `FixTrafficLights.NoPhasesIsTheOnlyFinding` | src/utils/fix_traffic_lights.py:63-74 | a selected light without phases yields exactly one CRITICAL NO_PHASES issue |
| `FixTrafficLights.AllIssuesJustified` | src/utils/fix_traffic_lights.py:50-144 | every issue comes from a selected light of the network and is NO_PHASES for an empty program or justified by one of its phases |
| `FixTrafficLights.AnalyzeTlsPhases` | src/utils/fix_traffic_lights.py:34-144 | the analysis loop returns `AllIssues` |
| `FixTrafficLights.CheckPhase` | src/utils/fix_traffic_lights.py:79-133 | one phase's checks return `PhaseIssues` |
| `FixTrafficLights.CollectPhaseIssues` | src/utils/fix_traffic_lights.py:79-133 | the per-phase loop returns `PhasesIssues` |
| `FixTrafficLights.PhasesIssuesStep` | src/utils/fix_traffic_lights.py:79-133 | one more phase appends that phase's issues |
| `FixTrafficLights.PhaseIssues` | src/utils/fix_traffic_lights.py:79-133 | one phase's issues; `PhaseIssuesComplete` and `PhasesIssuesSound` state its meaning |
| `FixTrafficLights.PhasesIssues` | src/utils/fix_traffic_lights.py:79-133 | a program's issues, phase by phase; `PhasesIssuesComplete` and `PhasesIssuesSound` state its meaning |
| `FixTrafficLights.AllIssues` | src/utils/fix_traffic_lights.py:50-144 | the issues of every selected light; `AllIssuesJustified` and `NoPhasesIsTheOnlyFinding` state its meaning |
| `FixTrafficLights.FirstBad` | src/utils/fix_traffic_lights.py:228-235 | None iff no phase with a non-empty state is all-green or all-red; otherwise the first such phase |
| `FixTrafficLights.ScanPhases` | src/utils/fix_traffic_lights.py:225-235 | needs_fix iff some phase is bad, and `num_links` is then the state length of the first bad phase |
| `FixTrafficLights.FixLogic` | src/utils/fix_traffic_lights.py:211-251 | fixing keeps the light's id |
| `FixTrafficLights.FixIsIdempotent` | src/utils/fix_traffic_lights.py:225-251 | fixing a fixed program changes nothing more |
| `FixTrafficLights.FixedLogicIsSafe` | src/utils/fix_traffic_lights.py:237-249 | a replaced program of two or more links has four phases and none is bad any more |
| `FixTrafficLights.FixOne` | src/utils/fix_traffic_lights.py:211-251 | one light is fixed as `FixLogic` says and reported as replaced exactly when it is; an unreplaced light is untouched |
| `FixTrafficLights.CountFixed` | src/utils/fix_traffic_lights.py:251 | the fixed count never exceeds the number of lights |
| `FixTrafficLights.CountFixedStep` | src/utils/fix_traffic_lights.py:251 | one more light adds one to the count exactly when it is replaced |
| `FixTrafficLights.IsFixed` | src/utils/fix_traffic_lights.py:225-237 | a selected light with phases is replaced iff it has a bad phase; `FixOne` and `CountFixedStep` use it |
| `FixTrafficLights.FixAll` | src/utils/fix_traffic_lights.py:211-251 | fixing a network keeps its number of lights |
| `FixTrafficLights.FixAllRepairsEach` | src/utils/fix_traffic_lights.py:211-251 | each light of the fixed network is `FixLogic` of the original light at that position |
| `FixTrafficLights.FixAllStep` | src/utils/fix_traffic_lights.py:211-251 | fixing one more light appends its fixed form |
| `FixTrafficLights.FixTrafficLightPrograms` | src/utils/fix_traffic_lights.py:192-251 | in place over the array of programs: each becomes `FixLogic` of its old value, and the count returned is the number of programs replaced |
| `ExtractBbox.CheckBbox` | src/utils/extract_bbox.py:182-198 | no error iff both longitudes are in [-180, 180], both latitudes in [-90, 90], and min < max on both axes; each error names the first failing check |
| `ExtractBbox.ValidBoxContainsCorners` | src/utils/extract_bbox.py:79-198 | a valid box contains its four corners |
| `ExtractBbox.BBoxExtractor.IsInBbox` | src/utils/extract_bbox.py:69-84 | false for an invalid location, otherwise true iff the point lies within the inclusive bounds |
| `ExtractBbox.BBoxExtractor.constructor` | src/utils/extract_bbox.py:55-67 | all counters start at 0 with no kept node and nothing written |
| `ExtractBbox.BBoxExtractor.HandleNode` | src/utils/extract_bbox.py:86-103 | counts the node; keeps, records and writes it iff it is in the box; nothing else changes |
| `ExtractBbox.BBoxExtractor.HasKeptNode` | src/utils/extract_bbox.py:120-124 | the scan finds a node reference iff some reference is a kept node |
| `ExtractBbox.BBoxExtractor.HandleWay` | src/utils/extract_bbox.py:105-124 | counts the way, and writes and counts it once iff one of its nodes was kept |
| `ExtractBbox.BBoxExtractor.HandleRelation` | src/utils/extract_bbox.py:126-144 | every relation is counted, kept and written |
| `GenerateTraffic.InsertionPoint` | src/utils/generate_traffic.py:244-256 | with a `<vType`, just after the first `"/>\n` that follows it; otherwise at the first `</routes>`; None when that marker is missing |
| `GenerateTraffic.AddEmergencyVtype` | src/utils/generate_traffic.py:240-241 | content that already declares `id="emergency"` is returned unchanged |
| `GenerateTraffic.AddEmergencyVtypeSplices` | src/utils/generate_traffic.py:244-256 | the result is the content with the emergency line (plus a newline before `</routes>`) spliced in at the insertion point, the text on both sides kept; it is unchanged iff already declared or no insertion point exists |
| `GenerateTraffic.AddEmergencyVtypeDeclares` | src/utils/generate_traffic.py:244-256 | whenever an insertion point exists, the result declares the emergency type |
| `GenerateTraffic.AddEmergencyVtypeIdempotent` | src/utils/generate_traffic.py:240-256 | adding the emergency type twice is the same as adding it once |
| `GenerateTraffic.EmergencyLineHasMarker` | src/utils/generate_traffic.py:237 | the inserted line carries the `id="emergency"` marker |
| `GenerateTraffic.ScenarioOf` | src/utils/generate_traffic.py:30-63 | exactly the four named scenarios exist, and each one's ratios sum to 1 |
| `GenerateTraffic.Trunc` | src/utils/generate_traffic.py:137-138 | Python `int()` of a float truncates toward zero |
| `GenerateTraffic.NumVehicles` | src/utils/generate_traffic.py:124 | a custom count of None or 0 falls back to the scenario's own count |
| `GenerateTraffic.Portion` | src/utils/generate_traffic.py:137-138 | one truncated share; `PortionsFit` bounds the two shares |
| `GenerateTraffic.VehicleCounts` | src/utils/generate_traffic.py:137-139 | cars, buses and trucks add up to the vehicle count |
| `GenerateTraffic.CountsAreNonNegative` | src/utils/generate_traffic.py:137-139 | with ratios whose car and bus parts sum to at most 1, no count is negative |
| `GenerateTraffic.PortionsFit` | src/utils/generate_traffic.py:137-139 | the two truncated shares are non-negative and together do not exceed the total |
| `GenerateTraffic.DefaultScenarioCounts` | src/utils/generate_traffic.py:137-139 | the four scenarios' default counts split as 1700/160/140, 4000/500/500, 7500/1200/1300 and 14000/3000/3000 |
| `GenerateTraffic.AppendTrips` | src/utils/generate_traffic.py:169-211 | one generation loop appends `count` trips, keeps the earlier ones, and numbers each trip by its position with distinct from and to edges and a departure in the window |
| `GenerateTraffic.TripsInKindOrder` | src/utils/generate_traffic.py:166-211 | the three loops laid end to end give every trip the kind of its number: cars, then buses, then trucks |
| `GenerateTraffic.TripIdsDistinct` | src/utils/generate_traffic.py:166-211 | the trips the three loops number are all named differently: within a kind the numbers differ, and the three kinds differ in the id's prefix |
| `GenerateTraffic.KindAt` | src/utils/generate_traffic.py:166-211 | the type of vehicle number k: cars, then buses, then trucks; `TripsInKindOrder` proves the loops follow it |
| `GenerateTraffic.GenerateVehicleTrips` | src/utils/generate_traffic.py:105-223 | None for an unknown scenario; otherwise the split of the vehicle count (0 or missing means the default), and one trip per vehicle numbered 0.. in car, bus, truck order, each with distinct edges |
| `BatchRunner.BaselinesAreAllButAdaptive` | src/experiments/batch_runner.py:477-485 | the baselines are all algorithms except the adaptive one |
| `BatchRunner.ParseAlgorithms` | src/experiments/batch_runner.py:472-493 | None iff no argument; "all" (checked first) gives all six; else "baselines" gives the five baselines; otherwise the arguments unchanged |
| `BatchRunner.ParseTraffic` | src/experiments/batch_runner.py:496-509 | None iff no argument; precedence all > light > heavy, with light = low, moderate and heavy = high, severe; otherwise unchanged |
| `BatchRunner.TrafficGroupsPartitionLevels` | src/experiments/batch_runner.py:502-507 | light followed by heavy is all four levels |
| `BatchRunner.ParseSeverities` | src/experiments/batch_runner.py:512-521 | None iff no argument; "all" gives the three severities; otherwise unchanged |
| `BatchRunner.ParseRouteInverts` | src/experiments/batch_runner.py:536-540 | a parsed route's parts joined with ":" give back the input, with the default name `Route i+1` for two parts |
| `BatchRunner.ParseRouteRoundTrip` | src/experiments/batch_runner.py:536-540 | `start:goal` parses to `Route i+1`, and `start:goal:name` to that name |
| `BatchRunner.ParseRoute` | src/experiments/batch_runner.py:536-540 | one route string parsed; `ParseRouteInverts` and `ParseRouteRoundTrip` prove it inverts `:`-joining |
| `BatchRunner.ParsedRoutes` | src/experiments/batch_runner.py:534-546 | never more routes than strings |
| `BatchRunner.ParsedRoutesKeepsWellFormed` | src/experiments/batch_runner.py:534-546 | when every string is well formed, one route per string, in input order |
| `BatchRunner.ParsedRoutesStep` | src/experiments/batch_runner.py:535-540 | a well-formed last string appends its route |
| `BatchRunner.ParseRoutes` | src/experiments/batch_runner.py:524-546 | the parsing loop returns `ParsedRoutes` |
| `BatchRunner.KnownAmong` | src/experiments/batch_runner.py:92-95 | the filter keeps exactly the known algorithms that were asked for, in canonical order |
| `BatchRunner.SelectAlgorithms` | src/experiments/batch_runner.py:82-97 | no request gives all algorithms; otherwise exactly the known requested ones, in canonical order |
| `BatchRunner.SelectionIgnoresOrder` | src/experiments/batch_runner.py:92-95 | the selection depends only on which names are requested, not their order or repetition |
| `BatchRunner.KnownAmongDependsOnMembership` | src/experiments/batch_runner.py:92-95 | the filter depends only on membership |
| `BatchRunner.SelectedAreDistinct` | src/experiments/batch_runner.py:92-97 | the selected algorithms are distinct |
| `BatchRunner.Runner.constructor` | src/experiments/batch_runner.py:54-113 | the runner filters the algorithms, falls back to the default severities, levels and routes when given none, and starts with no results |
| `BatchRunner.RoutePlan` | src/experiments/batch_runner.py:365-400 | the innermost loop visits each route once, in order |
| `BatchRunner.TrafficPlanSize` | src/experiments/batch_runner.py:399-400 | a baseline runs levels × routes experiments |
| `BatchRunner.Plan` | src/experiments/batch_runner.py:360-430 | the experiments the nested loops run, in loop order; `PlanSize` gives its size |
| `BatchRunner.SeverityPlanSize` | src/experiments/batch_runner.py:363-365 | the adaptive router runs severities × levels × routes experiments |
| `BatchRunner.PlanSize` | src/experiments/batch_runner.py:360-430 | the loops run one severity grid per adaptive entry and one level-by-route grid per other entry |
| `BatchRunner.CountOfDistinct` | src/experiments/batch_runner.py:360 | in a list of distinct names a name occurs once or not at all |
| `BatchRunner.TotalConfigsAsWritten` | src/experiments/batch_runner.py:331-338 | the announced count as the code computes it; compared with the runs by `TotalConfigsAsWrittenWithAdaptive` and `TotalConfigsAsWrittenWithoutAdaptive` |
| `BatchRunner.TotalConfigs` | src/experiments/batch_runner.py:331-338 | the corrected count; `TotalConfigsCountsRuns` proves it equals the runs |
| `BatchRunner.TotalConfigsCountsRuns` | src/experiments/batch_runner.py:328-430 | the corrected count equals the number of experiments the loops run |
| `BatchRunner.TotalConfigsAsWrittenWithAdaptive` | src/experiments/batch_runner.py:328-430 | with adaptive A* selected, the count as written equals the number of experiments |
| `BatchRunner.TotalConfigsAsWrittenWithoutAdaptive` | src/experiments/batch_runner.py:328-430 | without adaptive A*, the count as written is short by one levels-by-routes grid |
| `BatchRunner.CooldownBetweenEveryRun` | src/experiments/batch_runner.py:391-426 | with the true count, every run but the last is followed by a cooldown |
| `BatchRunner.CooldownSkippedAsWritten` | src/experiments/batch_runner.py:328-426 | two dijkstra runs are counted as 0 as written, so no cooldown separates them; the corrected count gives one |
| `BatchRunner.CooldownsAfter` | src/experiments/batch_runner.py:391-395 | the cooldowns taken after a number of runs; `CooldownBetweenEveryRun` and `CooldownSkippedAsWritten` state when they happen |
| `BatchRunner.Results` | src/experiments/batch_runner.py:371-377 | one result per experiment |
| `BatchRunner.ResultsAppend` | src/experiments/batch_runner.py:371-412 | results of consecutive plan parts concatenate |
| `BatchRunner.Runner.RunOne` | src/experiments/batch_runner.py:366-395 | records the result, counts the run and cools down unless it is the last |
| `BatchRunner.Runner.RunRoutes` | src/experiments/batch_runner.py:365-430 | the route loop appends the results of its plan, in order |
| `BatchRunner.Runner.RunTraffic` | src/experiments/batch_runner.py:364-430 | the traffic loop appends the results of its plan, in order |
| `BatchRunner.Runner.RunSeverities` | src/experiments/batch_runner.py:363-395 | the severity loop appends the adaptive plan's results |
| `BatchRunner.Runner.RunAlgorithm` | src/experiments/batch_runner.py:362-430 | one algorithm's loops append its plan's results |
| `BatchRunner.Runner.RunPlan` | src/experiments/batch_runner.py:360-430 | all loops append the results of the whole plan, in loop order, and count the runs |
| `BatchRunner.Runner.RunAllExperiments` | src/experiments/batch_runner.py:325-430 | every configuration runs once, in loop order, with a cooldown after every run but the last |
| `Analyzer.Successful` | src/experiments/analyzer.py:41 | the filter never grows the list |
| `Analyzer.SuccessfulMembers` | src/experiments/analyzer.py:41 | a result is kept iff it is in the input and succeeded |
| `Analyzer.SuccessfulAppend` | src/experiments/analyzer.py:41 | the filter commutes with concatenation, so order is kept |
| `Analyzer.Matching` | src/experiments/analyzer.py:77-94 | a group never holds more results than were given |
| `Analyzer.MatchingMembers` | src/experiments/analyzer.py:77-94 | a result is in the group of `k` iff it is one of the results and its key is `k` |
| `Analyzer.TravelTimes` | src/experiments/analyzer.py:93 | one travel time per grouped result |
| `Analyzer.ComputationTimes` | src/experiments/analyzer.py:94 | one computation time per grouped result, so the two lists of a group have equal length |
| `Analyzer.Mean` | src/experiments/analyzer.py:187-188 | the arithmetic mean; `MeanOfOne` and `MeanBounds` state its meaning |
| `Analyzer.MatchingStep` | src/experiments/analyzer.py:77-94 | one more result joins exactly the group of its key |
| `Analyzer.MatchingNonEmpty` | src/experiments/analyzer.py:90-91 | a group exists iff some result carries its key |
| `Analyzer.AddToGroup` | src/experiments/analyzer.py:90-94 | one result's step of the grouping loop: its group is created empty when missing, then its times are appended |
| `Analyzer.Grouped` | src/experiments/analyzer.py:77-96 | the grouping built result by result; `GroupedIsGroupOf` states its meaning |
| `Analyzer.GroupsStep` | src/experiments/analyzer.py:90-94 | adding a result to its own group keeps the grouping exact |
| `Analyzer.GroupedIsGroupOf` | src/experiments/analyzer.py:77-96 | the grouping built result by result has a key iff some result carries it, and each group is `GroupOf` that key |
| `Analyzer.GroupResults` | src/experiments/analyzer.py:73-96 | the grouping has a key iff some successful result carries it, a baseline's severity being "N/A", and each group's lists are those of the matching results, in order |
| `Analyzer.GroupSizesStep` | src/experiments/analyzer.py:77-94 | one more result grows the total size of distinct groups by one iff its key is among them |
| `Analyzer.GroupSizesSum` | src/experiments/analyzer.py:77-94 | over distinct keys covering all results, the group sizes sum to the number of results |
| `Analyzer.MeanOfOne` | src/experiments/analyzer.py:187-188 | the mean of one value is that value |
| `Analyzer.MeanBounds` | src/experiments/analyzer.py:187-188 | a mean lies between any lower and upper bound of the values |
| `Analyzer.ConfidenceIntervalCentred` | src/experiments/analyzer.py:60-71 | (0, 0) for fewer than two values; otherwise centred on the mean and containing it for a non-negative margin |
| `Analyzer.ConfidenceInterval` | src/experiments/analyzer.py:47-71 | the interval; `ConfidenceIntervalCentred` states its meaning |
| `Analyzer.EffectSizeBands` | src/experiments/analyzer.py:238-247 | negligible iff d < 0.2, small iff 0.2 <= d < 0.5, medium iff 0.5 <= d < 0.8, large iff d >= 0.8 |
| `Analyzer.EffectSizeMonotone` | src/experiments/analyzer.py:238-247 | a larger effect never gets a smaller label |
| `Analyzer.InterpretEffectSize` | src/experiments/analyzer.py:238-247 | the effect-size label; `EffectSizeBands` and `EffectSizeMonotone` state its meaning |
| `Analyzer.ImprovementSign` | src/experiments/analyzer.py:218-222 | 0 for a non-positive baseline mean; otherwise positive iff the adaptive mean is smaller, and 0 iff they tie |
| `Analyzer.ImprovementInverts` | src/experiments/analyzer.py:218-222 | the adaptive mean is recovered from the baseline mean and the improvement |
| `Analyzer.ImprovementPct` | src/experiments/analyzer.py:218-222 | the improvement in percent; `ImprovementSign` and `ImprovementInverts` state its meaning |
| `Analyzer.SingleAdaptiveRun` | src/experiments/analyzer.py:191-233 | one adaptive sample: t = 0, p = 1, d = 0, not significant, effect "N/A" |
| `Analyzer.SingleBaselineRun` | src/experiments/analyzer.py:191-233 | several adaptive samples and one baseline sample: t = 0, p = 1, d = 0, not significant, effect "negligible" |
| `Analyzer.CompareReportsMeans` | src/experiments/analyzer.py:187-233 | the comparison raises iff both lists have several samples and the pooled deviation is 0; otherwise it reports both means, their difference and the improvement's sign, and is significant only with p < 0.05 |
| `Analyzer.Compare` | src/experiments/analyzer.py:187-233 | one comparison, or None when it raises; `CompareReportsMeans`, `SingleAdaptiveRun` and `SingleBaselineRun` state its meaning |
| `Analyzer.AdaptiveTimesAreGroupTimes` | src/experiments/analyzer.py:152-159 | the adaptive list a comparison collects is the travel-time list of the adaptive group |
| `Analyzer.BaselineTimesAreGroupTimes` | src/experiments/analyzer.py:175-181 | a baseline's list is the travel-time list of its "N/A" group |
| `Analyzer.ComparisonsCompareGroups` | src/experiments/analyzer.py:136-236 | a comparison exists for a baseline, severity, level and route iff both groups are non-empty, and it compares the means of those two groups |
| `Analyzer.ComparisonAt` | src/experiments/analyzer.py:141-233 | the cell one severity, level and route contribute for one baseline |
| `Analyzer.PerformTTests` | src/experiments/analyzer.py:136-236 | all comparisons, or None when one raises; `ComparisonsCompareGroups` states which exist and what they compare |

## Left out

- The simulator itself (TraCI and sumolib): stepping, vehicle spawning, `getNextTLS`, `setProgram`/`setPhase`, `findRoute`, `setEffort`, `getDistanceRoad` and reading the network. Their answers are oracle parameters or per-tick observation records. The raising calls that are modelled are listed with their members: the program capture, the position and speed queries, the phase-logic query and the phase switches of the preemption call, the distance and time queries of `create_route`, the lane queries of the stuck counter, and the distance, road and speed queries of the adaptive loop's monitoring block. A raising distance query in the cost functions is given as a negative distance, which the source answers the same way: an infinite cost and an untouched context.
- `SignalPreemption.Step`: a raising vehicle list is an unknown vehicle and a raising `getNextTLS` is an empty list, which the source also answers with False. A `getTime` that raises after the program capture is not modelled separately: the observation always carries a time.
- `SimulationMonitor.AdaptiveTickStep`: of the adaptive loop's unguarded queries, only the exception handler's `getRoadID` is modelled as raising (an aborted run). The guarded monitoring block's queries are modelled as raising (`MonitorView`); the `get_adaptive_weights` call inside it is taken not to raise, so `w_d` and `w_t` are assigned exactly when `speed` is. The loop-head queries (`getMinExpectedNumber`, `simulationStep`, `getTime`, `getIDList`, `getNextTLS`) and the `getTime` after a fallback arrival are taken to answer.
- Wall-clock time and randomness. The hour of day is a parameter. Departure times and edge choices in trip generation are nondeterministic choices, constrained only as the source constrains them.
- File and XML I/O, logging, `print` output, GUI options, colours, progress displays and the `main()` argument handling. The OSM writer is a log of written objects, and XML programs are sequences of phases.
- `src/utils/network_stats.py` is not part of this model. It only wraps sumolib objects and writes averages.
- Subprocess orchestration, child-output scraping and `time.sleep` in the batch runner. An experiment's outcome is an oracle, and a cooldown is a count.
- The analyzer's statistics: the t-test, the standard deviation, the pooled deviation and the t-quantile are oracles. `calculate_statistics` and the Markdown, LaTeX and CSV writers are not modelled.
- IEEE floating point: all quantities are exact reals, so rounding near the 0.001 and 0.95 bounds is not modelled.
- The run loops' weight display, distance display and speed display, and the weight history the adaptive loop's `get_adaptive_weights` call appends to. The adaptive loop's display matters only through whether its progress line raises, which is modelled.
- `AdaptiveRouting.Router.CreateRoute`: the reset of efforts to -1 before the retry is not modelled. The efforts returned are the annotated ones, and an edge whose speed lookup raises is not skipped.
- `FixTrafficLights.FixTrafficLightPrograms`: the new phases are appended as a fresh sequence, so the order of other XML children of a `tlLogic` is not modelled.
- `GenerateTraffic.GenerateVehicleTrips` requires two distinct edges. With fewer, the source's `to_edge` retry loop never ends (or `random.choice` raises on an empty list).
- `BatchRunner.Runner.RunAllExperiments` requires the selected algorithms to be distinct. `SelectedAreDistinct` proves that for every runner the constructor builds.
- `AdaptiveRouting.Router.constructor` requires the base weights to sum to 1 within 0.001. `NewRouter` models the raising check.

Where the code and the design notes disagree, the model follows the code:

- The cooldown check runs before the gridlock check (`adaptive_astar.py:464-481`).
- A failed program restore sets no cooldown (`adaptive_astar.py:520-529`).
- The adaptive loop has no "removed from simulation" branch; both baselines have one.
- `calculate_cost` reads a goal attribute that the context does not declare until `create_route` sets it, so g is infinite before then.
- `create_route` returns a one-edge retry route as it is.
- Several adaptive samples against one baseline sample get the effect label "negligible", not "N/A".
- A zero pooled deviation makes the analysis raise; `PerformTTests` is then `None`.

## Findings

| source | as written | input that shows it | evidently intended | confidence | as-written member | corrected member |
|---|---|---|---|---|---|---|
| src/experiments/batch_runner.py:331-338 | `baseline_configs` is `levels × routes × (algorithms − 1)` even when adaptive A* is not selected, so the announced total is one levels-by-routes grid short, and the `completed < total_configs` test skips the cooldowns of the last grid | `--algorithms dijkstra --traffic low` with two routes: two experiments run, the total is 0, and no cooldown separates them | subtract one only for the adaptive router: `levels × routes × algorithms` without it | not executed | `BatchRunner.TotalConfigsAsWritten`, `BatchRunner.TotalConfigsAsWrittenWithoutAdaptive`, `BatchRunner.CooldownSkippedAsWritten` | `BatchRunner.TotalConfigs`, `BatchRunner.TotalConfigsCountsRuns`, `BatchRunner.Runner.RunAllExperiments` |
