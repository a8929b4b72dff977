/**
 * The per-tick bookkeeping of the three simulation runs: arrival detection with its
 * ordered reasons, the baselines' stuck counter and traffic-light crossing counter, and
 * the adaptive run's preemption counter. Each tick's simulator answers arrive as one
 * observation record; a run consumes a sequence of them.
 */
module SimulationMonitor {
  import opened Common
  import opened SignalPreemption

  /** Why arrival was declared. */
  datatype Reason =
    | InArrivedList
    | AtLastRouteEdge
    | OnGoalEdge
    | StuckAtPenultimateEdge
    | OnGoalEdgeFallback
    | RemovedFromSimulation

  function ReasonText(r: Reason): string {
    match r
    case InArrivedList => "in arrived list"
    case AtLastRouteEdge => "at last route edge"
    case OnGoalEdge => "on goal edge"
    case StuckAtPenultimateEdge => "stuck at penultimate edge"
    case OnGoalEdgeFallback => "on goal edge (fallback)"
    case RemovedFromSimulation => "removed from simulation"
  }

  /** The six reported texts tell the reasons apart. */
  lemma ReasonTextsDistinct(a: Reason, b: Reason)
    ensures ReasonText(a) == ReasonText(b) <==> a == b
  {
  }

  /** Position of a reason in the report order. */
  function Rank(r: Reason): nat {
    match r
    case InArrivedList => 0
    case AtLastRouteEdge => 1
    case OnGoalEdge => 2
    case StuckAtPenultimateEdge => 3
    case OnGoalEdgeFallback => 4
    case RemovedFromSimulation => 5
  }

  /** The reasons that hold, in report order; empty exactly when none holds. */
  function Reasons(inArrived: bool, atLastEdge: bool, onGoalEdge: bool, stuck: bool): (rs: seq<Reason>)
    ensures rs != [] <==> inArrived || atLastEdge || onGoalEdge || stuck
    ensures InArrivedList in rs <==> inArrived
    ensures AtLastRouteEdge in rs <==> atLastEdge
    ensures OnGoalEdge in rs <==> onGoalEdge
    ensures StuckAtPenultimateEdge in rs <==> stuck
    ensures forall i, j :: 0 <= i < j < |rs| ==> Rank(rs[i]) < Rank(rs[j])
  {
    (if inArrived then [InArrivedList] else [])
    + (if atLastEdge then [AtLastRouteEdge] else [])
    + (if onGoalEdge then [OnGoalEdge] else [])
    + (if stuck then [StuckAtPenultimateEdge] else [])
  }

  /** What the arrival queries answer in one tick. */
  datatype RouteView = RouteView(routeLength: int, routeIndex: int, currentEdge: string,
                                 inArrivedList: bool, speed: real, simTime: real)

  /** Position on the current lane and the lane's length. */
  datatype LaneView = LaneView(position: real, length: real)

  const StuckSpeed: real := 0.1
  const StuckTicks: int := 5
  const CrossingDistance: real := 5.0
  const MaxBaselineSteps: nat := 10000
  const MaxAdaptiveSteps: nat := 3600
  const Ambulance: string := "ambulance"

  predicate OnPenultimateEdge(rv: RouteView) {
    rv.routeIndex == rv.routeLength - 2
  }

  /** Within 1 m of the lane's end, below 0.1 m/s. */
  predicate StoppedAtLaneEnd(lane: LaneView, speed: real) {
    lane.length - lane.position < 1.0 && speed < StuckSpeed
  }

  // ---------------------------------------------------------------- baselines

  /**
   * The baselines' stuck counter: on the penultimate edge it counts consecutive ticks
   * stopped at the lane end and resets otherwise; off that edge, or when the lane
   * queries raise, it is left alone. The second component is the stuck verdict.
   */
  function StuckCounterStep(counter: int, rv: RouteView, lane: Option<LaneView>): (int, bool) {
    if OnPenultimateEdge(rv) then
      match lane
      case None => (counter, false)
      case Some(l) =>
        if StoppedAtLaneEnd(l, rv.speed) then (counter + 1, counter + 1 > StuckTicks) else (0, false)
    else (counter, false)
  }

  lemma StuckCounterRules(counter: int, rv: RouteView, lane: Option<LaneView>)
    ensures !OnPenultimateEdge(rv) || lane.None? ==> StuckCounterStep(counter, rv, lane) == (counter, false)
    ensures OnPenultimateEdge(rv) && lane.Some? && !StoppedAtLaneEnd(lane.value, rv.speed) ==>
              StuckCounterStep(counter, rv, lane) == (0, false)
    ensures OnPenultimateEdge(rv) && lane.Some? && StoppedAtLaneEnd(lane.value, rv.speed) ==>
              StuckCounterStep(counter, rv, lane).0 == counter + 1
    ensures StuckCounterStep(counter, rv, lane).1 <==>
              OnPenultimateEdge(rv) && lane.Some? && StoppedAtLaneEnd(lane.value, rv.speed) && counter >= StuckTicks
  {
  }

  /** A light the vehicle is about to pass. */
  datatype TlsSighting = TlsSighting(id: string, distance: real)

  /** The crossing counter over one tick's list of lights ahead: a light closer than 5 m counts once. */
  function Crossings(seen: set<string>, crossed: int, ahead: seq<TlsSighting>): (set<string>, int)
    decreases |ahead|
  {
    if ahead == [] then (seen, crossed)
    else
      var t := ahead[0];
      if t.distance < CrossingDistance && t.id !in seen then Crossings(seen + {t.id}, crossed + 1, ahead[1..])
      else Crossings(seen, crossed, ahead[1..])
  }

  /** The ids of the lights in `ahead` closer than 5 m. */
  function Close(ahead: seq<TlsSighting>): (ids: set<string>)
    ensures forall i :: 0 <= i < |ahead| && ahead[i].distance < CrossingDistance ==> ahead[i].id in ids
    ensures forall id :: id in ids ==> exists i :: 0 <= i < |ahead| && ahead[i].id == id && ahead[i].distance < CrossingDistance
  {
    set i | 0 <= i < |ahead| && ahead[i].distance < CrossingDistance :: ahead[i].id
  }

  lemma CloseOfTail(ahead: seq<TlsSighting>)
    requires ahead != []
    ensures Close(ahead) == (if ahead[0].distance < CrossingDistance then {ahead[0].id} else {}) + Close(ahead[1..])
  {
    var rest := ahead[1..];
    forall id | id in Close(rest) ensures id in Close(ahead) {
      var i :| 0 <= i < |rest| && rest[i].id == id && rest[i].distance < CrossingDistance;
      assert ahead[i + 1] == rest[i];
    }
    forall id | id in Close(ahead)
      ensures id in (if ahead[0].distance < CrossingDistance then {ahead[0].id} else {}) + Close(rest)
    {
      var i :| 0 <= i < |ahead| && ahead[i].id == id && ahead[i].distance < CrossingDistance;
      if i > 0 {
        assert rest[i - 1] == ahead[i];
      }
    }
  }

  /** After one tick the seen set holds exactly the earlier lights and the lights now closer than 5 m. */
  lemma {:induction false} CrossingsAddCloseLights(seen: set<string>, crossed: int, ahead: seq<TlsSighting>)
    ensures Crossings(seen, crossed, ahead).0 == seen + Close(ahead)
    decreases |ahead|
  {
    if ahead != [] {
      CloseOfTail(ahead);
      var t := ahead[0];
      if t.distance < CrossingDistance && t.id !in seen {
        CrossingsAddCloseLights(seen + {t.id}, crossed + 1, ahead[1..]);
      } else {
        CrossingsAddCloseLights(seen, crossed, ahead[1..]);
      }
    }
  }

  /** The counter grows by exactly the number of lights that were not seen before. */
  lemma {:induction false} CrossingsCountNewLights(seen: set<string>, crossed: int, ahead: seq<TlsSighting>)
    ensures seen <= Crossings(seen, crossed, ahead).0
    ensures Crossings(seen, crossed, ahead).1 == crossed + |Crossings(seen, crossed, ahead).0 - seen|
    decreases |ahead|
  {
    if ahead != [] {
      var t := ahead[0];
      if t.distance < CrossingDistance && t.id !in seen {
        CrossingsCountNewLights(seen + {t.id}, crossed + 1, ahead[1..]);
        var seen1 := Crossings(seen + {t.id}, crossed + 1, ahead[1..]).0;
        assert seen1 - seen == (seen1 - (seen + {t.id})) + {t.id};
      } else {
        CrossingsCountNewLights(seen, crossed, ahead[1..]);
      }
    }
  }

  /** The crossing loop of one tick. */
  method CountCrossings(seen: set<string>, crossed: int, ahead: seq<TlsSighting>)
    returns (seen1: set<string>, crossed1: int)
    ensures (seen1, crossed1) == Crossings(seen, crossed, ahead)
  {
    seen1, crossed1 := seen, crossed;
    var i := 0;
    while i < |ahead|
      invariant 0 <= i <= |ahead|
      invariant Crossings(seen, crossed, ahead) == Crossings(seen1, crossed1, ahead[i..])
    {
      assert ahead[i..][1..] == ahead[i + 1..];
      var t := ahead[i];
      if t.distance < CrossingDistance && t.id !in seen1 {
        crossed1 := crossed1 + 1;
        seen1 := seen1 + {t.id};
      }
      i := i + 1;
    }
  }

  /** One baseline tick's observations; `None` marks a query that raised. */
  datatype BaselineTick = BaselineTick(
    present: bool,                       // the vehicle is in the simulation's id list
    nextTls: Option<seq<TlsSighting>>,
    route: Option<RouteView>,
    lane: Option<LaneView>,
    fallbackEdge: Option<string>,        // road id read by the fallback check
    minExpected: int)                    // vehicles still expected after the step

  /** The fixed-weight A* run stops when no vehicle is expected any more; the Dijkstra run does not. */
  datatype Variant = StandardAStarRun | DijkstraRun

  datatype BaselineState = BaselineState(departed: bool, stuckCounter: int, crossed: int,
                                         seen: set<string>, arrival: Option<seq<Reason>>, steps: nat)

  const BaselineStart: BaselineState := BaselineState(false, 0, 0, {}, None, 0)

  predicate EndsQuietly(v: Variant, t: BaselineTick) {
    v == StandardAStarRun && t.minExpected == 0
  }

  /** One tick of a baseline run: the new state, and whether the loop stops. */
  function BaselineTickStep(s: BaselineState, t: BaselineTick, goal: string, v: Variant): (BaselineState, bool) {
    if t.present then
      var crossing := if t.nextTls.Some? then Crossings(s.seen, s.crossed, t.nextTls.value) else (s.seen, s.crossed);
      var s1 := s.(departed := true, seen := crossing.0, crossed := crossing.1);
      match t.route
      case Some(rv) =>
        var stuck := StuckCounterStep(s.stuckCounter, rv, t.lane);
        var rs := Reasons(rv.inArrivedList, rv.routeIndex == rv.routeLength - 1, rv.currentEdge == goal, stuck.1);
        var s2 := s1.(stuckCounter := stuck.0);
        if rs != [] then (s2.(arrival := Some(rs)), true) else (s2, EndsQuietly(v, t))
      case None =>
        if t.fallbackEdge == Some(goal) then (s1.(arrival := Some([OnGoalEdgeFallback])), true)
        else (s1, EndsQuietly(v, t))
    else if s.departed then (s.(arrival := Some([RemovedFromSimulation])), true)
    else (s, EndsQuietly(v, t))
  }

  /** A whole baseline run from state `s` over the remaining ticks. */
  function RunBaseline(s: BaselineState, ticks: seq<BaselineTick>, goal: string, v: Variant): BaselineState
    decreases |ticks|
  {
    if ticks == [] || s.steps >= MaxBaselineSteps then s
    else
      var next := BaselineTickStep(s.(steps := s.steps + 1), ticks[0], goal, v);
      if next.1 then next.0 else RunBaseline(next.0, ticks[1..], goal, v)
  }

  /** One tick keeps the crossing counter equal to the number of distinct lights seen. */
  lemma TickCountsDistinctLights(s: BaselineState, t: BaselineTick, goal: string, v: Variant)
    requires s.crossed == |s.seen|
    ensures var next := BaselineTickStep(s, t, goal, v).0;
            next.crossed == |next.seen| && s.seen <= next.seen && next.steps == s.steps
  {
    if t.present && t.nextTls.Some? {
      CrossingsCountNewLights(s.seen, s.crossed, t.nextTls.value);
      var seen1 := Crossings(s.seen, s.crossed, t.nextTls.value).0;
      assert |seen1| == |s.seen| + |seen1 - s.seen| by {
        assert seen1 == s.seen + (seen1 - s.seen);
      }
    }
  }

  /** The crossing counter always equals the number of distinct lights seen. */
  lemma {:induction false} RunBaselineCountsDistinctLights(s: BaselineState, ticks: seq<BaselineTick>,
                                                           goal: string, v: Variant)
    requires s.crossed == |s.seen|
    ensures RunBaseline(s, ticks, goal, v).crossed == |RunBaseline(s, ticks, goal, v).seen|
    ensures s.seen <= RunBaseline(s, ticks, goal, v).seen
    decreases |ticks|
  {
    if ticks != [] && s.steps < MaxBaselineSteps {
      var s0 := s.(steps := s.steps + 1);
      var next := BaselineTickStep(s0, ticks[0], goal, v);
      TickCountsDistinctLights(s0, ticks[0], goal, v);
      if !next.1 {
        RunBaselineCountsDistinctLights(next.0, ticks[1..], goal, v);
      }
    }
  }

  /** A tick that ends the run with an arrival gives a reason; a tick that does not end it records none. */
  lemma TickArrivalHasReason(s: BaselineState, t: BaselineTick, goal: string, v: Variant)
    requires s.arrival.None?
    ensures var next := BaselineTickStep(s, t, goal, v);
            && next.0.steps == s.steps
            && (next.0.arrival.Some? ==> next.0.arrival.value != [] && next.0.departed)
            && (!next.1 ==> next.0.arrival.None?)
  {
  }

  /** An arrival always carries at least one reason, and a run never exceeds the step limit. */
  lemma {:induction false} RunBaselineArrivalHasReason(s: BaselineState, ticks: seq<BaselineTick>,
                                                       goal: string, v: Variant)
    requires s.arrival.None? && s.steps <= MaxBaselineSteps
    ensures var f := RunBaseline(s, ticks, goal, v);
            && (f.arrival.Some? ==> f.arrival.value != [] && f.departed)
            && f.steps <= MaxBaselineSteps
            && f.steps <= s.steps + |ticks|
    decreases |ticks|
  {
    if ticks != [] && s.steps < MaxBaselineSteps {
      var s0 := s.(steps := s.steps + 1);
      var next := BaselineTickStep(s0, ticks[0], goal, v);
      assert RunBaseline(s, ticks, goal, v) == if next.1 then next.0 else RunBaseline(next.0, ticks[1..], goal, v);
      TickArrivalHasReason(s0, ticks[0], goal, v);
      if !next.1 {
        RunBaselineArrivalHasReason(next.0, ticks[1..], goal, v);
      }
    }
  }

  /** A departed vehicle that leaves the simulation ends the run with the single reason "removed". */
  lemma RemovedVehicleEndsRun(s: BaselineState, t: BaselineTick, rest: seq<BaselineTick>, goal: string, v: Variant)
    requires s.departed && s.steps < MaxBaselineSteps && !t.present
    ensures RunBaseline(s, [t] + rest, goal, v).arrival == Some([RemovedFromSimulation])
  {
    assert ([t] + rest)[0] == t;
  }

  /** The body of the baseline monitoring loop for one tick (the step counter is already advanced in `s`). */
  method MonitorBaselineTick(s: BaselineState, t: BaselineTick, goal: string, v: Variant)
    returns (next: BaselineState, stop: bool)
    ensures next == BaselineTickStep(s, t, goal, v).0
    ensures stop == BaselineTickStep(s, t, goal, v).1
  {
    next, stop := s, false;
    if t.present {
      next := next.(departed := true);
      if t.nextTls.Some? {
        var seen, crossed := CountCrossings(next.seen, next.crossed, t.nextTls.value);
        next := next.(seen := seen, crossed := crossed);
      }
      if t.route.Some? {
        var rv := t.route.value;
        var stuckAtPenultimate := false;
        if OnPenultimateEdge(rv) && t.lane.Some? {
          if StoppedAtLaneEnd(t.lane.value, rv.speed) {
            next := next.(stuckCounter := next.stuckCounter + 1);
            stuckAtPenultimate := next.stuckCounter > StuckTicks;
          } else {
            next := next.(stuckCounter := 0);
          }
        }
        var reasons := Reasons(rv.inArrivedList, rv.routeIndex == rv.routeLength - 1,
                               rv.currentEdge == goal, stuckAtPenultimate);
        if reasons != [] {
          next := next.(arrival := Some(reasons));
          stop := true;
        }
      } else if t.fallbackEdge == Some(goal) {
        next := next.(arrival := Some([OnGoalEdgeFallback]));
        stop := true;
      }
    } else if s.departed {
      next := next.(arrival := Some([RemovedFromSimulation]));
      stop := true;
    }
    if !stop && EndsQuietly(v, t) {
      stop := true;
    }
  }

  /** The monitoring loop of a baseline run. */
  method RunBaselineMonitor(ticks: seq<BaselineTick>, goal: string, v: Variant) returns (final: BaselineState)
    ensures final == RunBaseline(BaselineStart, ticks, goal, v)
    ensures final.crossed == |final.seen| && final.steps <= MaxBaselineSteps
  {
    RunBaselineCountsDistinctLights(BaselineStart, ticks, goal, v);
    RunBaselineArrivalHasReason(BaselineStart, ticks, goal, v);
    var state := BaselineStart;
    var i := 0;
    while state.steps < MaxBaselineSteps && i < |ticks|
      invariant i <= |ticks|
      invariant RunBaseline(BaselineStart, ticks, goal, v) == RunBaseline(state, ticks[i..], goal, v)
      decreases |ticks| - i
    {
      assert ticks[i..][1..] == ticks[i + 1..];
      var stop;
      state, stop := MonitorBaselineTick(state.(steps := state.steps + 1), ticks[i], goal, v);
      i := i + 1;
      if stop {
        return state;
      }
    }
    final := state;
  }

  // ---------------------------------------------------------------- adaptive run

  /**
   * What the guarded monitoring block reads in one tick. Its queries run in order and
   * the first one that raises ends the block, keeping what was assigned before it.
   */
  datatype MonitorView =
    | DistanceRaised                      // getDistance raised: nothing assigned
    | SpeedRaised(distance: real)         // getRoadID or getSpeed raised after the distance was read
    | Monitored(distance: real, speed: real)

  /** One adaptive tick's observations; the preemption observation also carries the presence flag and the lights ahead. */
  datatype AdaptiveTick = AdaptiveTick(
    minExpected: int,                    // vehicles expected, read before the step
    preempt: Observation,
    monitor: MonitorView,
    route: Option<RouteView>,
    lane: Option<LaneView>,
    fallbackEdge: Option<string>)        // None: the unguarded road query of the exception handler raised

  /** The fixed facts of an adaptive run: the goal edge, the spawn time and the planned route length. */
  datatype Mission = Mission(goal: string, startTime: real, totalDistance: real)

  /**
   * The adaptive run's state. `distanceCovered` and `speed` are the loop variables the
   * monitoring block assigns (`speed` is None until it is first assigned); `detected` is
   * `arrival_detected`; `arrival` holds the reported reasons; `aborted` records that an
   * exception escaped the loop body, which ends the run.
   */
  datatype AdaptiveState = AdaptiveState(registry: Registry, departed: bool, lightsPreempted: nat,
                                         lastPreempted: set<string>, distanceCovered: real, speed: Option<real>,
                                         detected: bool, arrival: Option<seq<Reason>>, steps: nat, aborted: bool)

  /** The state a run starts in, with the controller's registry. */
  function InitialAdaptive(r: Registry): AdaptiveState {
    AdaptiveState(r, false, 0, {}, 0.0, None, false, None, 0, false)
  }

  /** The lights of `last` that are still the next light ahead. */
  function KeepAhead(last: set<string>, ahead: seq<TlsAhead>): (kept: set<string>)
    ensures kept <= last
    ensures ahead == [] ==> kept == {}
    ensures ahead != [] ==> kept <= {ahead[0].id} && (ahead[0].id in last ==> kept == {ahead[0].id})
  {
    if ahead == [] then {} else set t | t in last && t == ahead[0].id
  }

  /** The preemption counter: a successful preemption counts once per light, then passed lights are forgotten. */
  function PreemptionCounting(count: nat, last: set<string>, ahead: seq<TlsAhead>, preempted: bool): (nat, set<string>) {
    if ahead != [] && preempted && ahead[0].id !in last then (count + 1, KeepAhead(last + {ahead[0].id}, ahead))
    else (count, KeepAhead(last, ahead))
  }

  lemma PreemptionCountingRules(count: nat, last: set<string>, ahead: seq<TlsAhead>, preempted: bool)
    ensures var (c, l) := PreemptionCounting(count, last, ahead, preempted);
            && (c == count + 1 <==> ahead != [] && preempted && ahead[0].id !in last)
            && (c == count || c == count + 1)
            && (ahead == [] ==> l == {})
            && (ahead != [] ==> l <= {ahead[0].id})
            && (ahead != [] && preempted ==> l == {ahead[0].id})
  {
  }

  /** The preemption call of a tick; it is made only when a light is ahead. */
  function PreemptCall(r: Registry, obs: Observation): (Registry, Outcome) {
    if obs.nextTls != [] then Step(r, Ambulance, obs, DefaultParams) else (r, NoAction)
  }

  /** The state after a tick's preemption call and counting, before the arrival check. */
  function AfterPreemption(s: AdaptiveState, t: AdaptiveTick): AdaptiveState {
    var ahead := t.preempt.nextTls;
    var call := PreemptCall(s.registry, t.preempt);
    var counting := PreemptionCounting(s.lightsPreempted, s.lastPreempted, ahead, call.1.preempted);
    s.(registry := call.0, departed := true, lightsPreempted := counting.0, lastPreempted := counting.1)
  }

  /**
   * The monitoring block: the distance and speed it manages to read before a query raises.
   * The weights are computed right after the speed and cannot raise, so `speed` is assigned
   * exactly when the weights `w_d` and `w_t` are.
   */
  function AfterMonitoring(s: AdaptiveState, m: MonitorView): AdaptiveState {
    match m
    case DistanceRaised => s
    case SpeedRaised(d) => s.(distanceCovered := d)
    case Monitored(d, v) => s.(distanceCovered := d, speed := Some(v))
  }

  /**
   * One adaptive tick: preempt, count, monitor, then check arrival with the elapsed time
   * since spawn.
   */
  function AdaptiveTickStep(s: AdaptiveState, t: AdaptiveTick, mission: Mission): (AdaptiveState, bool) {
    if t.preempt.vehicleKnown then ArrivalCheck(AfterMonitoring(AfterPreemption(s, t), t.monitor), t, mission) else (s, false)
  }

  /**
   * The stuck test on the penultimate edge: at the lane's end, with the speed last read by
   * the monitoring block below 0.1 m/s, more than 5 s after spawn. A speed never assigned
   * raises inside the test's own handler, which reads as not stuck.
   */
  predicate StuckAtPenultimate(s1: AdaptiveState, rv: RouteView, lane: Option<LaneView>, mission: Mission) {
    && OnPenultimateEdge(rv) && lane.Some? && s1.speed.Some?
    && StoppedAtLaneEnd(lane.value, s1.speed.value) && rv.simTime - mission.startTime > 5.0
  }

  /** Whether the arrival queries of one tick confirm an arrival by any of the four tests. */
  predicate Detects(s1: AdaptiveState, rv: RouteView, lane: Option<LaneView>, mission: Mission) {
    rv.inArrivedList || rv.routeIndex == rv.routeLength - 1 || rv.currentEdge == mission.goal
    || StuckAtPenultimate(s1, rv, lane, mission)
  }

  /** The reasons the arrival queries give in one tick, in report order. */
  function DetectionReasons(s1: AdaptiveState, rv: RouteView, lane: Option<LaneView>, mission: Mission): seq<Reason> {
    Reasons(rv.inArrivedList, rv.routeIndex == rv.routeLength - 1, rv.currentEdge == mission.goal,
            StuckAtPenultimate(s1, rv, lane, mission))
  }

  /**
   * The progress line printed on arrival names `speed`, `w_d` and `w_t`; it is printed when
   * the route has a length and some distance was read, and raises when the speed (and with
   * it the weights) was never assigned.
   */
  predicate ProgressPrintRaises(s1: AdaptiveState, mission: Mission) {
    mission.totalDistance > 0.0 && s1.distanceCovered > 0.0 && s1.speed.None?
  }

  /**
   * The arrival check of an adaptive tick; true when the run ends. A detection whose progress
   * line raises has already set `detected`: the exception handler then only reads the road,
   * which ends nothing since an arrival was detected, and later ticks no longer detect. When
   * the handler's road query raises, the run is aborted.
   */
  function ArrivalCheck(s1: AdaptiveState, t: AdaptiveTick, mission: Mission): (AdaptiveState, bool) {
    match t.route
    case Some(rv) =>
      if s1.detected || !Detects(s1, rv, t.lane, mission) then (s1, false)
      else if !ProgressPrintRaises(s1, mission) then
        (s1.(detected := true, arrival := Some(DetectionReasons(s1, rv, t.lane, mission))), true)
      else Handler(s1.(detected := true), t.fallbackEdge, mission.goal)
    case None => Handler(s1, t.fallbackEdge, mission.goal)
  }

  /** The exception handler of the arrival check: the goal-edge test, or an abort when its road query raises. */
  function Handler(s1: AdaptiveState, edge: Option<string>, goal: string): (AdaptiveState, bool) {
    match edge
    case None => (s1.(aborted := true), true)
    case Some(e) =>
      if e == goal && !s1.detected then (s1.(detected := true, arrival := Some([OnGoalEdgeFallback])), true)
      else (s1, false)
  }

  /** The arrival check changes only the detection, the arrival and the abort flag; it never clears a detection. */
  lemma ArrivalCheckKeeps(s1: AdaptiveState, t: AdaptiveTick, mission: Mission)
    ensures var a := ArrivalCheck(s1, t, mission).0;
            && a.(detected := s1.detected, arrival := s1.arrival, aborted := s1.aborted) == s1
            && (s1.detected ==> a.detected && a.arrival == s1.arrival)
            && (a.arrival != s1.arrival ==> a.detected && ArrivalCheck(s1, t, mission).1)
  {
  }

  /** The adaptive loop: ticks until the vehicles run out, the step cap is reached or a tick ends the run. */
  function RunAdaptive(s: AdaptiveState, ticks: seq<AdaptiveTick>, mission: Mission): AdaptiveState
    decreases |ticks|, 1
  {
    if ticks == [] || ticks[0].minExpected <= 0 || s.steps >= MaxAdaptiveSteps then s
    else RunAdaptiveAfter(AdaptiveTickStep(s.(steps := s.steps + 1), ticks[0], mission), ticks[1..], mission)
  }

  /** The loop after one tick: stop with its state, or go on with the remaining ticks. */
  function RunAdaptiveAfter(next: (AdaptiveState, bool), rest: seq<AdaptiveTick>, mission: Mission): AdaptiveState
    decreases |rest|, 2
  {
    if next.1 then next.0 else RunAdaptive(next.0, rest, mission)
  }

  /** One adaptive tick adds at most one to the counter, keeps at most one counted light and the registry invariant. */
  lemma AdaptiveTickBounds(s: AdaptiveState, t: AdaptiveTick, mission: Mission)
    requires Inv(s.registry, DefaultParams)
    ensures var next := AdaptiveTickStep(s, t, mission).0;
            && (next.lightsPreempted == s.lightsPreempted || next.lightsPreempted == s.lightsPreempted + 1)
            && (t.preempt.vehicleKnown ==> |next.lastPreempted| <= 1)
            && (!t.preempt.vehicleKnown ==> next.lastPreempted == s.lastPreempted)
            && Inv(next.registry, DefaultParams)
            && s.registry.gridlock <= next.registry.gridlock
            && next.steps == s.steps
  {
    if t.preempt.vehicleKnown {
      AfterPreemptionBounds(s, t);
      ArrivalCheckKeeps(AfterMonitoring(AfterPreemption(s, t), t.monitor), t, mission);
    }
  }

  /**
   * An arrival detected in a tick whose progress line raises: the detection is set, but no
   * reasons are reported and the handler's road test does not end the run.
   */
  predicate UnreportedDetection(s1: AdaptiveState, t: AdaptiveTick, mission: Mission) {
    && t.route.Some? && !s1.detected
    && Detects(s1, t.route.value, t.lane, mission) && ProgressPrintRaises(s1, mission)
  }

  /**
   * A tick aborts exactly when the handler's road query raises and the handler was entered,
   * because the arrival queries raised or the progress line of a detection did; an aborting
   * tick ends the run and reports no arrival.
   */
  lemma AdaptiveTickAborts(s: AdaptiveState, t: AdaptiveTick, mission: Mission)
    requires !s.aborted
    ensures var s1 := AfterMonitoring(AfterPreemption(s, t), t.monitor);
            var next := AdaptiveTickStep(s, t, mission);
            && (next.0.aborted <==> t.preempt.vehicleKnown && t.fallbackEdge.None?
                                    && (t.route.None? || UnreportedDetection(s1, t, mission)))
            && (next.0.aborted ==> next.1 && next.0.arrival == s.arrival)
            && (!next.1 ==> !next.0.aborted && next.0.arrival == s.arrival)
  {
    if t.preempt.vehicleKnown {
      ArrivalCheckKeeps(AfterMonitoring(AfterPreemption(s, t), t.monitor), t, mission);
    }
  }

  lemma AfterPreemptionBounds(s: AdaptiveState, t: AdaptiveTick)
    requires Inv(s.registry, DefaultParams)
    ensures var a := AfterPreemption(s, t);
            && (a.lightsPreempted == s.lightsPreempted || a.lightsPreempted == s.lightsPreempted + 1)
            && |a.lastPreempted| <= 1
            && Inv(a.registry, DefaultParams)
            && s.registry.gridlock <= a.registry.gridlock
            && a.steps == s.steps
  {
    var ahead := t.preempt.nextTls;
    var call := PreemptCall(s.registry, t.preempt);
    PreemptCallKeepsInvariant(s.registry, t.preempt);
    var l := PreemptionCounting(s.lightsPreempted, s.lastPreempted, ahead, call.1.preempted).1;
    if ahead != [] {
      SubsetOfSingletonSize(l, ahead[0].id);
    }
  }

  lemma PreemptCallKeepsInvariant(r: Registry, obs: Observation)
    requires Inv(r, DefaultParams)
    ensures Inv(PreemptCall(r, obs).0, DefaultParams) && r.gridlock <= PreemptCall(r, obs).0.gridlock
  {
    if obs.nextTls != [] {
      StepKeepsInvariant(r, Ambulance, obs, DefaultParams);
      GridlockIsAbsorbing(r, Ambulance, obs, DefaultParams);
    }
  }

  /**
   * Over a whole adaptive run: the preemption counter grows by at most one per tick, the set of
   * counted lights holds at most the light ahead, and the signal registry keeps its gridlock invariant.
   */
  lemma {:induction false} RunAdaptiveBounds(s: AdaptiveState, ticks: seq<AdaptiveTick>, mission: Mission)
    requires Inv(s.registry, DefaultParams) && |s.lastPreempted| <= 1
    ensures RunBounds(s, RunAdaptive(s, ticks, mission))
    decreases |ticks|, 1
  {
    if ticks != [] && ticks[0].minExpected > 0 && s.steps < MaxAdaptiveSteps {
      var next := AdaptiveTickStep(s.(steps := s.steps + 1), ticks[0], mission);
      assert RunAdaptive(s, ticks, mission) == RunAdaptiveAfter(next, ticks[1..], mission);
      CountedTickBounds(s, ticks[0], mission);
      RunAdaptiveAfterBounds(s, next, ticks[1..], mission);
    }
  }

  /** A counted tick keeps the run's bounds for one step. */
  lemma CountedTickBounds(s: AdaptiveState, t: AdaptiveTick, mission: Mission)
    requires Inv(s.registry, DefaultParams) && |s.lastPreempted| <= 1
    ensures var next := AdaptiveTickStep(s.(steps := s.steps + 1), t, mission).0;
            RunBounds(s, next) && next.steps == s.steps + 1
  {
    AdaptiveTickBounds(s.(steps := s.steps + 1), t, mission);
  }

  /** The bounds `RunAdaptiveBounds` keeps between a state and a later one of the same run. */
  ghost predicate RunBounds(s: AdaptiveState, final: AdaptiveState) {
    && s.lightsPreempted <= final.lightsPreempted
    && final.lightsPreempted - s.lightsPreempted <= final.steps - s.steps
    && |final.lastPreempted| <= 1
    && Inv(final.registry, DefaultParams)
    && s.registry.gridlock <= final.registry.gridlock
  }

  /** The inductive step of `RunAdaptiveBounds`, for a tick result that keeps the bounds for one step. */
  lemma {:induction false} RunAdaptiveAfterBounds(s: AdaptiveState, next: (AdaptiveState, bool), rest: seq<AdaptiveTick>,
                                                  mission: Mission)
    requires RunBounds(s, next.0) && next.0.steps == s.steps + 1
    ensures RunBounds(s, RunAdaptiveAfter(next, rest, mission))
    decreases |rest|, 2
  {
    if !next.1 {
      RunAdaptiveBounds(next.0, rest, mission);
    }
  }

  /**
   * When the arrival queries and the handler's road query both raise, the exception leaves
   * the loop: the run ends aborted at that tick, without an arrival.
   */
  lemma RaisingFallbackAbortsRun(s: AdaptiveState, t: AdaptiveTick, rest: seq<AdaptiveTick>, mission: Mission)
    requires t.minExpected > 0 && s.steps < MaxAdaptiveSteps
    requires t.preempt.vehicleKnown && t.route.None? && t.fallbackEdge.None?
    ensures var final := RunAdaptive(s, [t] + rest, mission);
            final.aborted && final.arrival == s.arrival && final.steps == s.steps + 1
  {
    assert ([t] + rest)[0] == t;
  }

  /** A run that starts clean ends with an arrival, an abort, or neither, but never both. */
  lemma {:induction false} RunAdaptiveEndsOnce(s: AdaptiveState, ticks: seq<AdaptiveTick>, mission: Mission)
    requires !s.aborted && s.arrival.None?
    ensures var final := RunAdaptive(s, ticks, mission);
            !(final.aborted && final.arrival.Some?)
    decreases |ticks|
  {
    if ticks != [] && ticks[0].minExpected > 0 && s.steps < MaxAdaptiveSteps {
      var next := AdaptiveTickStep(s.(steps := s.steps + 1), ticks[0], mission);
      assert RunAdaptive(s, ticks, mission) == RunAdaptiveAfter(next, ticks[1..], mission);
      AdaptiveTickAborts(s.(steps := s.steps + 1), ticks[0], mission);
      if !next.1 {
        RunAdaptiveEndsOnce(next.0, ticks[1..], mission);
      }
    }
  }

  /**
   * Once an arrival is detected, no tick reports one any more: the run keeps its (missing)
   * arrival and goes on until the vehicles run out, the step cap or an abort.
   */
  lemma {:induction false} DetectedRunNeverReports(s: AdaptiveState, ticks: seq<AdaptiveTick>, mission: Mission)
    requires s.detected
    ensures var final := RunAdaptive(s, ticks, mission);
            final.detected && final.arrival == s.arrival
    decreases |ticks|
  {
    if ticks != [] && ticks[0].minExpected > 0 && s.steps < MaxAdaptiveSteps {
      var s0 := s.(steps := s.steps + 1);
      var next := AdaptiveTickStep(s0, ticks[0], mission);
      assert RunAdaptive(s, ticks, mission) == RunAdaptiveAfter(next, ticks[1..], mission);
      if ticks[0].preempt.vehicleKnown {
        ArrivalCheckKeeps(AfterMonitoring(AfterPreemption(s0, ticks[0]), ticks[0].monitor), ticks[0], mission);
      }
      if !next.1 {
        DetectedRunNeverReports(next.0, ticks[1..], mission);
      }
    }
  }

  /**
   * The vehicle shows up in the arrived list, but the monitoring block has never read its
   * speed while it did read a distance: the progress line raises after the detection, the
   * handler's road test ends nothing, and the run goes on without ever reporting an arrival.
   */
  lemma UnreportedArrivalRunsOn(s: AdaptiveState, t: AdaptiveTick, rest: seq<AdaptiveTick>, mission: Mission)
    requires t.minExpected > 0 && s.steps < MaxAdaptiveSteps && !s.detected && s.arrival.None?
    requires t.preempt.vehicleKnown && t.route.Some? && t.route.value.inArrivedList && t.fallbackEdge.Some?
    requires s.speed.None? && t.monitor.SpeedRaised? && t.monitor.distance > 0.0 && mission.totalDistance > 0.0
    ensures var next := AdaptiveTickStep(s.(steps := s.steps + 1), t, mission);
            && !next.1 && next.0.detected && next.0.arrival.None?
            && RunAdaptive(s, [t] + rest, mission) == RunAdaptive(next.0, rest, mission)
            && RunAdaptive(s, [t] + rest, mission).arrival.None?
  {
    var s0 := s.(steps := s.steps + 1);
    var s1 := AfterMonitoring(AfterPreemption(s0, t), t.monitor);
    assert ([t] + rest)[0] == t && ([t] + rest)[1..] == rest;
    DetectedRunNeverReports(AdaptiveTickStep(s0, t, mission).0, rest, mission);
  }

  lemma SubsetOfSingletonSize(l: set<string>, x: string)
    requires l <= {x}
    ensures |l| <= 1
  {
    if l != {} {
      assert l == {x};
    }
  }

  /** The cleanup loop: drops every counted light that is no longer the next light ahead. */
  method DropPassedLights(last: set<string>, ahead: seq<TlsAhead>) returns (kept: set<string>)
    ensures kept == KeepAhead(last, ahead)
  {
    kept := last;
    var pending := last;
    while pending != {}
      invariant pending <= last && kept <= last
      invariant forall t :: t in last - pending ==> (t in kept <==> ahead != [] && t == ahead[0].id)
      invariant forall t :: t in pending ==> t in kept
      decreases |pending|
    {
      var t :| t in pending;
      if ahead == [] || t != ahead[0].id {
        kept := kept - {t};
      }
      pending := pending - {t};
    }
  }

  /** The preemption call of a tick and the counting that follows it. */
  method PreemptAndCount(controller: TrafficLightController, s: AdaptiveState, t: AdaptiveTick)
    returns (count: nat, last: set<string>)
    requires s.registry == controller.State()
    modifies controller
    ensures controller.State() == PreemptCall(s.registry, t.preempt).0
    ensures (count, last) == PreemptionCounting(s.lightsPreempted, s.lastPreempted, t.preempt.nextTls,
                                                PreemptCall(s.registry, t.preempt).1.preempted)
  {
    var ahead := t.preempt.nextTls;
    ghost var call := PreemptCall(s.registry, t.preempt);
    var preempted := false;
    count := s.lightsPreempted;
    last := s.lastPreempted;
    if ahead != [] {
      var commands;
      preempted, commands := controller.PreemptTrafficLights(Ambulance, t.preempt, DefaultParams);
      if preempted && ahead[0].id !in last {
        count := count + 1;
        last := last + {ahead[0].id};
      }
    }
    assert controller.State() == call.0 && preempted == call.1.preempted;
    last := DropPassedLights(last, ahead);
  }

  /** The body of the adaptive monitoring loop for one tick (the step counter is already advanced in `s`). */
  method MonitorAdaptiveTick(controller: TrafficLightController, s: AdaptiveState, t: AdaptiveTick,
                             mission: Mission)
    returns (next: AdaptiveState, stop: bool)
    requires s.registry == controller.State()
    modifies controller
    ensures next == AdaptiveTickStep(s, t, mission).0
    ensures stop == AdaptiveTickStep(s, t, mission).1
    ensures next.registry == controller.State()
  {
    next, stop := s, false;
    if !t.preempt.vehicleKnown {
      return;
    }
    var count, last := PreemptAndCount(controller, s, t);
    next := s.(registry := controller.State(), departed := true, lightsPreempted := count, lastPreempted := last);
    match t.monitor {
      case DistanceRaised =>
      case SpeedRaised(d) =>
        next := next.(distanceCovered := d);
      case Monitored(d, v) =>
        next := next.(distanceCovered := d, speed := Some(v));
    }
    next, stop := CheckArrival(next, t, mission);
  }

  /** The arrival check of the adaptive loop body, with its exception handler. */
  method CheckArrival(s1: AdaptiveState, t: AdaptiveTick, mission: Mission) returns (next: AdaptiveState, stop: bool)
    ensures (next, stop) == ArrivalCheck(s1, t, mission)
  {
    next, stop := s1, false;
    var handled := true;
    if t.route.Some? {
      handled := false;
      var rv := t.route.value;
      if !next.detected {
        var stuckAtPenultimate := OnPenultimateEdge(rv) && t.lane.Some? && next.speed.Some?
                                  && StoppedAtLaneEnd(t.lane.value, next.speed.value)
                                  && rv.simTime - mission.startTime > 5.0;
        var atLastEdge := rv.routeIndex == rv.routeLength - 1;
        var onGoalEdge := rv.currentEdge == mission.goal;
        if rv.inArrivedList || atLastEdge || onGoalEdge || stuckAtPenultimate {
          next := next.(detected := true);
          if mission.totalDistance > 0.0 && next.distanceCovered > 0.0 && next.speed.None? {
            handled := true;
          } else {
            next := next.(arrival := Some(Reasons(rv.inArrivedList, atLastEdge, onGoalEdge, stuckAtPenultimate)));
            stop := true;
          }
        }
      }
    }
    if handled {
      if t.fallbackEdge.None? {
        next := next.(aborted := true);
        stop := true;
      } else if t.fallbackEdge.value == mission.goal && !next.detected {
        next := next.(detected := true, arrival := Some([OnGoalEdgeFallback]));
        stop := true;
      }
    }
  }

  /** The adaptive monitoring loop, driving the shared signal controller. */
  method RunAdaptiveMonitor(controller: TrafficLightController, ticks: seq<AdaptiveTick>, mission: Mission)
    returns (final: AdaptiveState)
    modifies controller
    ensures final == RunAdaptive(InitialAdaptive(old(controller.State())), ticks, mission)
    ensures final.registry == controller.State()
    ensures Inv(old(controller.State()), DefaultParams) ==>
              Inv(final.registry, DefaultParams) && |final.lastPreempted| <= 1 && final.lightsPreempted <= final.steps
  {
    ghost var start := InitialAdaptive(controller.State());
    if Inv(start.registry, DefaultParams) {
      RunAdaptiveBounds(start, ticks, mission);
    }
    var state := InitialAdaptive(controller.State());
    var i := 0;
    while i < |ticks| && ticks[i].minExpected > 0 && state.steps < MaxAdaptiveSteps
      invariant i <= |ticks|
      invariant state.registry == controller.State()
      invariant RunAdaptive(start, ticks, mission) == RunAdaptive(state, ticks[i..], mission)
      decreases |ticks| - i
    {
      assert ticks[i..][1..] == ticks[i + 1..];
      var stop;
      state, stop := MonitorAdaptiveTick(controller, state.(steps := state.steps + 1), ticks[i], mission);
      i := i + 1;
      if stop {
        return state;
      }
    }
    final := state;
  }
}
