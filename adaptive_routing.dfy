/**
 * The adaptive router: the per-candidate cost f = g + h computed with fresh adaptive
 * weights, the greedy choice of the next edge, the static per-edge effort handed to
 * the external route engine, and the fallback when that engine returns no usable route.
 *
 * The network and the simulator are oracles: `outgoing` lists the edges leaving an edge,
 * `distance` is the road distance (negative when unreachable), `speedOf` is the speed
 * limit lookup (None when the lookup raises).
 */
module AdaptiveRouting {
  import opened Common
  import opened AdaptiveWeights
  import Config

  /** One diagnostic record appended on every weight computation. */
  datatype WeightSample = WeightSample(edge: string, distanceWeight: real, timeWeight: real,
                                       progress: real, congestionShift: real)

  /** The routing context as a value: what a `RouteContext` object holds at one moment. */
  datatype ContextState = ContextState(
    startTime: Option<real>,
    totalDistance: real,
    distanceTraveled: real,
    timeAccumulated: real,
    severity: string,
    goalEdge: Option<string>,   // None until a route computation records the goal
    weightHistory: seq<WeightSample>)

  datatype Network = Network(
    outgoing: string -> seq<string>,
    distance: (string, string) -> real,
    speedOf: string -> Option<real>)

  /** A network edge as the effort pass sees it. */
  datatype EdgeInfo = EdgeInfo(id: string, length: real, speed: real)

  /** Speed limit of an edge, 40 m/s when the lookup fails. */
  function SpeedLimit(net: Network, edge: string): real {
    match net.speedOf(edge)
    case None => 40.0
    case Some(v) => v
  }

  function TravelTime(distance: real, speed: real): real {
    distance / Max(speed, 1.0)
  }

  /** Every recorded sample splits the weight exactly and respects the cap. */
  ghost predicate HistoryWellFormed(history: seq<WeightSample>) {
    forall i :: 0 <= i < |history| ==>
      history[i].distanceWeight + history[i].timeWeight == 1.0 && history[i].timeWeight <= 0.95
      && history[i].congestionShift == 0.0
  }

  /** One call of the weight engine: the weights and the context with one more sample. */
  function WeighStep(s: ContextState, baseTime: real, edge: string, hour: int): (Weights, ContextState) {
    var w := ComputeWeights(baseTime, s.totalDistance, s.distanceTraveled, s.severity, hour);
    var sample := WeightSample(edge, w.distance, w.time,
                               ProgressRatio(s.totalDistance, s.distanceTraveled), CongestionShift);
    (w, s.(weightHistory := s.weightHistory + [sample]))
  }

  /**
   * g(n): cost from the start edge to `node`. It overwrites the distance travelled and the
   * accumulated time of the context, after the weights have been taken.
   */
  function CalcCost(s: ContextState, baseTime: real, net: Network, startEdge: string,
                    node: string, hour: int): (Cost, ContextState)
  {
    var d := net.distance(startEdge, node);
    if d < 0.0 then (Inf, s)
    else
      var tt := TravelTime(d, SpeedLimit(net, node));
      if s.goalEdge.None? then (Inf, s)   // the goal attribute is read before the weights
      else
        var (w, s1) := WeighStep(s, baseTime, node, hour);
        (Fin(w.distance * d + w.time * tt), s1.(distanceTraveled := d, timeAccumulated := tt))
  }

  /** h(n): estimated cost from `node` to the goal, with weights taken from the current context. */
  function HeuristicCost(s: ContextState, baseTime: real, net: Network, node: string,
                         goal: string, hour: int): (Cost, ContextState)
  {
    var d := net.distance(node, goal);
    if d < 0.0 then (Inf, s)
    else
      var tt := TravelTime(d, SpeedLimit(net, node));
      var (w, s1) := WeighStep(s, baseTime, node, hour);
      (Fin(w.distance * d + w.time * tt), s1)
  }

  /** f(n) = g(n) + h(n); g runs first, so h sees the distance g recorded. */
  function Evaluate(s: ContextState, baseTime: real, net: Network, node: string, startEdge: string,
                    goal: string, hour: int): (Cost, ContextState)
  {
    var (g, s1) := CalcCost(s, baseTime, net, startEdge, node, hour);
    var (h, s2) := HeuristicCost(s1, baseTime, net, node, goal, hour);
    (g.Plus(h), s2)
  }

  /** The costs of the candidates in order, threading the context from one to the next. */
  function EvaluateAll(s: ContextState, baseTime: real, net: Network, candidates: seq<string>,
                       current: string, goal: string, hour: int): (r: (seq<Cost>, ContextState))
    ensures |r.0| == |candidates|
  {
    if candidates == [] then ([], s)
    else
      var (costs, s1) := EvaluateAll(s, baseTime, net, candidates[..|candidates| - 1], current, goal, hour);
      var (c, s2) := Evaluate(s1, baseTime, net, candidates[|candidates| - 1], current, goal, hour);
      (costs + [c], s2)
  }

  /** Evaluating one more candidate extends the costs by its f and threads the context through. */
  lemma EvaluateAllStep(s: ContextState, baseTime: real, net: Network, candidates: seq<string>, i: nat,
                        current: string, goal: string, hour: int)
    requires i < |candidates|
    ensures var before := EvaluateAll(s, baseTime, net, candidates[..i], current, goal, hour);
            var step := Evaluate(before.1, baseTime, net, candidates[i], current, goal, hour);
            EvaluateAll(s, baseTime, net, candidates[..i + 1], current, goal, hour) == (before.0 + [step.0], step.1)
  {
    assert candidates[..i + 1][..i] == candidates[..i];
  }

  /** The edge `find_next_edge` returns, and the context it leaves behind. */
  function NextEdge(s: ContextState, baseTime: real, net: Network, current: string, goal: string,
                    hour: int): (Option<string>, ContextState)
  {
    var outs := net.outgoing(current);
    if outs == [] then (None, s)
    else
      var (costs, s1) := EvaluateAll(s, baseTime, net, outs, current, goal, hour);
      match FirstMinIndex(costs)
      case None => (None, s1)
      case Some(k) => (Some(outs[k]), s1)
  }

  /** A negative road distance makes g infinite and so f infinite, and leaves the context alone. */
  lemma UnreachableIsInfinite(s: ContextState, baseTime: real, net: Network, node: string,
                              startEdge: string, goal: string, hour: int)
    requires net.distance(startEdge, node) < 0.0
    ensures Evaluate(s, baseTime, net, node, startEdge, goal, hour).0 == Inf
    ensures CalcCost(s, baseTime, net, startEdge, node, hour) == (Inf, s)
  {
  }

  /** The f values of the edges leaving `current`, in the order the network lists them. */
  function CandidateCosts(s: ContextState, baseTime: real, net: Network, current: string,
                          goal: string, hour: int): (costs: seq<Cost>)
    ensures |costs| == |net.outgoing(current)|
  {
    EvaluateAll(s, baseTime, net, net.outgoing(current), current, goal, hour).0
  }

  /** The chosen edge is an outgoing edge whose f is finite and first-minimal; None means no finite f. */
  lemma {:induction false} NextEdgeIsFirstMinimum(s: ContextState, baseTime: real, net: Network,
                                                  current: string, goal: string, hour: int)
    ensures NextEdge(s, baseTime, net, current, goal, hour).0.None?
            <==> forall j :: 0 <= j < |net.outgoing(current)| ==> CandidateCosts(s, baseTime, net, current, goal, hour)[j].Inf?
    ensures NextEdge(s, baseTime, net, current, goal, hour).0.Some? ==>
              exists k :: 0 <= k < |net.outgoing(current)|
                && NextEdge(s, baseTime, net, current, goal, hour).0.value == net.outgoing(current)[k]
                && IsFirstMinimum(CandidateCosts(s, baseTime, net, current, goal, hour), k)
  {
    var outs := net.outgoing(current);
    var costs := CandidateCosts(s, baseTime, net, current, goal, hour);
    var k := FirstMinIndex(costs);
    var next := NextEdge(s, baseTime, net, current, goal, hour).0;
    if outs != [] {
      assert next == (if k.None? then None else Some(outs[k.value]));
      if k.Some? {
        assert IsFirstMinimum(costs, k.value);
      }
    }
  }

  /** Every engine call keeps the history well formed and only appends to it. */
  lemma WeighStepKeepsHistory(s: ContextState, baseTime: real, edge: string, hour: int)
    requires HistoryWellFormed(s.weightHistory)
    ensures var s1 := WeighStep(s, baseTime, edge, hour).1;
            HistoryWellFormed(s1.weightHistory) && |s1.weightHistory| == |s.weightHistory| + 1
            && s1.weightHistory[..|s.weightHistory|] == s.weightHistory
  {
  }

  /** Evaluating any candidate list keeps the history well formed, extends it and never rewrites it. */
  lemma {:induction false} EvaluateAllKeepsHistory(s: ContextState, baseTime: real, net: Network,
                                                   candidates: seq<string>, current: string,
                                                   goal: string, hour: int)
    requires HistoryWellFormed(s.weightHistory)
    ensures var s1 := EvaluateAll(s, baseTime, net, candidates, current, goal, hour).1;
            HistoryWellFormed(s1.weightHistory) && s.weightHistory <= s1.weightHistory
            && s1.severity == s.severity && s1.totalDistance == s.totalDistance
            && s1.goalEdge == s.goalEdge
  {
    if candidates != [] {
      var init := candidates[..|candidates| - 1];
      EvaluateAllKeepsHistory(s, baseTime, net, init, current, goal, hour);
      var s1 := EvaluateAll(s, baseTime, net, init, current, goal, hour).1;
      var node := candidates[|candidates| - 1];
      var d := net.distance(current, node);
      var s2 := CalcCost(s1, baseTime, net, current, node, hour).1;
      if d >= 0.0 && s1.goalEdge.Some? {
        WeighStepKeepsHistory(s1, baseTime, node, hour);
      }
      if net.distance(node, goal) >= 0.0 {
        WeighStepKeepsHistory(s2, baseTime, node, hour);
      }
    }
  }

  /** Ids starting with ':' are junction-internal edges. */
  predicate IsInternal(id: string) {
    |id| > 0 && id[0] == ':'
  }

  /** The weights of the effort pass: severity shift only, capped at 0.95. */
  function StaticWeights(baseTime: real, severity: string): (w: Weights)
    ensures w.distance + w.time == 1.0 && w.time <= 0.95
  {
    var tw := Min(Config.MaxTimeWeight, baseTime + SeverityShift(severity));
    Weights(1.0 - tw, tw)
  }

  /** The static effort of one edge: weighted length plus ten times the weighted travel time. */
  function StaticEffort(length: real, speed: real, baseTime: real, severity: string): real {
    var w := StaticWeights(baseTime, severity);
    w.distance * length + w.time * TravelTime(length, speed) * 10.0
  }

  /** The static weights are the adaptive weights before any travel, outside rush hour. */
  lemma StaticWeightsAreEngineWeightsAtStart(baseTime: real, severity: string, totalDistance: real, hour: int)
    requires !IsRushHour(hour)
    ensures StaticWeights(baseTime, severity) == ComputeWeights(baseTime, totalDistance, 0.0, severity, hour)
  {
    if totalDistance > 0.0 {
      assert 0.0 / totalDistance == 0.0;
    }
  }

  /** A non-negative length never gets a negative effort when the base time weight is non-negative. */
  lemma StaticEffortNonNegative(length: real, speed: real, baseTime: real, severity: string)
    requires length >= 0.0 && baseTime >= 0.0
    ensures StaticEffort(length, speed, baseTime, severity) >= 0.0
  {
    var w := StaticWeights(baseTime, severity);
    assert w.time >= 0.0 && w.distance >= 0.05;
    assert TravelTime(length, speed) >= 0.0;
    assert w.time * TravelTime(length, speed) >= 0.0;
  }

  /**
   * The route `create_route` returns: the engine's route when it has two or more edges,
   * otherwise the retry's route when it is non-empty, otherwise the two-edge sequence.
   * None stands for an engine call that raised.
   */
  function ChooseRoute(startEdge: string, goalEdge: string, first: Option<seq<string>>,
                       retry: Option<seq<string>>): (route: seq<string>)
    ensures |route| >= 1
    ensures first.Some? && |first.value| > 1 ==> route == first.value
    ensures route == [startEdge, goalEdge]
            || (first.Some? && route == first.value)
            || (retry.Some? && route == retry.value)
    ensures first.None? ==> route == [startEdge, goalEdge]
    ensures first.Some? && |first.value| <= 1 && retry.Some? && retry.value != [] ==> route == retry.value
  {
    match first
    case None => [startEdge, goalEdge]
    case Some(r) =>
      if |r| > 1 then r
      else
        match retry
        case None => [startEdge, goalEdge]
        case Some(r2) => if r2 != [] then r2 else [startEdge, goalEdge]
  }

  /** `j` is the last of the first `n` edges whose id is that of edge `j`. */
  ghost predicate LastWithId(edges: seq<EdgeInfo>, n: int, j: int)
    requires 0 <= j < n <= |edges|
  {
    forall k :: j < k < n ==> edges[k].id != edges[j].id
  }

  /** Among the first `n` edges, the last one named `id` has the static effort `effort`. */
  ghost predicate EffortSetBy(edges: seq<EdgeInfo>, n: int, id: string, effort: real, baseTime: real, severity: string)
    requires 0 <= n <= |edges|
  {
    exists j :: 0 <= j < n && edges[j].id == id && LastWithId(edges, n, j)
                && effort == StaticEffort(edges[j].length, edges[j].speed, baseTime, severity)
  }

  /** An edge with another id does not change which edge last set an effort. */
  lemma EffortOutlivesOtherEdge(edges: seq<EdgeInfo>, i: int, id: string, effort: real, baseTime: real, severity: string)
    requires 0 <= i < |edges| && edges[i].id != id && EffortSetBy(edges, i, id, effort, baseTime, severity)
    ensures EffortSetBy(edges, i + 1, id, effort, baseTime, severity)
  {
    var j :| 0 <= j < i && edges[j].id == id && LastWithId(edges, i, j)
             && effort == StaticEffort(edges[j].length, edges[j].speed, baseTime, severity);
    assert LastWithId(edges, i + 1, j);
  }

  /**
   * The efforts handed to the route engine: one per non-internal edge; when the network
   * lists an id twice, the last edge with that id sets its effort.
   */
  method AnnotateEfforts(edges: seq<EdgeInfo>, baseTime: real, severity: string)
    returns (efforts: map<string, real>)
    ensures forall i :: 0 <= i < |edges| && !IsInternal(edges[i].id) ==> edges[i].id in efforts
    ensures forall id :: id in efforts ==> !IsInternal(id)
    ensures forall id :: id in efforts ==> EffortSetBy(edges, |edges|, id, efforts[id], baseTime, severity)
  {
    efforts := map[];
    var i := 0;
    while i < |edges|
      invariant 0 <= i <= |edges|
      invariant forall j :: 0 <= j < i && !IsInternal(edges[j].id) ==> edges[j].id in efforts
      invariant forall id :: id in efforts ==> !IsInternal(id)
      invariant forall id :: id in efforts ==> EffortSetBy(edges, i, id, efforts[id], baseTime, severity)
    {
      var e := edges[i];
      if !IsInternal(e.id) {
        efforts := efforts[e.id := StaticEffort(e.length, e.speed, baseTime, severity)];
        assert EffortSetBy(edges, i + 1, e.id, efforts[e.id], baseTime, severity) by {
          assert edges[i].id == e.id;
        }
      }
      forall id | id in efforts && id != e.id
        ensures EffortSetBy(edges, i + 1, id, efforts[id], baseTime, severity)
      {
        EffortOutlivesOtherEdge(edges, i, id, efforts[id], baseTime, severity);
      }
      i := i + 1;
    }
  }

  /** The mutable routing context of one trip. */
  class RouteContext {
    var startTime: Option<real>
    var totalDistance: real
    var distanceTraveled: real
    var timeAccumulated: real
    var severity: string
    var goalEdge: Option<string>
    var weightHistory: seq<WeightSample>

    function State(): ContextState
      reads this
    {
      ContextState(startTime, totalDistance, distanceTraveled, timeAccumulated, severity, goalEdge, weightHistory)
    }

    constructor()
      ensures State() == ContextState(None, 0.0, 0.0, 0.0, "HIGH", None, [])
    {
      startTime := None;
      totalDistance := 0.0;
      distanceTraveled := 0.0;
      timeAccumulated := 0.0;
      severity := "HIGH";
      goalEdge := None;
      weightHistory := [];
    }
  }

  class Router {
    const baseDistanceWeight: real
    const baseTimeWeight: real
    const context: RouteContext

    /** The weights must sum to 1 within 0.001; `NewRouter` models the raising check. */
    constructor(baseDistanceWeight: real, baseTimeWeight: real)
      requires Config.Abs(baseDistanceWeight + baseTimeWeight - 1.0) <= 0.001
      ensures this.baseDistanceWeight == baseDistanceWeight && this.baseTimeWeight == baseTimeWeight
      ensures fresh(context) && context.State() == ContextState(None, 0.0, 0.0, 0.0, "HIGH", None, [])
    {
      this.baseDistanceWeight := baseDistanceWeight;
      this.baseTimeWeight := baseTimeWeight;
      context := new RouteContext();
    }

    /** Weights for the current context; appends exactly one sample carrying them. */
    method GetAdaptiveWeights(currentEdge: string, goalEdge: string, hour: int)
      returns (distanceWeight: real, timeWeight: real)
      modifies context
      ensures (Weights(distanceWeight, timeWeight), context.State())
              == WeighStep(old(context.State()), baseTimeWeight, currentEdge, hour)
      ensures distanceWeight + timeWeight == 1.0 && timeWeight <= 0.95
      ensures context.weightHistory == old(context.weightHistory)
              + [WeightSample(currentEdge, distanceWeight, timeWeight,
                              ProgressRatio(old(context.totalDistance), old(context.distanceTraveled)), 0.0)]
    {
      var progressShift := 0.0;
      var progressRatio := 0.0;
      if context.totalDistance > 0.0 {
        progressRatio := context.distanceTraveled / context.totalDistance;
        progressShift := Config.ProgressShiftMax * progressRatio;
      }
      var severityShift := SeverityShift(context.severity);
      var congestionShift := CongestionShift;
      var rushHourShift := if IsRushHour(hour) then Config.RushHourShift else 0.0;
      var totalShift := progressShift + severityShift + congestionShift + rushHourShift;
      timeWeight := Min(Config.MaxTimeWeight, baseTimeWeight + totalShift);
      distanceWeight := 1.0 - timeWeight;
      context.weightHistory := context.weightHistory
        + [WeightSample(currentEdge, distanceWeight, timeWeight, progressRatio, congestionShift)];
    }

    /** g(n); overwrites the context's distance travelled with the start-to-node distance. */
    method CalculateCost(net: Network, startEdge: string, currentNode: string, hour: int)
      returns (cost: Cost)
      modifies context
      ensures (cost, context.State()) == CalcCost(old(context.State()), baseTimeWeight, net, startEdge, currentNode, hour)
    {
      ghost var s0 := context.State();
      var distance := net.distance(startEdge, currentNode);
      if distance < 0.0 {
        return Inf;
      }
      var travelTime := TravelTime(distance, SpeedLimit(net, currentNode));
      if context.goalEdge.None? {
        return Inf;
      }
      var dw, tw := GetAdaptiveWeights(currentNode, context.goalEdge.value, hour);
      ghost var s1 := context.State();
      assert (Weights(dw, tw), s1) == WeighStep(s0, baseTimeWeight, currentNode, hour);
      cost := Fin(dw * distance + tw * travelTime);
      context.distanceTraveled := distance;
      context.timeAccumulated := travelTime;
      assert context.State() == s1.(distanceTraveled := distance, timeAccumulated := travelTime);
      assert cost == CalcCost(s0, baseTimeWeight, net, startEdge, currentNode, hour).0;
      assert context.State() == CalcCost(s0, baseTimeWeight, net, startEdge, currentNode, hour).1;
    }

    /** h(n). */
    method HeuristicEstimate(net: Network, currentNode: string, goalNode: string, hour: int)
      returns (cost: Cost)
      modifies context
      ensures (cost, context.State()) == HeuristicCost(old(context.State()), baseTimeWeight, net, currentNode, goalNode, hour)
    {
      ghost var s0 := context.State();
      var distance := net.distance(currentNode, goalNode);
      if distance < 0.0 {
        return Inf;
      }
      var remaining := TravelTime(distance, SpeedLimit(net, currentNode));
      var dw, tw := GetAdaptiveWeights(currentNode, goalNode, hour);
      assert (Weights(dw, tw), context.State()) == WeighStep(s0, baseTimeWeight, currentNode, hour);
      cost := Fin(dw * distance + tw * remaining);
      assert cost == HeuristicCost(s0, baseTimeWeight, net, currentNode, goalNode, hour).0;
      assert context.State() == HeuristicCost(s0, baseTimeWeight, net, currentNode, goalNode, hour).1;
    }

    /** f(n) = g(n) + h(n). */
    method EvaluateNode(net: Network, node: string, startNode: string, goalNode: string, hour: int)
      returns (cost: Cost)
      modifies context
      ensures (cost, context.State()) == Evaluate(old(context.State()), baseTimeWeight, net, node, startNode, goalNode, hour)
    {
      var g := CalculateCost(net, startNode, node, hour);
      var h := HeuristicEstimate(net, node, goalNode, hour);
      cost := g.Plus(h);
    }

    /** The outgoing edge with the first strictly smallest f, or None. */
    method FindNextEdge(net: Network, currentEdge: string, goalJunction: string, hour: int)
      returns (next: Option<string>)
      modifies context
      ensures (next, context.State()) == NextEdge(old(context.State()), baseTimeWeight, net, currentEdge, goalJunction, hour)
      ensures next.Some? ==> next.value in net.outgoing(currentEdge)
    {
      var edgesLeaving := net.outgoing(currentEdge);
      if edgesLeaving == [] {
        return None;
      }
      ghost var s0 := context.State();
      ghost var costs: seq<Cost> := [];
      var minCostEdge: Option<string> := None;
      var minCost: Cost := Inf;
      var i := 0;
      while i < |edgesLeaving|
        invariant 0 <= i <= |edgesLeaving|
        invariant (costs, context.State())
                  == EvaluateAll(s0, baseTimeWeight, net, edgesLeaving[..i], currentEdge, goalJunction, hour)
        invariant |costs| == i
        invariant FirstMinIndex(costs).None? ==> minCostEdge.None? && minCost == Inf
        invariant FirstMinIndex(costs).Some? ==>
                    minCostEdge == Some(edgesLeaving[FirstMinIndex(costs).value])
                    && minCost == costs[FirstMinIndex(costs).value]
      {
        EvaluateAllStep(s0, baseTimeWeight, net, edgesLeaving, i, currentEdge, goalJunction, hour);
        var cost := EvaluateNode(net, edgesLeaving[i], currentEdge, goalJunction, hour);
        FirstMinIndexStep(costs, cost);
        if cost.Below(minCost) {
          minCost := cost;
          minCostEdge := Some(edgesLeaving[i]);
        }
        costs := costs + [cost];
        i := i + 1;
      }
      assert edgesLeaving[..i] == edgesLeaving;
      next := minCostEdge;
    }

    /**
     * Records the trip in the context, computes the efforts for the route engine and
     * returns the engine's route or its fallback. The start-to-goal road distance is
     * `net.distance`, unless `distanceRaises` says that query raised; `now` is the
     * simulation time, None when that query raised; `first` and `retry` are the engine's
     * answers with and without efforts, None when the engine raised. A raising query
     * ends the call with the two-edge route and no efforts, after whatever it had
     * already recorded in the context.
     */
    method CreateRoute(net: Network, edges: seq<EdgeInfo>, startEdge: string, goalEdge: string,
                       distanceRaises: bool, now: Option<real>,
                       first: Option<seq<string>>, retry: Option<seq<string>>)
      returns (route: seq<string>, efforts: map<string, real>)
      modifies context
      ensures distanceRaises ==> context.State() == old(context.State()) && route == [startEdge, goalEdge] && efforts == map[]
      ensures !distanceRaises && now.None? ==>
                && context.State() == old(context.State()).(totalDistance := net.distance(startEdge, goalEdge),
                                                            goalEdge := Some(goalEdge))
                && route == [startEdge, goalEdge] && efforts == map[]
      ensures !distanceRaises && now.Some? ==>
                && context.State() == old(context.State()).(totalDistance := net.distance(startEdge, goalEdge),
                                                            goalEdge := Some(goalEdge), startTime := now)
                && route == ChooseRoute(startEdge, goalEdge, first, retry)
                && (forall id :: id in efforts ==> !IsInternal(id))
                && (forall i :: 0 <= i < |edges| && !IsInternal(edges[i].id) ==> edges[i].id in efforts)
                && (forall id :: id in efforts ==>
                      EffortSetBy(edges, |edges|, id, efforts[id], baseTimeWeight, old(context.severity)))
    {
      efforts := map[];
      if distanceRaises {
        return [startEdge, goalEdge], efforts;
      }
      context.totalDistance := net.distance(startEdge, goalEdge);
      context.goalEdge := Some(goalEdge);
      if now.None? {
        return [startEdge, goalEdge], efforts;
      }
      context.startTime := now;
      efforts := AnnotateEfforts(edges, baseTimeWeight, context.severity);
      var found := first;
      if found.Some? && |found.value| <= 1 {
        found := retry;
        if found.None? {
          return [startEdge, goalEdge], efforts;
        }
      }
      if found.None? {
        return [startEdge, goalEdge], efforts;
      }
      route := if found.value != [] then found.value else [startEdge, goalEdge];
    }
  }

  /** The router constructor's check: weights that do not sum to 1 within 0.001 are refused. */
  method NewRouter(baseDistanceWeight: real, baseTimeWeight: real) returns (r: Option<Router>)
    ensures r.Some? <==> Config.Abs(baseDistanceWeight + baseTimeWeight - 1.0) <= 0.001
    ensures r.Some? ==> fresh(r.value) && r.value.baseTimeWeight == baseTimeWeight
  {
    if Config.Abs(baseDistanceWeight + baseTimeWeight - 1.0) > 0.001 {
      return None;
    }
    var router := new Router(baseDistanceWeight, baseTimeWeight);
    r := Some(router);
  }
}
