/**
 * The two baseline route builders: a greedy walk from the start edge that, at every
 * edge, moves to the outgoing edge of smallest cost-to-goal, never revisits an edge,
 * stops after a bounded number of moves or when no candidate remains, and always
 * appends the goal edge at the end. The fixed-weight A* baseline scores a candidate by
 * 0.6 * distance + 0.4 * travel time; the Dijkstra baseline by distance alone.
 */
module BaselineRouting {
  import opened Common

  datatype Metric = FixedWeights | DistanceOnly

  const FixedDistanceWeight: real := 0.6
  const FixedTimeWeight: real := 0.4

  /** Speed assumed when the edge's speed cannot be read. */
  const DefaultSpeed: real := 40.0

  /** The network and the simulator's distance query as oracles. */
  datatype RoadGraph = RoadGraph(
    outgoing: string -> Option<seq<string>>,         // None: the edge lookup raised
    distanceToGoal: (string, string) -> Option<real>, // road distance; None: the query raised
    speedOf: string -> Option<real>)                   // None: the speed lookup raised

  /** A candidate's score; Inf for a candidate that is skipped (query raised or negative distance). */
  function CandidateCost(m: Metric, g: RoadGraph, edge: string, goal: string): (c: Cost)
    ensures c.Fin? <==> g.distanceToGoal(edge, goal).Some? && g.distanceToGoal(edge, goal).value >= 0.0
    ensures m == DistanceOnly && c.Fin? ==> c.r == g.distanceToGoal(edge, goal).value
  {
    match g.distanceToGoal(edge, goal)
    case None => Inf
    case Some(d) =>
      if d < 0.0 then Inf
      else
        match m
        case DistanceOnly => Fin(d)
        case FixedWeights =>
          var speed := match g.speedOf(edge) case None => DefaultSpeed case Some(v) => v;
          Fin(FixedDistanceWeight * d + FixedTimeWeight * (d / Max(speed, 1.0)))
  }

  function CandidateCosts(m: Metric, g: RoadGraph, edges: seq<string>, goal: string): (cs: seq<Cost>)
    ensures |cs| == |edges|
    ensures forall i :: 0 <= i < |edges| ==> cs[i] == CandidateCost(m, g, edges[i], goal)
  {
    seq(|edges|, i requires 0 <= i < |edges| => CandidateCost(m, g, edges[i], goal))
  }

  /** The candidate the inner loop settles on: the first one of strictly smallest score. */
  function ChooseNext(m: Metric, g: RoadGraph, edges: seq<string>, goal: string): Option<string> {
    match FirstMinIndex(CandidateCosts(m, g, edges, goal))
    case None => None
    case Some(k) => Some(edges[k])
  }

  /** `b` is the edge the walk moves to from `a`. */
  ghost predicate Moves(m: Metric, g: RoadGraph, a: string, b: string, goal: string) {
    g.outgoing(a).Some? && ChooseNext(m, g, g.outgoing(a).value, goal) == Some(b)
  }

  /** The chosen candidate is an outgoing edge, scored finitely, and no other candidate scores lower. */
  lemma {:induction false} ChooseNextIsFirstMinimum(m: Metric, g: RoadGraph, edges: seq<string>, goal: string)
    ensures ChooseNext(m, g, edges, goal).None? <==>
              forall i :: 0 <= i < |edges| ==> CandidateCost(m, g, edges[i], goal).Inf?
    ensures ChooseNext(m, g, edges, goal).Some? ==>
              exists k :: 0 <= k < |edges| && ChooseNext(m, g, edges, goal).value == edges[k]
                          && IsFirstMinimum(CandidateCosts(m, g, edges, goal), k)
  {
    var cs := CandidateCosts(m, g, edges, goal);
    var k := FirstMinIndex(cs);
    if k.Some? {
      assert IsFirstMinimum(cs, k.value);
    }
  }

  /** The distance-only walk moves to a candidate whose non-negative distance to the goal is the smallest. */
  lemma DistanceOnlyPicksNearest(g: RoadGraph, edges: seq<string>, goal: string, chosen: string, other: string)
    requires ChooseNext(DistanceOnly, g, edges, goal) == Some(chosen)
    requires other in edges && g.distanceToGoal(other, goal).Some? && g.distanceToGoal(other, goal).value >= 0.0
    ensures g.distanceToGoal(chosen, goal).Some?
    ensures 0.0 <= g.distanceToGoal(chosen, goal).value <= g.distanceToGoal(other, goal).value
  {
    var cs := CandidateCosts(DistanceOnly, g, edges, goal);
    var k := FirstMinIndex(cs).value;
    var j :| 0 <= j < |edges| && edges[j] == other;
    assert cs[j] == CandidateCost(DistanceOnly, g, other, goal);
    assert cs[k] == CandidateCost(DistanceOnly, g, chosen, goal);
    if j < k {
      assert cs[k].Below(cs[j]);
    } else if j > k {
      assert !cs[j].Below(cs[k]);
    }
  }

  /** The inner loop over the outgoing edges, keeping the first strictly smaller score. */
  method BestNextEdge(m: Metric, g: RoadGraph, edges: seq<string>, goal: string) returns (best: Option<string>)
    ensures best == ChooseNext(m, g, edges, goal)
  {
    best := None;
    var minCost: Cost := Inf;
    var i := 0;
    while i < |edges|
      invariant 0 <= i <= |edges|
      invariant var k := FirstMinIndex(CandidateCosts(m, g, edges[..i], goal));
                && (k.None? ==> best.None? && minCost == Inf)
                && (k.Some? ==> best == Some(edges[k.value])
                                && minCost == CandidateCost(m, g, edges[k.value], goal))
    {
      var cost := CandidateCost(m, g, edges[i], goal);
      ghost var before := CandidateCosts(m, g, edges[..i], goal);
      ghost var after := CandidateCosts(m, g, edges[..i + 1], goal);
      assert after[..i] == before;
      assert after[i] == cost;
      if cost.Below(minCost) {
        minCost := cost;
        best := Some(edges[i]);
      }
      i := i + 1;
    }
    assert edges[..i] == edges;
  }

  /** The walk stops at `current` on any of the loop's exits: goal reached, moves used up, edge revisited, no way on. */
  predicate Halts(m: Metric, g: RoadGraph, current: string, goal: string, visited: set<string>, fuel: int) {
    || current == goal || fuel <= 0 || current in visited
    || g.outgoing(current).None? || g.outgoing(current).value == []
    || ChooseNext(m, g, g.outgoing(current).value, goal).None?
  }

  /** The edges the walk appends to the route from `current` on, with `fuel` moves left. */
  function Walk(m: Metric, g: RoadGraph, current: string, goal: string, visited: set<string>, fuel: int)
    : seq<string>
    decreases fuel
  {
    if Halts(m, g, current, goal, visited, fuel) then []
    else
      [current] + Walk(m, g, ChooseNext(m, g, g.outgoing(current).value, goal).value, goal,
                       visited + {current}, fuel - 1)
  }

  /** The edge the walk is standing on when it stops. */
  function WalkEnd(m: Metric, g: RoadGraph, current: string, goal: string, visited: set<string>, fuel: int)
    : string
    decreases fuel
  {
    if Halts(m, g, current, goal, visited, fuel) then current
    else
      WalkEnd(m, g, ChooseNext(m, g, g.outgoing(current).value, goal).value, goal,
              visited + {current}, fuel - 1)
  }

  /** The set of edges on a route prefix. */
  function EdgesOf(prefix: seq<string>): set<string> {
    set e | e in prefix
  }

  /** One step of the walk: the edge it stands on, then the walk from the chosen next edge. */
  lemma WalkUnfold(m: Metric, g: RoadGraph, current: string, goal: string, visited: set<string>, fuel: int)
    requires !Halts(m, g, current, goal, visited, fuel)
    ensures var next := ChooseNext(m, g, g.outgoing(current).value, goal).value;
            && Moves(m, g, current, next, goal)
            && Walk(m, g, current, goal, visited, fuel) == [current] + Walk(m, g, next, goal, visited + {current}, fuel - 1)
            && WalkEnd(m, g, current, goal, visited, fuel) == WalkEnd(m, g, next, goal, visited + {current}, fuel - 1)
  {
  }

  /** The loop's step: the current edge moves into the prefix and the walk goes on from the chosen edge. */
  lemma WalkExtend(m: Metric, g: RoadGraph, prefix: seq<string>, current: string, next: string, goal: string,
                   visited: set<string>, fuel: int)
    requires !Halts(m, g, current, goal, visited, fuel)
    requires next == ChooseNext(m, g, g.outgoing(current).value, goal).value
    ensures prefix + Walk(m, g, current, goal, visited, fuel)
            == (prefix + [current]) + Walk(m, g, next, goal, visited + {current}, fuel - 1)
    ensures WalkEnd(m, g, current, goal, visited, fuel) == WalkEnd(m, g, next, goal, visited + {current}, fuel - 1)
    ensures EdgesOf(prefix + [current]) == EdgesOf(prefix) + {current}
  {
    WalkUnfold(m, g, current, goal, visited, fuel);
  }

  lemma HaltedWalkIsEmpty(m: Metric, g: RoadGraph, current: string, goal: string, visited: set<string>, fuel: int)
    requires Halts(m, g, current, goal, visited, fuel)
    ensures Walk(m, g, current, goal, visited, fuel) == []
  {
  }

  /** The walk is empty exactly when it halts at once; otherwise it starts here and its last edge moves to where it stops. */
  lemma {:induction false} WalkEndHalts(m: Metric, g: RoadGraph, current: string, goal: string,
                                        visited: set<string>, fuel: int)
    ensures var w := Walk(m, g, current, goal, visited, fuel);
            var end := WalkEnd(m, g, current, goal, visited, fuel);
            && (w == [] <==> Halts(m, g, current, goal, visited, fuel))
            && (w == [] ==> end == current)
            && (w != [] ==> w[0] == current && Moves(m, g, w[|w| - 1], end, goal))
    decreases fuel
  {
    if !Halts(m, g, current, goal, visited, fuel) {
      WalkUnfold(m, g, current, goal, visited, fuel);
      var next := ChooseNext(m, g, g.outgoing(current).value, goal).value;
      var rest := Walk(m, g, next, goal, visited + {current}, fuel - 1);
      WalkEndHalts(m, g, next, goal, visited + {current}, fuel - 1);
      var w := [current] + rest;
      if rest != [] {
        assert w[|w| - 1] == rest[|rest| - 1];
      }
    }
  }

  /** The edge the walk stops on is one where it halts, given the edges it has visited and the moves left. */
  lemma {:induction false} WalkStopsWhereItHalts(m: Metric, g: RoadGraph, current: string, goal: string,
                                                 visited: set<string>, fuel: int)
    ensures var w := Walk(m, g, current, goal, visited, fuel);
            Halts(m, g, WalkEnd(m, g, current, goal, visited, fuel), goal, visited + EdgesOf(w), fuel - |w|)
    decreases fuel
  {
    if !Halts(m, g, current, goal, visited, fuel) {
      WalkUnfold(m, g, current, goal, visited, fuel);
      var next := ChooseNext(m, g, g.outgoing(current).value, goal).value;
      var rest := Walk(m, g, next, goal, visited + {current}, fuel - 1);
      WalkStopsWhereItHalts(m, g, next, goal, visited + {current}, fuel - 1);
      var w := [current] + rest;
      assert EdgesOf(w) == {current} + EdgesOf(rest);
      assert visited + EdgesOf(w) == (visited + {current}) + EdgesOf(rest);
      assert fuel - |w| == fuel - 1 - |rest|;
    } else {
      assert EdgesOf([]) == {};
    }
  }

  /** Each edge of the walk after the first is the best move out of the edge before it. */
  lemma {:induction false} WalkMoves(m: Metric, g: RoadGraph, current: string, goal: string,
                                     visited: set<string>, fuel: int)
    ensures var w := Walk(m, g, current, goal, visited, fuel);
            forall i :: 0 <= i < |w| - 1 ==> Moves(m, g, w[i], w[i + 1], goal)
    decreases fuel
  {
    if !Halts(m, g, current, goal, visited, fuel) {
      WalkUnfold(m, g, current, goal, visited, fuel);
      var next := ChooseNext(m, g, g.outgoing(current).value, goal).value;
      var rest := Walk(m, g, next, goal, visited + {current}, fuel - 1);
      WalkMoves(m, g, next, goal, visited + {current}, fuel - 1);
      WalkEndHalts(m, g, next, goal, visited + {current}, fuel - 1);
      var w := [current] + rest;
      forall i | 0 <= i < |w| - 1 ensures Moves(m, g, w[i], w[i + 1], goal) {
        if i > 0 {
          assert w[i] == rest[i - 1] && w[i + 1] == rest[i];
        } else {
          assert w[1] == rest[0] == next;
        }
      }
    }
  }

  /** The walk never revisits an edge, never passes the goal, and makes at most `fuel` moves. */
  lemma {:induction false} WalkDistinct(m: Metric, g: RoadGraph, current: string, goal: string,
                                        visited: set<string>, fuel: int)
    ensures var w := Walk(m, g, current, goal, visited, fuel);
            && (forall i, j :: 0 <= i < j < |w| ==> w[i] != w[j])
            && (forall i :: 0 <= i < |w| ==> w[i] !in visited && w[i] != goal)
            && |w| <= (if fuel < 0 then 0 else fuel)
    decreases fuel
  {
    if !Halts(m, g, current, goal, visited, fuel) {
      WalkUnfold(m, g, current, goal, visited, fuel);
      var next := ChooseNext(m, g, g.outgoing(current).value, goal).value;
      var rest := Walk(m, g, next, goal, visited + {current}, fuel - 1);
      WalkDistinct(m, g, next, goal, visited + {current}, fuel - 1);
      var w := [current] + rest;
      forall i | 0 <= i < |w| ensures w[i] !in visited && w[i] != goal {
        if i > 0 { assert w[i] == rest[i - 1]; }
      }
      forall i, j | 0 <= i < j < |w| ensures w[i] != w[j] {
        assert w[j] == rest[j - 1];
        if i > 0 { assert w[i] == rest[i - 1]; }
      }
    }
  }

  /** The route a walk builds: distinct edges from the start, best moves, the goal only at the end, and a halting stop. */
  lemma WalkRoute(m: Metric, g: RoadGraph, start: string, goal: string, maxIterations: int, route: seq<string>)
    requires route == Walk(m, g, start, goal, {}, maxIterations) + [goal]
    ensures |route| >= 1 && route[|route| - 1] == goal
    ensures goal !in route[..|route| - 1]
    ensures forall i, j :: 0 <= i < j < |route| - 1 ==> route[i] != route[j]
    ensures |route| > 1 ==> route[0] == start
    ensures start == goal ==> route == [goal]
    ensures |route| == 1 || |route| - 1 <= maxIterations
    ensures forall i :: 0 <= i < |route| - 2 ==> Moves(m, g, route[i], route[i + 1], goal)
    ensures var end := WalkEnd(m, g, start, goal, {}, maxIterations);
            && (|route| == 1 ==> end == start)
            && (|route| > 1 ==> Moves(m, g, route[|route| - 2], end, goal))
            && Halts(m, g, end, goal, EdgesOf(route[..|route| - 1]), maxIterations - (|route| - 1))
  {
    var w := Walk(m, g, start, goal, {}, maxIterations);
    assert route[..|route| - 1] == w;
    WalkEndHalts(m, g, start, goal, {}, maxIterations);
    WalkStopsWhereItHalts(m, g, start, goal, {}, maxIterations);
    WalkMoves(m, g, start, goal, {}, maxIterations);
    WalkDistinct(m, g, start, goal, {}, maxIterations);
    assert {} + EdgesOf(w) == EdgesOf(w);
  }

  /**
   * The walk, as both baselines run it; `maxIterations` bounds the number of moves. The
   * route is `Walk` followed by the goal, and the edge the walk stopped on is one where it halts.
   */
  method GreedyWalk(m: Metric, g: RoadGraph, start: string, goal: string, maxIterations: int)
    returns (route: seq<string>)
    ensures route == Walk(m, g, start, goal, {}, maxIterations) + [goal]
    ensures |route| >= 1 && route[|route| - 1] == goal
    ensures goal !in route[..|route| - 1]
    ensures forall i, j :: 0 <= i < j < |route| - 1 ==> route[i] != route[j]
    ensures |route| > 1 ==> route[0] == start
    ensures start == goal ==> route == [goal]
    ensures |route| == 1 || |route| - 1 <= maxIterations
    ensures forall i :: 0 <= i < |route| - 2 ==> Moves(m, g, route[i], route[i + 1], goal)
    ensures var end := WalkEnd(m, g, start, goal, {}, maxIterations);
            && (|route| == 1 ==> end == start)
            && (|route| > 1 ==> Moves(m, g, route[|route| - 2], end, goal))
            && Halts(m, g, end, goal, EdgesOf(route[..|route| - 1]), maxIterations - (|route| - 1))
  {
    route := WalkLoop(m, g, start, goal, maxIterations);
    WalkRoute(m, g, start, goal, maxIterations, route);
  }

  /** The loop of the greedy route builder: the visited edges, then the goal. */
  method WalkLoop(m: Metric, g: RoadGraph, start: string, goal: string, maxIterations: int)
    returns (route: seq<string>)
    ensures route == Walk(m, g, start, goal, {}, maxIterations) + [goal]
  {
    var prefix: seq<string> := [];
    var current := start;
    var visited: set<string> := {};
    var iterations := 0;
    ghost var fuel := maxIterations;
    while current != goal && iterations < maxIterations
      invariant visited == EdgesOf(prefix) && iterations == |prefix| && fuel == maxIterations - iterations
      invariant Walk(m, g, start, goal, {}, maxIterations) == prefix + Walk(m, g, current, goal, visited, fuel)
      decreases maxIterations - iterations
    {
      if current in visited {
        break;
      }
      var edgesLeaving := g.outgoing(current);
      if edgesLeaving.None? || edgesLeaving.value == [] {
        break;
      }
      var next := BestNextEdge(m, g, edgesLeaving.value, goal);
      if next.None? {
        break;
      }
      assert !Halts(m, g, current, goal, visited, fuel);
      WalkExtend(m, g, prefix, current, next.value, goal, visited, fuel);
      visited := visited + {current};
      prefix := prefix + [current];
      current := next.value;
      iterations := iterations + 1;
      fuel := fuel - 1;
    }
    HaltedWalkIsEmpty(m, g, current, goal, visited, fuel);
    route := prefix + [goal];
  }

  /** `create_route_fixed_astar`: the walk under the fixed 0.6 / 0.4 score. */
  method CreateRouteFixedAStar(g: RoadGraph, start: string, goal: string, maxIterations: int)
    returns (route: seq<string>)
    ensures route == Walk(FixedWeights, g, start, goal, {}, maxIterations) + [goal]
    ensures |route| >= 1 && route[|route| - 1] == goal && goal !in route[..|route| - 1]
    ensures forall i, j :: 0 <= i < j < |route| - 1 ==> route[i] != route[j]
    ensures |route| > 1 ==> route[0] == start
    ensures start == goal ==> route == [goal]
    ensures |route| == 1 || |route| - 1 <= maxIterations
    ensures forall i :: 0 <= i < |route| - 2 ==> Moves(FixedWeights, g, route[i], route[i + 1], goal)
    ensures var end := WalkEnd(FixedWeights, g, start, goal, {}, maxIterations);
            && (|route| == 1 ==> end == start)
            && (|route| > 1 ==> Moves(FixedWeights, g, route[|route| - 2], end, goal))
            && Halts(FixedWeights, g, end, goal, EdgesOf(route[..|route| - 1]), maxIterations - (|route| - 1))
  {
    route := GreedyWalk(FixedWeights, g, start, goal, maxIterations);
  }

  /** `create_route_dijkstra`: the walk under the distance-only score. */
  method CreateRouteDijkstra(g: RoadGraph, start: string, goal: string, maxIterations: int)
    returns (route: seq<string>)
    ensures route == Walk(DistanceOnly, g, start, goal, {}, maxIterations) + [goal]
    ensures |route| >= 1 && route[|route| - 1] == goal && goal !in route[..|route| - 1]
    ensures forall i, j :: 0 <= i < j < |route| - 1 ==> route[i] != route[j]
    ensures |route| > 1 ==> route[0] == start
    ensures start == goal ==> route == [goal]
    ensures |route| == 1 || |route| - 1 <= maxIterations
    ensures forall i :: 0 <= i < |route| - 2 ==> Moves(DistanceOnly, g, route[i], route[i + 1], goal)
    ensures var end := WalkEnd(DistanceOnly, g, start, goal, {}, maxIterations);
            && (|route| == 1 ==> end == start)
            && (|route| > 1 ==> Moves(DistanceOnly, g, route[|route| - 2], end, goal))
            && Halts(DistanceOnly, g, end, goal, EdgesOf(route[..|route| - 1]), maxIterations - (|route| - 1))
  {
    route := GreedyWalk(DistanceOnly, g, start, goal, maxIterations);
  }
}
