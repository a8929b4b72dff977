/**
 * The batch experiment runner: the command-line keyword expansion, the route-string
 * parser, the constructor's algorithm filter and defaults, and the nested loops that
 * run every configuration once, with the progress count that decides when to cool
 * down between runs.
 *
 * A single run (a subprocess whose output is scraped) is an oracle from the experiment
 * to its outcome; the cooldown sleep is counted, not performed.
 */
module BatchRunner {
  import opened Common
  import opened Text

  // ---------------------------------------------------------------- keywords

  const Adaptive: string := "adaptive_astar"
  const AllAlgorithms: seq<string> := [Adaptive, "standard_astar", "dijkstra", "ch", "chwrapper", "alt"]
  const BaselineAlgorithms: seq<string> := ["standard_astar", "dijkstra", "ch", "chwrapper", "alt"]
  const AllTrafficLevels: seq<string> := ["low", "moderate", "high", "severe"]
  const AllSeverities: seq<string> := ["CRITICAL", "HIGH", "MEDIUM"]

  lemma BaselinesAreAllButAdaptive()
    ensures AllAlgorithms == [Adaptive] + BaselineAlgorithms
    ensures Adaptive !in BaselineAlgorithms
  {
  }

  /** `parse_algorithms`; an absent and an empty argument list are both empty here. */
  function ParseAlgorithms(args: seq<string>): (r: Option<seq<string>>)
    ensures r.None? <==> args == []
    ensures "all" in args ==> r == Some(AllAlgorithms)
    ensures "all" !in args && "baselines" in args ==> r == Some(BaselineAlgorithms)
    ensures args != [] && "all" !in args && "baselines" !in args ==> r == Some(args)
  {
    if args == [] then None
    else if "all" in args then Some(AllAlgorithms)
    else if "baselines" in args then Some(BaselineAlgorithms)
    else Some(args)
  }

  /** `parse_traffic`: "all" before "light" before "heavy". */
  function ParseTraffic(args: seq<string>): (r: Option<seq<string>>)
    ensures r.None? <==> args == []
    ensures "all" in args ==> r == Some(AllTrafficLevels)
    ensures "all" !in args && "light" in args ==> r == Some(["low", "moderate"])
    ensures "all" !in args && "light" !in args && "heavy" in args ==> r == Some(["high", "severe"])
    ensures args != [] && "all" !in args && "light" !in args && "heavy" !in args ==> r == Some(args)
  {
    if args == [] then None
    else if "all" in args then Some(AllTrafficLevels)
    else if "light" in args then Some(["low", "moderate"])
    else if "heavy" in args then Some(["high", "severe"])
    else Some(args)
  }

  /** The light and heavy groups split the traffic levels between them. */
  lemma TrafficGroupsPartitionLevels()
    ensures ParseTraffic(["light"]).value + ParseTraffic(["heavy"]).value == ParseTraffic(["all"]).value
  {
  }

  /** `parse_severities`. */
  function ParseSeverities(args: seq<string>): (r: Option<seq<string>>)
    ensures r.None? <==> args == []
    ensures "all" in args ==> r == Some(AllSeverities)
    ensures args != [] && "all" !in args ==> r == Some(args)
  {
    if args == [] then None
    else if "all" in args then Some(AllSeverities)
    else Some(args)
  }

  // ---------------------------------------------------------------- routes

  datatype Route = Route(name: string, start: string, goal: string)

  const DefaultRoutes: seq<Route> := [
    Route("Route 1", "290640275#1", "40692890#6"),
    Route("Route 2", "-1213264717", "23542229#4"),
    Route("Route 3", "-1213264717", "40692890#6")]

  function RouteName(i: nat): string {
    "Route " + NatToString(i + 1)
  }

  /** One `start:goal` or `start:goal:name` string at position `i`; any other shape is dropped. */
  function ParseRoute(i: nat, s: string): Option<Route> {
    var parts := Split(s, ':');
    if |parts| == 2 then Some(Route(RouteName(i), parts[0], parts[1]))
    else if |parts| == 3 then Some(Route(parts[2], parts[0], parts[1]))
    else None
  }

  /** A parsed route gives back the string it came from. */
  lemma ParseRouteInverts(i: nat, s: string)
    requires ParseRoute(i, s).Some?
    ensures var r := ParseRoute(i, s).value;
            || (r.name == RouteName(i) && s == r.start + ":" + r.goal)
            || s == r.start + ":" + r.goal + ":" + r.name
  {
    JoinSplit(s, ':');
    var parts := Split(s, ':');
    if |parts| == 3 {
      assert parts[1..][1..] == [parts[2]];
      assert Join(parts[1..], ':') == parts[1] + [':'] + parts[2];
      assert Join(parts, ':') == parts[0] + [':'] + (parts[1] + [':'] + parts[2]);
    } else {
      assert parts[1..] == [parts[1]];
    }
  }

  /** Writing a route out and parsing it back gives the route again. */
  lemma ParseRouteRoundTrip(i: nat, start: string, goal: string, name: string)
    requires ':' !in start && ':' !in goal && ':' !in name
    ensures ParseRoute(i, start + ":" + goal) == Some(Route(RouteName(i), start, goal))
    ensures ParseRoute(i, start + ":" + goal + ":" + name) == Some(Route(name, start, goal))
  {
    SplitWithoutSeparator(goal, ':');
    SplitAtFirstSeparator(start, goal, ':');
    SplitWithoutSeparator(name, ':');
    SplitAtFirstSeparator(goal, name, ':');
    SplitAtFirstSeparator(start, goal + [':'] + name, ':');
    assert start + ":" + goal + ":" + name == start + [':'] + (goal + [':'] + name);
  }

  /** The routes parsed from `strs`, in input order, each named by its position in the input. */
  function ParsedRoutes(strs: seq<string>): (routes: seq<Route>)
    ensures |routes| <= |strs|
  {
    if strs == [] then []
    else
      var n := |strs| - 1;
      ParsedRoutes(strs[..n]) + (match ParseRoute(n, strs[n]) case None => [] case Some(r) => [r])
  }

  /** Nothing is dropped when every string has a valid shape. */
  lemma {:induction false} ParsedRoutesKeepsWellFormed(strs: seq<string>)
    requires forall i :: 0 <= i < |strs| ==> ParseRoute(i, strs[i]).Some?
    ensures |ParsedRoutes(strs)| == |strs|
    ensures forall i :: 0 <= i < |strs| ==> ParsedRoutes(strs)[i] == ParseRoute(i, strs[i]).value
  {
    if strs != [] {
      var n := |strs| - 1;
      var init := strs[..n];
      assert forall i :: 0 <= i < n ==> init[i] == strs[i];
      ParsedRoutesKeepsWellFormed(init);
      ParsedRoutesStep(strs);
      var all := ParsedRoutes(strs);
      forall i | 0 <= i < |strs|
        ensures all[i] == ParseRoute(i, strs[i]).value
      {
        if i < n {
          assert init[i] == strs[i];
        }
      }
    }
  }

  lemma ParsedRoutesStep(strs: seq<string>)
    requires strs != [] && ParseRoute(|strs| - 1, strs[|strs| - 1]).Some?
    ensures ParsedRoutes(strs) == ParsedRoutes(strs[..|strs| - 1]) + [ParseRoute(|strs| - 1, strs[|strs| - 1]).value]
  {
  }

  /** `parse_routes`. */
  method ParseRoutes(strs: seq<string>) returns (routes: seq<Route>)
    ensures routes == ParsedRoutes(strs)
  {
    routes := [];
    var i := 0;
    while i < |strs|
      invariant 0 <= i <= |strs|
      invariant routes == ParsedRoutes(strs[..i])
    {
      assert strs[..i + 1][..i] == strs[..i];
      var parts := Split(strs[i], ':');
      if |parts| == 2 {
        routes := routes + [Route(RouteName(i), parts[0], parts[1])];
      } else if |parts| == 3 {
        routes := routes + [Route(parts[2], parts[0], parts[1])];
      }
      i := i + 1;
    }
    assert strs[..i] == strs;
  }

  // ---------------------------------------------------------------- the algorithm filter

  /** The position of a known algorithm in the canonical order. */
  function Rank(a: string): (k: nat)
    requires a in AllAlgorithms
    ensures k < |AllAlgorithms| && AllAlgorithms[k] == a
  {
    if a == Adaptive then 0 else if a == "standard_astar" then 1 else if a == "dijkstra" then 2
    else if a == "ch" then 3 else if a == "chwrapper" then 4 else 5
  }

  /** The first `m` canonical algorithms that are also in `wanted`, in canonical order. */
  function KnownAmong(m: nat, wanted: seq<string>): (r: seq<string>)
    requires m <= |AllAlgorithms|
    ensures forall x :: x in r <==> x in AllAlgorithms[..m] && x in wanted
    ensures forall i :: 0 <= i < |r| ==> r[i] in AllAlgorithms && Rank(r[i]) < m
    ensures forall i, j :: 0 <= i < j < |r| ==> Rank(r[i]) < Rank(r[j])
  {
    if m == 0 then []
    else
      var x := AllAlgorithms[m - 1];
      assert AllAlgorithms[..m] == AllAlgorithms[..m - 1] + [x];
      KnownAmong(m - 1, wanted) + (if x in wanted then [x] else [])
  }

  /** The constructor's algorithm list: every algorithm when none is given, else the known ones asked for. */
  function SelectAlgorithms(wanted: seq<string>): (r: seq<string>)
    ensures wanted == [] ==> r == AllAlgorithms
    ensures wanted != [] ==> forall x :: x in r <==> x in AllAlgorithms && x in wanted
    ensures forall i, j :: 0 <= i < j < |r| ==> r[i] in AllAlgorithms && r[j] in AllAlgorithms && Rank(r[i]) < Rank(r[j])
  {
    if wanted == [] then AllAlgorithms else KnownAmong(|AllAlgorithms|, wanted)
  }

  /** The selection does not depend on the order the algorithms were asked for in. */
  lemma SelectionIgnoresOrder(a: seq<string>, b: seq<string>)
    requires a != [] && b != [] && forall x :: x in a <==> x in b
    ensures SelectAlgorithms(a) == SelectAlgorithms(b)
  {
    KnownAmongDependsOnMembership(|AllAlgorithms|, a, b);
  }

  lemma {:induction false} KnownAmongDependsOnMembership(m: nat, a: seq<string>, b: seq<string>)
    requires m <= |AllAlgorithms| && forall x :: x in a <==> x in b
    ensures KnownAmong(m, a) == KnownAmong(m, b)
  {
    if m > 0 {
      KnownAmongDependsOnMembership(m - 1, a, b);
    }
  }

  /** No algorithm is listed twice. */
  predicate Distinct(xs: seq<string>) {
    forall i, j :: 0 <= i < j < |xs| ==> xs[i] != xs[j]
  }

  lemma SelectedAreDistinct(wanted: seq<string>)
    ensures Distinct(SelectAlgorithms(wanted))
  {
    var r := SelectAlgorithms(wanted);
    forall i, j | 0 <= i < j < |r|
      ensures r[i] != r[j]
    {
      assert Rank(r[i]) < Rank(r[j]);
    }
  }

  // ---------------------------------------------------------------- the experiment plan

  datatype Experiment = Experiment(algorithm: string, severity: string, traffic: string, route: Route)

  /** What a run reports, as far as the analysis uses it. */
  datatype Outcome = Outcome(success: bool, travelTime: real, wallClockTime: real)

  datatype ExperimentResult = ExperimentResult(experiment: Experiment, outcome: Outcome)

  /** The innermost loop: one run per route. */
  function RoutePlan(a: string, s: string, t: string, routes: seq<Route>): (plan: seq<Experiment>)
    ensures |plan| == |routes|
    ensures forall i :: 0 <= i < |routes| ==> plan[i] == Experiment(a, s, t, routes[i])
  {
    if routes == [] then []
    else RoutePlan(a, s, t, routes[..|routes| - 1]) + [Experiment(a, s, t, routes[|routes| - 1])]
  }

  /** Every traffic level, then every route. */
  function TrafficPlan(a: string, s: string, levels: seq<string>, routes: seq<Route>): seq<Experiment> {
    if levels == [] then []
    else TrafficPlan(a, s, levels[..|levels| - 1], routes) + RoutePlan(a, s, levels[|levels| - 1], routes)
  }

  // Arithmetic helper: kept apart so the solver meets the nonlinear step in a small context.
  lemma MulSucc(n: int, g: int)
    ensures n * g + g == (n + 1) * g
  {
  }

  // Arithmetic helper, as MulSucc.
  lemma MulAssoc(a: int, b: int, c: int)
    ensures a * b * c == a * (b * c)
  {
  }

  lemma {:induction false} TrafficPlanSize(a: string, s: string, levels: seq<string>, routes: seq<Route>)
    ensures |TrafficPlan(a, s, levels, routes)| == |levels| * |routes|
  {
    if levels != [] {
      TrafficPlanSize(a, s, levels[..|levels| - 1], routes);
      MulSucc(|levels| - 1, |routes|);
    }
  }

  /** Adaptive A*: every severity, then every traffic level, then every route. */
  function SeverityPlan(severities: seq<string>, levels: seq<string>, routes: seq<Route>): seq<Experiment> {
    if severities == [] then []
    else
      SeverityPlan(severities[..|severities| - 1], levels, routes)
      + TrafficPlan(Adaptive, severities[|severities| - 1], levels, routes)
  }

  lemma {:induction false} SeverityPlanSize(severities: seq<string>, levels: seq<string>, routes: seq<Route>)
    ensures |SeverityPlan(severities, levels, routes)| == |severities| * (|levels| * |routes|)
  {
    if severities != [] {
      var n := |severities| - 1;
      SeverityPlanSize(severities[..n], levels, routes);
      TrafficPlanSize(Adaptive, severities[n], levels, routes);
      MulSucc(n, |levels| * |routes|);
    }
  }

  /** The runs of one algorithm; the baselines run once per traffic level and route, with severity "N/A". */
  function AlgorithmPlan(a: string, severities: seq<string>, levels: seq<string>, routes: seq<Route>): seq<Experiment> {
    if a == Adaptive then SeverityPlan(severities, levels, routes) else TrafficPlan(a, "N/A", levels, routes)
  }

  /** Every run of the batch, in the order the loops make them. */
  function Plan(algorithms: seq<string>, severities: seq<string>, levels: seq<string>, routes: seq<Route>): seq<Experiment> {
    if algorithms == [] then []
    else
      Plan(algorithms[..|algorithms| - 1], severities, levels, routes)
      + AlgorithmPlan(algorithms[|algorithms| - 1], severities, levels, routes)
  }

  function CountOf(xs: seq<string>, x: string): (n: nat)
    ensures n <= |xs|
    ensures n == 0 <==> x !in xs
  {
    if xs == [] then 0
    else CountOf(xs[..|xs| - 1], x) + (if xs[|xs| - 1] == x then 1 else 0)
  }

  lemma {:induction false} CountOfDistinct(xs: seq<string>, x: string)
    requires Distinct(xs)
    ensures CountOf(xs, x) == if x in xs then 1 else 0
  {
    if xs != [] {
      var n := |xs| - 1;
      assert forall i :: 0 <= i < n ==> xs[..n][i] == xs[i];
      CountOfDistinct(xs[..n], x);
      if xs[n] == x {
        assert x !in xs[..n];
      }
    }
  }

  /** The size of a plan with `c` adaptive entries among `n`, given the two grid sizes. */
  function GridCount(c: int, n: int, severityGrid: int, grid: int): int {
    c * severityGrid + (n - c) * grid
  }

  /** Each adaptive entry contributes a severity grid, every other entry one traffic-by-route grid. */
  lemma {:induction false} PlanSize(algorithms: seq<string>, severities: seq<string>, levels: seq<string>, routes: seq<Route>)
    ensures |Plan(algorithms, severities, levels, routes)|
            == GridCount(CountOf(algorithms, Adaptive), |algorithms|, |severities| * (|levels| * |routes|), |levels| * |routes|)
  {
    if algorithms != [] {
      var n := |algorithms| - 1;
      var a := algorithms[n];
      var init := algorithms[..n];
      var grid := |levels| * |routes|;
      var severityGrid := |severities| * grid;
      var before := |Plan(init, severities, levels, routes)|;
      var step := |AlgorithmPlan(a, severities, levels, routes)|;
      assert before == GridCount(CountOf(init, Adaptive), n, severityGrid, grid) by {
        PlanSize(init, severities, levels, routes);
      }
      assert step == if a == Adaptive then severityGrid else grid by {
        if a == Adaptive {
          SeverityPlanSize(severities, levels, routes);
        } else {
          TrafficPlanSize(a, "N/A", levels, routes);
        }
      }
      assert |Plan(algorithms, severities, levels, routes)| == before + step;
      assert CountOf(algorithms, Adaptive) == CountOf(init, Adaptive) + (if a == Adaptive then 1 else 0);
      PlanSizeStep(CountOf(init, Adaptive), n, severityGrid, grid, a == Adaptive);
    }
  }

  // Arithmetic helper for PlanSize: one more algorithm adds one grid.
  lemma PlanSizeStep(c: int, n: int, severityGrid: int, grid: int, adaptive: bool)
    ensures GridCount(c, n, severityGrid, grid) + (if adaptive then severityGrid else grid)
            == GridCount(c + (if adaptive then 1 else 0), n + 1, severityGrid, grid)
  {
    if adaptive {
      MulSucc(c, severityGrid);
    } else {
      MulSucc(n - c, grid);
    }
  }

  /** The experiment count as the code computes it before the loops. */
  function TotalConfigsAsWritten(algorithms: seq<string>, severities: seq<string>, levels: seq<string>, routes: seq<Route>): int {
    var adaptiveConfigs := |severities| * |levels| * |routes|;
    var baselineConfigs := |levels| * |routes| * (|algorithms| - 1);
    if Adaptive in algorithms then adaptiveConfigs + baselineConfigs else baselineConfigs
  }

  /** The count the loops actually run: the `- 1` only stands for adaptive A* when it is selected. */
  function TotalConfigs(algorithms: seq<string>, severities: seq<string>, levels: seq<string>, routes: seq<Route>): int {
    var grid := |levels| * |routes|;
    if Adaptive in algorithms then |severities| * grid + grid * (|algorithms| - 1) else grid * |algorithms|
  }

  /** The corrected count is the number of runs. */
  lemma TotalConfigsCountsRuns(algorithms: seq<string>, severities: seq<string>, levels: seq<string>, routes: seq<Route>)
    requires Distinct(algorithms)
    ensures TotalConfigs(algorithms, severities, levels, routes) == |Plan(algorithms, severities, levels, routes)|
  {
    PlanSize(algorithms, severities, levels, routes);
    CountOfDistinct(algorithms, Adaptive);
    var grid := |levels| * |routes|;
    CountedGrids(CountOf(algorithms, Adaptive), |severities| * grid, |algorithms|, grid);
  }

  // Arithmetic helper for TotalConfigsCountsRuns.
  lemma CountedGrids(c: int, severityGrid: int, n: int, grid: int)
    requires c == 0 || c == 1
    ensures GridCount(c, n, severityGrid, grid) == if c == 1 then severityGrid + grid * (n - 1) else grid * n
  {
  }

  /** With adaptive A* selected the count as written is right. */
  lemma TotalConfigsAsWrittenWithAdaptive(algorithms: seq<string>, severities: seq<string>, levels: seq<string>, routes: seq<Route>)
    requires Distinct(algorithms) && Adaptive in algorithms
    ensures TotalConfigsAsWritten(algorithms, severities, levels, routes) == |Plan(algorithms, severities, levels, routes)|
  {
    TotalConfigsCountsRuns(algorithms, severities, levels, routes);
    MulAssoc(|severities|, |levels|, |routes|);
  }

  /** Without adaptive A* the count as written misses one traffic-by-route grid. */
  lemma TotalConfigsAsWrittenWithoutAdaptive(algorithms: seq<string>, severities: seq<string>, levels: seq<string>, routes: seq<Route>)
    requires Distinct(algorithms) && Adaptive !in algorithms
    ensures TotalConfigsAsWritten(algorithms, severities, levels, routes)
            == |Plan(algorithms, severities, levels, routes)| - |levels| * |routes|
  {
    TotalConfigsCountsRuns(algorithms, severities, levels, routes);
  }

  // ---------------------------------------------------------------- cooldowns

  /**
   * The number of cooldowns after `completed` runs, when a run is followed by one iff
   * its position is below `total` and the cooldown is positive.
   */
  function CooldownsAfter(completed: nat, total: int, cooldown: int): nat {
    if cooldown <= 0 then 0
    else if completed < total then completed
    else if total > 0 then total - 1
    else 0
  }

  /** With the true count every run but the last is followed by a cooldown. */
  lemma CooldownBetweenEveryRun(n: nat, cooldown: int)
    requires cooldown > 0 && n > 0
    ensures CooldownsAfter(n, n, cooldown) == n - 1
  {
  }

  /**
   * With the count as written, a batch of two dijkstra runs (one traffic level, two
   * routes) is counted as zero, so no cooldown separates the two runs.
   */
  lemma CooldownSkippedAsWritten(r1: Route, r2: Route)
    ensures var algorithms, levels, routes := ["dijkstra"], ["low"], [r1, r2];
            && |Plan(algorithms, AllSeverities, levels, routes)| == 2
            && TotalConfigsAsWritten(algorithms, AllSeverities, levels, routes) == 0
            && CooldownsAfter(2, TotalConfigsAsWritten(algorithms, AllSeverities, levels, routes), 30) == 0
            && CooldownsAfter(2, TotalConfigs(algorithms, AllSeverities, levels, routes), 30) == 1
  {
    var algorithms, levels, routes := ["dijkstra"], ["low"], [r1, r2];
    assert Distinct(algorithms);
    TotalConfigsCountsRuns(algorithms, AllSeverities, levels, routes);
  }

  function Record(e: Experiment, run: Experiment -> Outcome): ExperimentResult {
    ExperimentResult(e, run(e))
  }

  /** The results of running a plan, one per experiment, in order. */
  function Results(plan: seq<Experiment>, run: Experiment -> Outcome): (rs: seq<ExperimentResult>)
    ensures |rs| == |plan|
  {
    if plan == [] then [] else Results(plan[..|plan| - 1], run) + [Record(plan[|plan| - 1], run)]
  }

  lemma {:induction false} ResultsAppend(a: seq<Experiment>, b: seq<Experiment>, run: Experiment -> Outcome)
    ensures Results(a + b, run) == Results(a, run) + Results(b, run)
  {
    if b != [] {
      var n := |b| - 1;
      ResultsAppend(a, b[..n], run);
      assert (a + b)[..|a + b| - 1] == a + b[..n];
    } else {
      assert a + b == a;
    }
  }

  // ---------------------------------------------------------------- the runner

  class Runner {
    const algorithms: seq<string>
    const severities: seq<string>
    const trafficLevels: seq<string>
    const routes: seq<Route>
    const cooldown: int
    var results: seq<ExperimentResult>

    /** Empty arguments fall back to the defaults; unknown algorithm names are dropped. */
    constructor (wanted: seq<string>, levels: seq<string>, sevs: seq<string>, rs: seq<Route>, cooldownSeconds: int)
      ensures algorithms == SelectAlgorithms(wanted)
      ensures severities == (if sevs != [] then sevs else AllSeverities)
      ensures trafficLevels == (if levels != [] then levels else AllTrafficLevels)
      ensures routes == (if rs != [] then rs else DefaultRoutes)
      ensures cooldown == cooldownSeconds && results == []
    {
      algorithms := SelectAlgorithms(wanted);
      severities := if sevs != [] then sevs else AllSeverities;
      trafficLevels := if levels != [] then levels else AllTrafficLevels;
      routes := if rs != [] then rs else DefaultRoutes;
      cooldown := cooldownSeconds;
      results := [];
    }

    /** One run: record its result, count it, and cool down unless it was the last one. */
    method RunOne(e: Experiment, run: Experiment -> Outcome, completed: nat, total: int, cooldowns: nat)
      returns (completed': nat, cooldowns': nat)
      requires cooldowns == CooldownsAfter(completed, total, cooldown)
      modifies this
      ensures results == old(results) + [Record(e, run)]
      ensures completed' == completed + 1 && cooldowns' == CooldownsAfter(completed', total, cooldown)
    {
      results := results + [Record(e, run)];
      completed' := completed + 1;
      cooldowns' := cooldowns;
      if completed' < total && cooldown > 0 {
        cooldowns' := cooldowns' + 1;
      }
    }

    method RunRoutes(a: string, s: string, t: string, run: Experiment -> Outcome, completed: nat, total: int, cooldowns: nat)
      returns (completed': nat, cooldowns': nat)
      requires cooldowns == CooldownsAfter(completed, total, cooldown)
      modifies this
      ensures results == old(results) + Results(RoutePlan(a, s, t, routes), run)
      ensures completed' == completed + |routes| && cooldowns' == CooldownsAfter(completed', total, cooldown)
    {
      completed', cooldowns' := completed, cooldowns;
      var i := 0;
      while i < |routes|
        invariant 0 <= i <= |routes|
        invariant results == old(results) + Results(RoutePlan(a, s, t, routes[..i]), run)
        invariant completed' == completed + i && cooldowns' == CooldownsAfter(completed', total, cooldown)
      {
        assert routes[..i + 1][..i] == routes[..i];
        completed', cooldowns' := RunOne(Experiment(a, s, t, routes[i]), run, completed', total, cooldowns');
        i := i + 1;
      }
      assert routes[..i] == routes;
    }

    method RunTraffic(a: string, s: string, run: Experiment -> Outcome, completed: nat, total: int, cooldowns: nat)
      returns (completed': nat, cooldowns': nat)
      requires cooldowns == CooldownsAfter(completed, total, cooldown)
      modifies this
      ensures results == old(results) + Results(TrafficPlan(a, s, trafficLevels, routes), run)
      ensures completed' == completed + |TrafficPlan(a, s, trafficLevels, routes)|
      ensures cooldowns' == CooldownsAfter(completed', total, cooldown)
    {
      completed', cooldowns' := completed, cooldowns;
      var i := 0;
      while i < |trafficLevels|
        invariant 0 <= i <= |trafficLevels|
        invariant results == old(results) + Results(TrafficPlan(a, s, trafficLevels[..i], routes), run)
        invariant completed' == completed + |TrafficPlan(a, s, trafficLevels[..i], routes)|
        invariant cooldowns' == CooldownsAfter(completed', total, cooldown)
      {
        ghost var done := TrafficPlan(a, s, trafficLevels[..i], routes);
        ghost var next := RoutePlan(a, s, trafficLevels[i], routes);
        assert TrafficPlan(a, s, trafficLevels[..i + 1], routes) == done + next by {
          assert trafficLevels[..i + 1][..i] == trafficLevels[..i];
        }
        assert Results(done + next, run) == Results(done, run) + Results(next, run) by {
          ResultsAppend(done, next, run);
        }
        completed', cooldowns' := RunRoutes(a, s, trafficLevels[i], run, completed', total, cooldowns');
        assert results == old(results) + Results(TrafficPlan(a, s, trafficLevels[..i + 1], routes), run) by {
          ConcatAssoc(old(results), Results(done, run), Results(next, run));
        }
        i := i + 1;
      }
      assert trafficLevels[..i] == trafficLevels;
    }

    method RunSeverities(run: Experiment -> Outcome, completed: nat, total: int, cooldowns: nat)
      returns (completed': nat, cooldowns': nat)
      requires cooldowns == CooldownsAfter(completed, total, cooldown)
      modifies this
      ensures results == old(results) + Results(SeverityPlan(severities, trafficLevels, routes), run)
      ensures completed' == completed + |SeverityPlan(severities, trafficLevels, routes)|
      ensures cooldowns' == CooldownsAfter(completed', total, cooldown)
    {
      completed', cooldowns' := completed, cooldowns;
      var i := 0;
      while i < |severities|
        invariant 0 <= i <= |severities|
        invariant results == old(results) + Results(SeverityPlan(severities[..i], trafficLevels, routes), run)
        invariant completed' == completed + |SeverityPlan(severities[..i], trafficLevels, routes)|
        invariant cooldowns' == CooldownsAfter(completed', total, cooldown)
      {
        ghost var done := SeverityPlan(severities[..i], trafficLevels, routes);
        ghost var next := TrafficPlan(Adaptive, severities[i], trafficLevels, routes);
        assert SeverityPlan(severities[..i + 1], trafficLevels, routes) == done + next by {
          assert severities[..i + 1][..i] == severities[..i];
        }
        assert Results(done + next, run) == Results(done, run) + Results(next, run) by {
          ResultsAppend(done, next, run);
        }
        completed', cooldowns' := RunTraffic(Adaptive, severities[i], run, completed', total, cooldowns');
        assert results == old(results) + Results(SeverityPlan(severities[..i + 1], trafficLevels, routes), run) by {
          ConcatAssoc(old(results), Results(done, run), Results(next, run));
        }
        i := i + 1;
      }
      assert severities[..i] == severities;
    }

    /** The runs of one algorithm: the severity grid for adaptive A*, else one traffic-by-route grid. */
    method RunAlgorithm(a: string, run: Experiment -> Outcome, completed: nat, total: int, cooldowns: nat)
      returns (completed': nat, cooldowns': nat)
      requires cooldowns == CooldownsAfter(completed, total, cooldown)
      modifies this
      ensures results == old(results) + Results(AlgorithmPlan(a, severities, trafficLevels, routes), run)
      ensures completed' == completed + |AlgorithmPlan(a, severities, trafficLevels, routes)|
      ensures cooldowns' == CooldownsAfter(completed', total, cooldown)
    {
      if a == Adaptive {
        completed', cooldowns' := RunSeverities(run, completed, total, cooldowns);
      } else {
        completed', cooldowns' := RunTraffic(a, "N/A", run, completed, total, cooldowns);
      }
    }

    /** The loops over the algorithms, counting runs and cooldowns against `total`. */
    method RunPlan(run: Experiment -> Outcome, total: int) returns (completed: nat, cooldowns: nat)
      modifies this
      ensures results == old(results) + Results(Plan(algorithms, severities, trafficLevels, routes), run)
      ensures completed == |Plan(algorithms, severities, trafficLevels, routes)|
      ensures cooldowns == CooldownsAfter(completed, total, cooldown)
    {
      completed := 0;
      cooldowns := 0;
      var k := 0;
      while k < |algorithms|
        invariant 0 <= k <= |algorithms|
        invariant results == old(results) + Results(Plan(algorithms[..k], severities, trafficLevels, routes), run)
        invariant completed == |Plan(algorithms[..k], severities, trafficLevels, routes)|
        invariant cooldowns == CooldownsAfter(completed, total, cooldown)
      {
        ghost var done := Plan(algorithms[..k], severities, trafficLevels, routes);
        ghost var next := AlgorithmPlan(algorithms[k], severities, trafficLevels, routes);
        assert Plan(algorithms[..k + 1], severities, trafficLevels, routes) == done + next by {
          assert algorithms[..k + 1][..k] == algorithms[..k];
        }
        assert Results(done + next, run) == Results(done, run) + Results(next, run) by {
          ResultsAppend(done, next, run);
        }
        completed, cooldowns := RunAlgorithm(algorithms[k], run, completed, total, cooldowns);
        assert results == old(results) + Results(Plan(algorithms[..k + 1], severities, trafficLevels, routes), run) by {
          ConcatAssoc(old(results), Results(done, run), Results(next, run));
        }
        k := k + 1;
      }
      assert algorithms[..k] == algorithms;
    }

    /**
     * `run_all_experiments` with the corrected experiment count: every configuration
     * runs once, in loop order, and every run but the last is followed by a cooldown.
     */
    method RunAllExperiments(run: Experiment -> Outcome) returns (cooldowns: nat)
      requires Distinct(algorithms)
      modifies this
      ensures results == old(results) + Results(Plan(algorithms, severities, trafficLevels, routes), run)
      ensures var n := |Plan(algorithms, severities, trafficLevels, routes)|;
              cooldowns == if cooldown > 0 && n > 0 then n - 1 else 0
    {
      var total := TotalConfigs(algorithms, severities, trafficLevels, routes);
      assert total == |Plan(algorithms, severities, trafficLevels, routes)| by {
        TotalConfigsCountsRuns(algorithms, severities, trafficLevels, routes);
      }
      var completed;
      completed, cooldowns := RunPlan(run, total);
      if cooldown > 0 && completed > 0 {
        CooldownBetweenEveryRun(completed, cooldown);
      }
    }
  }
}
