/**
 * The analysis of a batch of experiment results: the success filter, the grouping of
 * successful runs by configuration, the per-configuration comparison of the adaptive
 * router against each baseline, the improvement percentage and the effect-size labels.
 *
 * The statistical routines of the analysis (the two-sample t-test, the standard
 * deviation behind the pooled deviation, the t-distribution quantile behind a
 * confidence interval) are oracles.
 */
module Analyzer {
  import opened Common
  import opened BatchRunner
  import Config

  // ---------------------------------------------------------------- the success filter

  /** The successful results, in their original order. */
  function Successful(results: seq<ExperimentResult>): (s: seq<ExperimentResult>)
    ensures |s| <= |results|
  {
    if results == [] then []
    else
      var last := results[|results| - 1];
      Successful(results[..|results| - 1]) + (if last.outcome.success then [last] else [])
  }

  /** A result is kept exactly when it is in the input and succeeded. */
  lemma {:induction false} SuccessfulMembers(results: seq<ExperimentResult>, r: ExperimentResult)
    ensures r in Successful(results) <==> r in results && r.outcome.success
  {
    if results != [] {
      var n := |results| - 1;
      SuccessfulMembers(results[..n], r);
      assert results == results[..n] + [results[n]];
    }
  }

  /** Filtering commutes with concatenation, so the original order is kept. */
  lemma {:induction false} SuccessfulAppend(a: seq<ExperimentResult>, b: seq<ExperimentResult>)
    ensures Successful(a + b) == Successful(a) + Successful(b)
  {
    if b == [] {
      assert a + b == a;
    } else {
      var n := |b| - 1;
      var ab := a + b;
      SuccessfulAppend(a, b[..n]);
      assert ab[..|ab| - 1] == a + b[..n];
      assert ab[|ab| - 1] == b[n];
      ConcatAssoc(Successful(a), Successful(b[..n]), if b[n].outcome.success then [b[n]] else []);
    }
  }

  // ---------------------------------------------------------------- grouping

  /** A configuration: algorithm, severity, traffic level and route name. */
  datatype Key = Key(algorithm: string, severity: string, traffic: string, route: string)

  datatype Group = Group(travelTimes: seq<real>, computationTimes: seq<real>)

  /** The group of a result: a baseline's severity is replaced by "N/A". */
  function KeyOf(r: ExperimentResult): Key {
    var e := r.experiment;
    Key(e.algorithm, if e.algorithm == Adaptive then e.severity else "N/A", e.traffic, e.route.name)
  }

  /** The results that fall into the group `k`, in order. */
  function Matching(rs: seq<ExperimentResult>, k: Key): (m: seq<ExperimentResult>)
    ensures |m| <= |rs|
  {
    if rs == [] then []
    else
      var last := rs[|rs| - 1];
      Matching(rs[..|rs| - 1], k) + (if KeyOf(last) == k then [last] else [])
  }

  function TravelTimes(rs: seq<ExperimentResult>): (ts: seq<real>)
    ensures |ts| == |rs|
  {
    if rs == [] then [] else TravelTimes(rs[..|rs| - 1]) + [rs[|rs| - 1].outcome.travelTime]
  }

  function ComputationTimes(rs: seq<ExperimentResult>): (ts: seq<real>)
    ensures |ts| == |rs|
  {
    if rs == [] then [] else ComputationTimes(rs[..|rs| - 1]) + [rs[|rs| - 1].outcome.wallClockTime]
  }

  /** The group the analysis builds for `k` from `rs`. */
  function GroupOf(rs: seq<ExperimentResult>, k: Key): Group {
    var m := Matching(rs, k);
    Group(TravelTimes(m), ComputationTimes(m))
  }

  /** A result is in the group `k` exactly when it is one of the results and its key is `k`. */
  lemma {:induction false} MatchingMembers(rs: seq<ExperimentResult>, k: Key)
    ensures forall r :: r in Matching(rs, k) <==> r in rs && KeyOf(r) == k
  {
    if rs != [] {
      var init := rs[..|rs| - 1];
      MatchingMembers(init, k);
      assert rs == init + [rs[|rs| - 1]];
    }
  }

  lemma MatchingStep(rs: seq<ExperimentResult>, r: ExperimentResult, k: Key)
    ensures Matching(rs + [r], k) == Matching(rs, k) + (if KeyOf(r) == k then [r] else [])
    ensures GroupOf(rs + [r], k) == if KeyOf(r) == k
                                    then Group(GroupOf(rs, k).travelTimes + [r.outcome.travelTime],
                                               GroupOf(rs, k).computationTimes + [r.outcome.wallClockTime])
                                    else GroupOf(rs, k)
  {
    assert (rs + [r])[..|rs|] == rs;
    var m := Matching(rs, k);
    if KeyOf(r) == k {
      assert (m + [r])[..|m|] == m;
      assert TravelTimes(m + [r]) == TravelTimes(m) + [r.outcome.travelTime];
      assert ComputationTimes(m + [r]) == ComputationTimes(m) + [r.outcome.wallClockTime];
    } else {
      assert m + [] == m;
    }
  }

  /** A group is non-empty exactly when some result carries its key. */
  lemma {:induction false} MatchingNonEmpty(rs: seq<ExperimentResult>, k: Key)
    ensures Matching(rs, k) != [] <==> exists r :: r in rs && KeyOf(r) == k
  {
    if rs != [] {
      var n := |rs| - 1;
      MatchingNonEmpty(rs[..n], k);
      assert rs == rs[..n] + [rs[n]];
      if KeyOf(rs[n]) != k {
        forall r | r in rs && KeyOf(r) == k
          ensures r in rs[..n]
        {
          var j :| 0 <= j < |rs| && rs[j] == r;
          assert j < n && rs[..n][j] == r;
        }
      }
    }
  }

  /** `grouped` holds exactly the non-empty groups of `rs`. */
  ghost predicate GroupsOf(grouped: map<Key, Group>, rs: seq<ExperimentResult>) {
    && (forall k :: k in grouped <==> Matching(rs, k) != [])
    && (forall k :: k in grouped ==> grouped[k] == GroupOf(rs, k))
  }

  /** The grouping after one more result: its group is created empty if missing, then the result's times are appended. */
  function AddToGroup(grouped: map<Key, Group>, r: ExperimentResult): map<Key, Group> {
    var g := if KeyOf(r) in grouped then grouped[KeyOf(r)] else Group([], []);
    grouped[KeyOf(r) := Group(g.travelTimes + [r.outcome.travelTime], g.computationTimes + [r.outcome.wallClockTime])]
  }

  /** The grouping `group_results` builds, one result at a time. */
  function Grouped(rs: seq<ExperimentResult>): map<Key, Group> {
    if rs == [] then map[] else AddToGroup(Grouped(rs[..|rs| - 1]), rs[|rs| - 1])
  }

  /** Appending one result to its own group keeps the grouping exact. */
  lemma GroupsStep(grouped: map<Key, Group>, rs: seq<ExperimentResult>, r: ExperimentResult)
    requires GroupsOf(grouped, rs)
    ensures GroupsOf(AddToGroup(grouped, r), rs + [r])
  {
    var next := AddToGroup(grouped, r);
    forall k
      ensures k in next <==> Matching(rs + [r], k) != []
      ensures k in next ==> next[k] == GroupOf(rs + [r], k)
    {
      MatchingStep(rs, r, k);
      if k == KeyOf(r) && k !in grouped {
        assert Matching(rs, k) == [];
        assert GroupOf(rs, k) == Group([], []);
      }
    }
  }

  /** The grouping built result by result holds exactly the non-empty groups. */
  lemma {:induction false} GroupedIsGroupOf(rs: seq<ExperimentResult>)
    ensures GroupsOf(Grouped(rs), rs)
  {
    if rs != [] {
      var init, last := rs[..|rs| - 1], rs[|rs| - 1];
      assert init + [last] == rs;
      assert Grouped(rs) == AddToGroup(Grouped(init), last);
      GroupedIsGroupOf(init);
      GroupsStep(Grouped(init), init, last);
    }
  }

  /**
   * `group_results`: one group per key present, holding the travel and computation
   * times of the results with that key, in the order of the results.
   */
  method GroupResults(successful: seq<ExperimentResult>) returns (grouped: map<Key, Group>)
    ensures forall k :: k in grouped <==> Matching(successful, k) != []
    ensures forall k :: k in grouped ==> grouped[k] == GroupOf(successful, k)
  {
    grouped := map[];
    var i := 0;
    while i < |successful|
      invariant 0 <= i <= |successful|
      invariant grouped == Grouped(successful[..i])
    {
      var r := successful[i];
      var severity := if r.experiment.algorithm == Adaptive then r.experiment.severity else "N/A";
      var key := Key(r.experiment.algorithm, severity, r.experiment.traffic, r.experiment.route.name);
      if key !in grouped {
        grouped := grouped[key := Group([], [])];
      }
      var g := grouped[key];
      grouped := grouped[key := Group(g.travelTimes + [r.outcome.travelTime], g.computationTimes + [r.outcome.wallClockTime])];
      assert successful[..i + 1][..i] == successful[..i];
      i := i + 1;
    }
    assert successful[..i] == successful;
    GroupedIsGroupOf(successful);
  }

  /** The sizes of the groups named by `keys`, added up. */
  function GroupSizes(keys: seq<Key>, rs: seq<ExperimentResult>): nat {
    if keys == [] then 0 else |Matching(rs, keys[0])| + GroupSizes(keys[1..], rs)
  }

  predicate DistinctKeys(keys: seq<Key>) {
    forall i, j :: 0 <= i < j < |keys| ==> keys[i] != keys[j]
  }

  lemma {:induction false} GroupSizesStep(keys: seq<Key>, rs: seq<ExperimentResult>, r: ExperimentResult)
    requires DistinctKeys(keys)
    ensures GroupSizes(keys, rs + [r]) == GroupSizes(keys, rs) + (if KeyOf(r) in keys then 1 else 0)
  {
    if keys != [] {
      var k0 := keys[0];
      var rest := keys[1..];
      assert DistinctKeys(rest) by {
        forall i, j | 0 <= i < j < |rest|
          ensures rest[i] != rest[j]
        {
          assert rest[i] == keys[i + 1] && rest[j] == keys[j + 1];
        }
      }
      GroupSizesStep(rest, rs, r);
      assert |Matching(rs + [r], k0)| == |Matching(rs, k0)| + (if KeyOf(r) == k0 then 1 else 0) by {
        MatchingStep(rs, r, k0);
      }
      assert (KeyOf(r) in keys) == (KeyOf(r) == k0 || KeyOf(r) in rest) by {
        assert keys == [k0] + rest;
      }
      if KeyOf(r) == k0 {
        assert KeyOf(r) !in rest by {
          forall j | 0 <= j < |rest|
            ensures rest[j] != k0
          {
            assert rest[j] == keys[j + 1];
          }
        }
      }
    }
  }

  /**
   * Every result lands in exactly one group: over distinct keys covering every result,
   * the group sizes add up to the number of results.
   */
  lemma {:induction false} GroupSizesSum(keys: seq<Key>, rs: seq<ExperimentResult>)
    requires DistinctKeys(keys)
    requires forall r :: r in rs ==> KeyOf(r) in keys
    ensures GroupSizes(keys, rs) == |rs|
  {
    if rs == [] {
      GroupSizesOfNothing(keys);
    } else {
      var n := |rs| - 1;
      assert rs == rs[..n] + [rs[n]];
      GroupSizesSum(keys, rs[..n]);
      GroupSizesStep(keys, rs[..n], rs[n]);
    }
  }

  lemma {:induction false} GroupSizesOfNothing(keys: seq<Key>)
    ensures GroupSizes(keys, []) == 0
  {
    if keys != [] {
      GroupSizesOfNothing(keys[1..]);
    }
  }

  // ---------------------------------------------------------------- summary statistics

  function Sum(xs: seq<real>): real {
    if xs == [] then 0.0 else Sum(xs[..|xs| - 1]) + xs[|xs| - 1]
  }

  /** `statistics.mean`; the analysis only calls it on non-empty lists. */
  function Mean(xs: seq<real>): real
    requires |xs| > 0
  {
    Sum(xs) / (|xs| as real)
  }

  lemma {:induction false} SumBounds(xs: seq<real>, lo: real, hi: real)
    requires forall i :: 0 <= i < |xs| ==> lo <= xs[i] <= hi
    ensures (|xs| as real) * lo <= Sum(xs) <= (|xs| as real) * hi
  {
    if xs != [] {
      var n := |xs| - 1;
      SumBounds(xs[..n], lo, hi);
      assert lo <= xs[n] <= hi;
      assert (|xs| as real) * lo == (n as real) * lo + lo;
      assert (|xs| as real) * hi == (n as real) * hi + hi;
    }
  }

  lemma MeanOfOne(xs: seq<real>)
    requires |xs| == 1
    ensures Mean(xs) == xs[0]
  {
    assert xs[..0] == [];
    assert Sum(xs) == xs[0];
  }

  /** The mean lies between any lower and upper bound of the values. */
  lemma MeanBounds(xs: seq<real>, lo: real, hi: real)
    requires |xs| > 0
    requires forall i :: 0 <= i < |xs| ==> lo <= xs[i] <= hi
    ensures lo <= Mean(xs) <= hi
  {
    SumBounds(xs, lo, hi);
    var n := |xs| as real;
    assert Sum(xs) / n * n == Sum(xs);
    assert Sum(xs) / n >= lo by { assert Sum(xs) >= n * lo; }
    assert Sum(xs) / n <= hi by { assert Sum(xs) <= n * hi; }
  }

  /**
   * `confidence_interval`: (0, 0) for fewer than two values; otherwise the mean plus and
   * minus a margin, the t-distribution quantile times the standard error (an oracle).
   */
  function ConfidenceInterval(data: seq<real>, margin: seq<real> -> real): (ci: (real, real)) {
    if |data| < 2 then (0.0, 0.0)
    else (Mean(data) - margin(data), Mean(data) + margin(data))
  }

  /** The interval is degenerate for a single run and centred on the mean otherwise. */
  lemma ConfidenceIntervalCentred(data: seq<real>, margin: seq<real> -> real)
    ensures |data| < 2 ==> ConfidenceInterval(data, margin) == (0.0, 0.0)
    ensures |data| >= 2 ==> (ConfidenceInterval(data, margin).0 + ConfidenceInterval(data, margin).1) / 2.0 == Mean(data)
    ensures |data| >= 2 && margin(data) >= 0.0 ==> ConfidenceInterval(data, margin).0 <= Mean(data) <= ConfidenceInterval(data, margin).1
  {
  }

  // ---------------------------------------------------------------- effect sizes and improvement

  /** `_interpret_effect_size`. */
  function InterpretEffectSize(d: real): string {
    if d < 0.2 then "negligible"
    else if d < 0.5 then "small"
    else if d < 0.8 then "medium"
    else "large"
  }

  /** The position of a label on the scale negligible < small < medium < large. */
  function EffectRank(effect: string): nat {
    if effect == "negligible" then 0
    else if effect == "small" then 1
    else if effect == "medium" then 2
    else 3
  }

  /** Each label covers exactly its band of `d`. */
  lemma EffectSizeBands(d: real)
    ensures InterpretEffectSize(d) == "negligible" <==> d < 0.2
    ensures InterpretEffectSize(d) == "small" <==> 0.2 <= d < 0.5
    ensures InterpretEffectSize(d) == "medium" <==> 0.5 <= d < 0.8
    ensures InterpretEffectSize(d) == "large" <==> 0.8 <= d
  {
  }

  /** A larger effect never gets a smaller label. */
  lemma EffectSizeMonotone(d1: real, d2: real)
    requires d1 <= d2
    ensures EffectRank(InterpretEffectSize(d1)) <= EffectRank(InterpretEffectSize(d2))
  {
  }

  /** The improvement of the adaptive mean over the baseline mean, in percent of the baseline. */
  function ImprovementPct(adaptiveMean: real, baselineMean: real): real {
    if baselineMean > 0.0 then (baselineMean - adaptiveMean) / baselineMean * 100.0 else 0.0
  }

  /** Positive improvement means the adaptive router is faster, zero means a tie. */
  lemma ImprovementSign(adaptiveMean: real, baselineMean: real)
    ensures baselineMean <= 0.0 ==> ImprovementPct(adaptiveMean, baselineMean) == 0.0
    ensures baselineMean > 0.0 ==> (ImprovementPct(adaptiveMean, baselineMean) > 0.0 <==> adaptiveMean < baselineMean)
    ensures baselineMean > 0.0 ==> (ImprovementPct(adaptiveMean, baselineMean) == 0.0 <==> adaptiveMean == baselineMean)
  {
    if baselineMean > 0.0 {
      var q := (baselineMean - adaptiveMean) / baselineMean;
      assert q * baselineMean == baselineMean - adaptiveMean;
    }
  }

  /** The adaptive mean is recovered from the baseline mean and the improvement. */
  lemma ImprovementInverts(adaptiveMean: real, baselineMean: real)
    requires baselineMean > 0.0
    ensures adaptiveMean == baselineMean - baselineMean * ImprovementPct(adaptiveMean, baselineMean) / 100.0
  {
    var q := (baselineMean - adaptiveMean) / baselineMean;
    assert q * baselineMean == baselineMean - adaptiveMean;
  }

  // ---------------------------------------------------------------- comparisons

  datatype Comparison = Comparison(
    baselineAlgorithm: string, severity: string, traffic: string, route: string,
    adaptiveMean: real, baselineMean: real, difference: real, improvementPct: real,
    tStatistic: real, pValue: real, significant: bool, cohensD: real, effectSize: string)

  /**
   * The outcome of one candidate comparison: skipped by a `continue`, made, or
   * stopped by a division by a zero pooled deviation (which raises in the analysis).
   */
  datatype Cell = Skipped | Compared(comparison: Comparison) | ZeroPooledStd

  /** The statistical routines: the t-test gives (t, p), the pooled standard deviation a real. */
  datatype Statistics = Statistics(tTest: (seq<real>, seq<real>) -> (real, real), pooledStd: (seq<real>, seq<real>) -> real)

  /** One comparison of adaptive against baseline travel times; both lists are non-empty. */
  function Compare(baseline: string, severity: string, traffic: string, route: string,
                   adaptiveTimes: seq<real>, baselineTimes: seq<real>, st: Statistics): Cell
    requires |adaptiveTimes| >= 1 && |baselineTimes| >= 1
  {
    var am := Mean(adaptiveTimes);
    var bm := Mean(baselineTimes);
    var tested := |adaptiveTimes| > 1 && |baselineTimes| > 1;
    if tested && st.pooledStd(adaptiveTimes, baselineTimes) == 0.0 then ZeroPooledStd
    else
      var t := if tested then st.tTest(adaptiveTimes, baselineTimes).0 else 0.0;
      var p := if tested then st.tTest(adaptiveTimes, baselineTimes).1 else 1.0;
      var d := if tested then (am - bm) / st.pooledStd(adaptiveTimes, baselineTimes) else 0.0;
      Compared(Comparison(baseline, severity, traffic, route, am, bm, am - bm, ImprovementPct(am, bm),
                          t, p, if |adaptiveTimes| > 1 then p < 0.05 else false, d,
                          if |adaptiveTimes| > 1 then InterpretEffectSize(Config.Abs(d)) else "N/A"))
  }

  /** A single adaptive run: no test, no significance and no effect size. */
  lemma SingleAdaptiveRun(baseline: string, severity: string, traffic: string, route: string,
                          adaptiveTimes: seq<real>, baselineTimes: seq<real>, st: Statistics)
    requires |adaptiveTimes| == 1 && |baselineTimes| >= 1
    ensures var c := Compare(baseline, severity, traffic, route, adaptiveTimes, baselineTimes, st);
            && c.Compared?
            && c.comparison.tStatistic == 0.0 && c.comparison.pValue == 1.0 && c.comparison.cohensD == 0.0
            && !c.comparison.significant && c.comparison.effectSize == "N/A"
            && c.comparison.adaptiveMean == adaptiveTimes[0]
  {
    MeanOfOne(adaptiveTimes);
  }

  /**
   * Several adaptive runs against a single baseline run: no test either, but the effect
   * label is computed from the zero effect and reads "negligible", not "N/A".
   */
  lemma SingleBaselineRun(baseline: string, severity: string, traffic: string, route: string,
                          adaptiveTimes: seq<real>, baselineTimes: seq<real>, st: Statistics)
    requires |adaptiveTimes| > 1 && |baselineTimes| == 1
    ensures var c := Compare(baseline, severity, traffic, route, adaptiveTimes, baselineTimes, st);
            && c.Compared?
            && c.comparison.tStatistic == 0.0 && c.comparison.pValue == 1.0 && c.comparison.cohensD == 0.0
            && !c.comparison.significant && c.comparison.effectSize == "negligible"
            && c.comparison.baselineMean == baselineTimes[0]
  {
    MeanOfOne(baselineTimes);
  }

  /** A made comparison reports the means, their difference and the improvement of the first over the second. */
  lemma CompareReportsMeans(baseline: string, severity: string, traffic: string, route: string,
                            adaptiveTimes: seq<real>, baselineTimes: seq<real>, st: Statistics)
    requires |adaptiveTimes| >= 1 && |baselineTimes| >= 1
    ensures var c := Compare(baseline, severity, traffic, route, adaptiveTimes, baselineTimes, st);
            c.ZeroPooledStd? <==> |adaptiveTimes| > 1 && |baselineTimes| > 1 && st.pooledStd(adaptiveTimes, baselineTimes) == 0.0
    ensures var c := Compare(baseline, severity, traffic, route, adaptiveTimes, baselineTimes, st);
            c.Compared? ==>
              && c.comparison.adaptiveMean == Mean(adaptiveTimes) && c.comparison.baselineMean == Mean(baselineTimes)
              && c.comparison.difference == c.comparison.adaptiveMean - c.comparison.baselineMean
              && (Mean(baselineTimes) > 0.0 ==> (c.comparison.improvementPct > 0.0 <==> Mean(adaptiveTimes) < Mean(baselineTimes)))
              && (c.comparison.significant ==> c.comparison.pValue < 0.05)
  {
    ImprovementSign(Mean(adaptiveTimes), Mean(baselineTimes));
  }

  /** The adaptive travel times the comparison collects for one severity, traffic level and route. */
  function AdaptiveTimes(successful: seq<ExperimentResult>, severity: string, traffic: string, route: string): seq<real> {
    if successful == [] then []
    else
      var r := successful[|successful| - 1];
      var e := r.experiment;
      AdaptiveTimes(successful[..|successful| - 1], severity, traffic, route)
        + (if e.algorithm == Adaptive && e.severity == severity && e.traffic == traffic && e.route.name == route
           then [r.outcome.travelTime] else [])
  }

  /** A baseline's travel times for one traffic level and route, whatever the severity recorded. */
  function BaselineTimes(successful: seq<ExperimentResult>, algorithm: string, traffic: string, route: string): seq<real> {
    if successful == [] then []
    else
      var r := successful[|successful| - 1];
      var e := r.experiment;
      BaselineTimes(successful[..|successful| - 1], algorithm, traffic, route)
        + (if e.algorithm == algorithm && e.traffic == traffic && e.route.name == route
           then [r.outcome.travelTime] else [])
  }

  /** The adaptive list a comparison collects is the travel-time list of the adaptive group. */
  lemma {:induction false} AdaptiveTimesAreGroupTimes(successful: seq<ExperimentResult>, severity: string, traffic: string, route: string)
    ensures AdaptiveTimes(successful, severity, traffic, route)
            == GroupOf(successful, Key(Adaptive, severity, traffic, route)).travelTimes
  {
    if successful != [] {
      var n := |successful| - 1;
      AdaptiveTimesAreGroupTimes(successful[..n], severity, traffic, route);
      assert successful == successful[..n] + [successful[n]];
      MatchingStep(successful[..n], successful[n], Key(Adaptive, severity, traffic, route));
    }
  }

  /** A baseline's list is the travel-time list of its "N/A" group. */
  lemma {:induction false} BaselineTimesAreGroupTimes(successful: seq<ExperimentResult>, algorithm: string, traffic: string, route: string)
    requires algorithm != Adaptive
    ensures BaselineTimes(successful, algorithm, traffic, route)
            == GroupOf(successful, Key(algorithm, "N/A", traffic, route)).travelTimes
  {
    if successful != [] {
      var n := |successful| - 1;
      BaselineTimesAreGroupTimes(successful[..n], algorithm, traffic, route);
      assert successful == successful[..n] + [successful[n]];
      MatchingStep(successful[..n], successful[n], Key(algorithm, "N/A", traffic, route));
    }
  }

  /** What the analysis records about the batch: the lists it loops over. */
  datatype Metadata = Metadata(algorithms: seq<string>, severities: seq<string>, trafficLevels: seq<string>, routeNames: seq<string>)

  /**
   * The comparison for one baseline, severity, traffic level and route, with every
   * `continue` of the loops; a key is in the statistics exactly when its group is
   * non-empty.
   */
  function ComparisonAt(successful: seq<ExperimentResult>, k: Key, st: Statistics): Cell {
    if k.algorithm == Adaptive then Skipped
    else if Matching(successful, Key(Adaptive, k.severity, k.traffic, k.route)) == [] then Skipped
    else
      var adaptiveTimes := AdaptiveTimes(successful, k.severity, k.traffic, k.route);
      if |adaptiveTimes| < 1 then Skipped
      else if Matching(successful, Key(k.algorithm, "N/A", k.traffic, k.route)) == [] then Skipped
      else
        var baselineTimes := BaselineTimes(successful, k.algorithm, k.traffic, k.route);
        if |baselineTimes| < 1 then Skipped
        else Compare(k.algorithm, k.severity, k.traffic, k.route, adaptiveTimes, baselineTimes, st)
  }

  /** Every (algorithm, severity, traffic level, route) the loops visit. */
  function Candidates(meta: Metadata): set<Key> {
    set a, s, t, rn | a in meta.algorithms && s in meta.severities && t in meta.trafficLevels && rn in meta.routeNames
      :: Key(a, s, t, rn)
  }

  /** `perform_t_tests`: None when a zero pooled deviation makes the analysis raise. */
  function PerformTTests(meta: Metadata, successful: seq<ExperimentResult>, st: Statistics): Option<map<Key, Comparison>> {
    if exists k :: k in Candidates(meta) && ComparisonAt(successful, k, st).ZeroPooledStd? then None
    else Some(map k | k in Candidates(meta) && ComparisonAt(successful, k, st).Compared? :: ComparisonAt(successful, k, st).comparison)
  }

  /**
   * A comparison is made for a baseline exactly when both the adaptive group and the
   * baseline's group are non-empty, and it compares the means of those two groups.
   */
  lemma ComparisonsCompareGroups(meta: Metadata, successful: seq<ExperimentResult>, st: Statistics, k: Key)
    requires PerformTTests(meta, successful, st).Some?
    ensures var cs := PerformTTests(meta, successful, st).value;
            k in cs <==> && k in Candidates(meta) && k.algorithm != Adaptive
                         && GroupOf(successful, Key(Adaptive, k.severity, k.traffic, k.route)).travelTimes != []
                         && GroupOf(successful, Key(k.algorithm, "N/A", k.traffic, k.route)).travelTimes != []
    ensures var cs := PerformTTests(meta, successful, st).value;
            k in cs ==>
              && cs[k].baselineAlgorithm == k.algorithm && cs[k].severity == k.severity
              && cs[k].traffic == k.traffic && cs[k].route == k.route
              && cs[k].adaptiveMean == Mean(GroupOf(successful, Key(Adaptive, k.severity, k.traffic, k.route)).travelTimes)
              && cs[k].baselineMean == Mean(GroupOf(successful, Key(k.algorithm, "N/A", k.traffic, k.route)).travelTimes)
  {
    if k.algorithm != Adaptive {
      AdaptiveTimesAreGroupTimes(successful, k.severity, k.traffic, k.route);
      BaselineTimesAreGroupTimes(successful, k.algorithm, k.traffic, k.route);
      if k in Candidates(meta) {
        assert !ComparisonAt(successful, k, st).ZeroPooledStd?;
      }
    }
  }
}
