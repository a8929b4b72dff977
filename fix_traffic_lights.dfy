/**
 * The traffic-light repair tool: it flags signal programs with no phases, with a phase
 * that is all green (a collision hazard), all red (a needless delay) or shorter than
 * 3 s, and it replaces the phases of every program that has an all-green or all-red
 * phase by a generated four-phase cycle.
 *
 * A network's signal programs are a sequence of `TlLogic` values; the repair works in
 * place on an array of them. A junction filter of None or "" selects every program.
 */
module FixTrafficLights {
  import opened Common
  import opened Text

  /** A phase's state string (one character per link) and its duration attribute, as text. */
  datatype Phase = Phase(state: string, duration: string)

  datatype TlLogic = TlLogic(id: string, phases: seq<Phase>)

  datatype IssueKind = NoPhases | AllGreen | AllRed | ShortPhase

  datatype IssueSeverity = Critical | Warning

  /** One finding; `phase` is the phase index, None for a program-level finding. */
  datatype Issue = Issue(tls: string, phase: Option<nat>, kind: IssueKind, severity: IssueSeverity)

  function SeverityOf(kind: IssueKind): IssueSeverity {
    match kind
    case NoPhases => Critical
    case AllGreen => Critical
    case AllRed => Warning
    case ShortPhase => Warning
  }

  /** Durations below this many seconds are flagged. */
  const MinPhaseDuration: real := 3.0

  predicate Selected(id: string, junction: Option<string>) {
    junction.None? || junction.value == "" || id == junction.value
  }

  predicate IsAllGreen(state: string) {
    |state| > 0 && forall i :: 0 <= i < |state| ==> state[i] == 'G' || state[i] == 'g'
  }

  predicate IsAllRed(state: string) {
    |state| > 0 && forall i :: 0 <= i < |state| ==> state[i] == 'r'
  }

  /** All-green and all-red exclude each other, and the empty state is neither. */
  lemma ClassesAreExclusive(state: string)
    ensures !(IsAllGreen(state) && IsAllRed(state))
    ensures state == [] ==> !IsAllGreen(state) && !IsAllRed(state)
  {
    if state != [] {
      assert IsAllRed(state) ==> state[0] == 'r';
    }
  }

  // ---------------------------------------------------------------- phase generation

  /** The four-phase cycle for `n` links: the first half of the links, then the second half. */
  function GenerateFixedPhases(n: int): (phases: seq<Phase>)
    ensures n <= 0 ==> phases == []
    ensures n > 0 ==> |phases| == 4
    ensures forall k :: 0 <= k < |phases| ==> |phases[k].state| == n
    ensures n > 0 ==> phases[0].duration == "30" && phases[1].duration == "3"
                      && phases[2].duration == "30" && phases[3].duration == "3"
  {
    if n <= 0 then []
    else
      var half := n / 2;
      [ Phase(Repeat('G', half) + Repeat('r', n - half), "30"),
        Phase(Repeat('y', half) + Repeat('r', n - half), "3"),
        Phase(Repeat('r', half) + Repeat('G', n - half), "30"),
        Phase(Repeat('r', half) + Repeat('y', n - half), "3") ]
  }

  /** The i-th link of each generated phase, in terms of the half split. */
  lemma GeneratedLinks(n: int, i: int)
    requires n > 0 && 0 <= i < n
    ensures var ps := GenerateFixedPhases(n);
            && ps[0].state[i] == (if i < n / 2 then 'G' else 'r')
            && ps[1].state[i] == (if i < n / 2 then 'y' else 'r')
            && ps[2].state[i] == (if i < n / 2 then 'r' else 'G')
            && ps[3].state[i] == (if i < n / 2 then 'r' else 'y')
  {
  }

  /** With two or more links no generated phase is all green or all red. */
  lemma {:induction false} GeneratedPhasesAreSafe(n: int)
    requires n >= 2
    ensures forall k :: 0 <= k < 4 ==>
              (!IsAllGreen(GenerateFixedPhases(n)[k].state) && !IsAllRed(GenerateFixedPhases(n)[k].state))
  {
    var ps := GenerateFixedPhases(n);
    GeneratedLinks(n, 0);
    GeneratedLinks(n, n - 1);
    assert 0 < n / 2 <= n - 1;
  }

  /** With a single link the first generated phase is "r", which is all red. */
  lemma OneLinkIsStillAllRed()
    ensures GenerateFixedPhases(1)[0].state == "r" && IsAllRed(GenerateFixedPhases(1)[0].state)
    ensures GenerateFixedPhases(1)[2].state == "G" && IsAllGreen(GenerateFixedPhases(1)[2].state)
  {
    assert Repeat('G', 0) + Repeat('r', 1) == "r";
    assert Repeat('r', 0) + Repeat('G', 1) == "G";
  }

  // ---------------------------------------------------------------- analysis

  /** The colour finding of one phase: all-green, else all-red, else none. */
  function ColourIssue(id: string, idx: nat, p: Phase): seq<Issue> {
    if IsAllGreen(p.state) then [Issue(id, Some(idx), AllGreen, Critical)]
    else if IsAllRed(p.state) then [Issue(id, Some(idx), AllRed, Warning)]
    else []
  }

  /** The duration finding of one phase; a duration that does not parse is skipped. */
  function DurationIssue(id: string, idx: nat, p: Phase, parse: string -> Option<real>): seq<Issue> {
    match parse(p.duration)
    case Some(d) => if d < MinPhaseDuration then [Issue(id, Some(idx), ShortPhase, Warning)] else []
    case None => []
  }

  /** The findings of one phase, colour first. */
  function PhaseIssues(id: string, idx: nat, p: Phase, parse: string -> Option<real>): seq<Issue> {
    ColourIssue(id, idx, p) + DurationIssue(id, idx, p, parse)
  }

  /** `f` is a phase-level finding that the phase it names deserves. */
  ghost predicate PhaseJustified(f: Issue, phases: seq<Phase>, parse: string -> Option<real>) {
    && f.phase.Some? && f.phase.value < |phases|
    && f.severity == SeverityOf(f.kind)
    && var p := phases[f.phase.value];
       match f.kind
       case NoPhases => false
       case AllGreen => IsAllGreen(p.state)
       case AllRed => !IsAllGreen(p.state) && IsAllRed(p.state)
       case ShortPhase => parse(p.duration).Some? && parse(p.duration).value < MinPhaseDuration
  }

  /** The findings of all phases, in phase order. */
  function PhasesIssues(id: string, phases: seq<Phase>, parse: string -> Option<real>): seq<Issue> {
    if phases == [] then []
    else PhasesIssues(id, phases[..|phases| - 1], parse) + PhaseIssues(id, |phases| - 1, phases[|phases| - 1], parse)
  }

  /** Every phase-level finding names this program and a phase that deserves it. */
  lemma {:induction false} PhasesIssuesSound(id: string, phases: seq<Phase>, parse: string -> Option<real>)
    ensures forall f :: f in PhasesIssues(id, phases, parse) ==> f.tls == id && PhaseJustified(f, phases, parse)
  {
    if phases != [] {
      var n := |phases| - 1;
      var init := phases[..n];
      PhasesIssuesSound(id, init, parse);
      forall f | f in PhasesIssues(id, phases, parse)
        ensures f.tls == id && PhaseJustified(f, phases, parse)
      {
        if f in PhasesIssues(id, init, parse) {
          assert init[f.phase.value] == phases[f.phase.value];
        } else {
          assert f in ColourIssue(id, n, phases[n]) || f in DurationIssue(id, n, phases[n], parse);
        }
      }
    }
  }

  /** The findings one phase deserves are among its own findings. */
  lemma PhaseIssuesComplete(id: string, i: nat, p: Phase, parse: string -> Option<real>)
    ensures IsAllGreen(p.state) ==> Issue(id, Some(i), AllGreen, Critical) in PhaseIssues(id, i, p, parse)
    ensures IsAllRed(p.state) && !IsAllGreen(p.state) ==> Issue(id, Some(i), AllRed, Warning) in PhaseIssues(id, i, p, parse)
    ensures parse(p.duration).Some? && parse(p.duration).value < MinPhaseDuration ==>
              Issue(id, Some(i), ShortPhase, Warning) in PhaseIssues(id, i, p, parse)
  {
  }

  /** Every all-green, all-red or short phase gets its finding. */
  lemma {:induction false} PhasesIssuesComplete(id: string, phases: seq<Phase>, parse: string -> Option<real>)
    ensures forall i :: 0 <= i < |phases| && IsAllGreen(phases[i].state) ==>
              Issue(id, Some(i), AllGreen, Critical) in PhasesIssues(id, phases, parse)
    ensures forall i :: 0 <= i < |phases| && IsAllRed(phases[i].state) && !IsAllGreen(phases[i].state) ==>
              Issue(id, Some(i), AllRed, Warning) in PhasesIssues(id, phases, parse)
    ensures forall i :: 0 <= i < |phases| && parse(phases[i].duration).Some?
                        && parse(phases[i].duration).value < MinPhaseDuration ==>
              Issue(id, Some(i), ShortPhase, Warning) in PhasesIssues(id, phases, parse)
  {
    if phases != [] {
      var n := |phases| - 1;
      var init := phases[..n];
      PhasesIssuesComplete(id, init, parse);
      var earlier := PhasesIssues(id, init, parse);
      var last := PhaseIssues(id, n, phases[n], parse);
      var r := PhasesIssues(id, phases, parse);
      assert r == earlier + last;
      PhaseIssuesComplete(id, n, phases[n], parse);
      forall i | 0 <= i < |phases|
        ensures IsAllGreen(phases[i].state) ==> Issue(id, Some(i), AllGreen, Critical) in r
        ensures IsAllRed(phases[i].state) && !IsAllGreen(phases[i].state) ==> Issue(id, Some(i), AllRed, Warning) in r
        ensures parse(phases[i].duration).Some? && parse(phases[i].duration).value < MinPhaseDuration ==>
                  Issue(id, Some(i), ShortPhase, Warning) in r
      {
        if i < n {
          assert init[i] == phases[i];
          assert forall f :: f in earlier ==> f in r;
        } else {
          assert forall f :: f in last ==> f in r;
        }
      }
    }
  }

  /** The findings of one program: NO_PHASES alone when it has none, else its phases' findings. */
  function LogicIssues(logic: TlLogic, junction: Option<string>, parse: string -> Option<real>): seq<Issue> {
    if !Selected(logic.id, junction) then []
    else if logic.phases == [] then [Issue(logic.id, None, NoPhases, Critical)]
    else PhasesIssues(logic.id, logic.phases, parse)
  }

  function AllIssues(logics: seq<TlLogic>, junction: Option<string>, parse: string -> Option<real>): seq<Issue> {
    if logics == [] then []
    else AllIssues(logics[..|logics| - 1], junction, parse) + LogicIssues(logics[|logics| - 1], junction, parse)
  }

  /** A program without phases yields exactly one critical NO_PHASES finding and nothing else. */
  lemma NoPhasesIsTheOnlyFinding(logic: TlLogic, junction: Option<string>, parse: string -> Option<real>)
    requires Selected(logic.id, junction) && logic.phases == []
    ensures LogicIssues(logic, junction, parse) == [Issue(logic.id, None, NoPhases, Critical)]
  {
  }

  /** Every finding names a selected program and is deserved by it. */
  lemma {:induction false} AllIssuesJustified(logics: seq<TlLogic>, junction: Option<string>,
                                              parse: string -> Option<real>)
    ensures forall f :: f in AllIssues(logics, junction, parse) ==>
              exists k :: 0 <= k < |logics| && logics[k].id == f.tls && Selected(f.tls, junction)
                && (if logics[k].phases == [] then f == Issue(f.tls, None, NoPhases, Critical)
                    else PhaseJustified(f, logics[k].phases, parse))
  {
    if logics != [] {
      var n := |logics| - 1;
      AllIssuesJustified(logics[..n], junction, parse);
      forall f | f in AllIssues(logics, junction, parse)
        ensures exists k :: 0 <= k < |logics| && logics[k].id == f.tls && Selected(f.tls, junction)
                  && (if logics[k].phases == [] then f == Issue(f.tls, None, NoPhases, Critical)
                      else PhaseJustified(f, logics[k].phases, parse))
      {
        if f in AllIssues(logics[..n], junction, parse) {
          var k :| 0 <= k < n && logics[..n][k].id == f.tls && Selected(f.tls, junction)
                   && (if logics[..n][k].phases == [] then f == Issue(f.tls, None, NoPhases, Critical)
                       else PhaseJustified(f, logics[..n][k].phases, parse));
          assert logics[..n][k] == logics[k];
        } else {
          assert f in LogicIssues(logics[n], junction, parse);
          PhasesIssuesSound(logics[n].id, logics[n].phases, parse);
          assert 0 <= n < |logics| && logics[n].id == f.tls;
        }
      }
    }
  }

  /** The analysis loop over the programs and their phases, appending findings in order. */
  method AnalyzeTlsPhases(logics: seq<TlLogic>, junction: Option<string>, parse: string -> Option<real>)
    returns (issues: seq<Issue>)
    ensures issues == AllIssues(logics, junction, parse)
  {
    issues := [];
    var k := 0;
    while k < |logics|
      invariant 0 <= k <= |logics|
      invariant issues == AllIssues(logics[..k], junction, parse)
    {
      assert logics[..k + 1][..k] == logics[..k];
      var logic := logics[k];
      if Selected(logic.id, junction) {
        if logic.phases == [] {
          issues := issues + [Issue(logic.id, None, NoPhases, Critical)];
        } else {
          var found := CollectPhaseIssues(logic.id, logic.phases, parse);
          issues := issues + found;
        }
      }
      k := k + 1;
    }
    assert logics[..k] == logics;
  }

  lemma PhasesIssuesStep(id: string, phases: seq<Phase>, i: nat, parse: string -> Option<real>)
    requires i < |phases|
    ensures PhasesIssues(id, phases[..i + 1], parse)
            == PhasesIssues(id, phases[..i], parse) + PhaseIssues(id, i, phases[i], parse)
  {
    assert phases[..i + 1][..i] == phases[..i];
  }

  /** The checks of one phase: its colour, then its duration. */
  method CheckPhase(id: string, i: nat, p: Phase, parse: string -> Option<real>) returns (found: seq<Issue>)
    ensures found == PhaseIssues(id, i, p, parse)
  {
    found := [];
    if IsAllGreen(p.state) {
      found := found + [Issue(id, Some(i), AllGreen, Critical)];
    } else if IsAllRed(p.state) {
      found := found + [Issue(id, Some(i), AllRed, Warning)];
    }
    var d := parse(p.duration);
    if d.Some? && d.value < MinPhaseDuration {
      found := found + [Issue(id, Some(i), ShortPhase, Warning)];
    }
  }

  /** The inner loop over one program's phases. */
  method CollectPhaseIssues(id: string, phases: seq<Phase>, parse: string -> Option<real>)
    returns (issues: seq<Issue>)
    ensures issues == PhasesIssues(id, phases, parse)
  {
    issues := [];
    var i := 0;
    while i < |phases|
      invariant 0 <= i <= |phases|
      invariant issues == PhasesIssues(id, phases[..i], parse)
    {
      var found := CheckPhase(id, i, phases[i], parse);
      issues := issues + found;
      PhasesIssuesStep(id, phases, i, parse);
      i := i + 1;
    }
    assert phases[..i] == phases;
  }

  // ---------------------------------------------------------------- repair

  predicate IsBad(p: Phase) {
    IsAllGreen(p.state) || IsAllRed(p.state)
  }

  /** Index of the first all-green or all-red phase. */
  function FirstBad(phases: seq<Phase>): (k: Option<nat>)
    ensures k.None? <==> forall i :: 0 <= i < |phases| ==> !IsBad(phases[i])
    ensures k.Some? ==> k.value < |phases| && IsBad(phases[k.value])
                        && forall i :: 0 <= i < k.value ==> !IsBad(phases[i])
  {
    if phases == [] then None
    else if IsBad(phases[0]) then Some(0)
    else
      var rest := FirstBad(phases[1..]);
      assert forall i :: 1 <= i < |phases| ==> phases[1..][i - 1] == phases[i];
      match rest
      case None => None
      case Some(j) => Some(j + 1)
  }

  /** A program after the repair: the phases regenerated from the first bad phase's link count. */
  function FixLogic(logic: TlLogic, junction: Option<string>): (fixed: TlLogic)
    ensures fixed.id == logic.id
  {
    if !Selected(logic.id, junction) || logic.phases == [] then logic
    else
      match FirstBad(logic.phases)
      case None => logic
      case Some(k) => logic.(phases := GenerateFixedPhases(|logic.phases[k].state|))
  }

  predicate IsFixed(logic: TlLogic, junction: Option<string>) {
    Selected(logic.id, junction) && logic.phases != [] && FirstBad(logic.phases).Some?
  }

  function CountFixed(logics: seq<TlLogic>, junction: Option<string>): (n: nat)
    ensures n <= |logics|
  {
    if logics == [] then 0
    else CountFixed(logics[..|logics| - 1], junction) + (if IsFixed(logics[|logics| - 1], junction) then 1 else 0)
  }

  /** Repairing twice is the same as repairing once. */
  lemma FixIsIdempotent(logic: TlLogic, junction: Option<string>)
    ensures FixLogic(FixLogic(logic, junction), junction) == FixLogic(logic, junction)
  {
    if Selected(logic.id, junction) && logic.phases != [] && FirstBad(logic.phases).Some? {
      var n := |logic.phases[FirstBad(logic.phases).value].state|;
      assert n > 0;
      if n >= 2 {
        GeneratedPhasesAreSafe(n);
        assert FirstBad(GenerateFixedPhases(n)).None?;
      } else {
        OneLinkIsStillAllRed();
        assert FirstBad(GenerateFixedPhases(1)) == Some(0);
      }
    }
  }

  /** A repaired program with two or more links no longer has an all-green or all-red phase. */
  lemma FixedLogicIsSafe(logic: TlLogic, junction: Option<string>)
    requires IsFixed(logic, junction)
    requires |logic.phases[FirstBad(logic.phases).value].state| >= 2
    ensures FirstBad(FixLogic(logic, junction).phases).None?
    ensures |FixLogic(logic, junction).phases| == 4
  {
    GeneratedPhasesAreSafe(|logic.phases[FirstBad(logic.phases).value].state|);
  }

  /** The needs-fix scan of one program: stops at the first bad phase and reports its link count. */
  method ScanPhases(phases: seq<Phase>) returns (needsFix: bool, numLinks: nat)
    ensures needsFix <==> FirstBad(phases).Some?
    ensures needsFix ==> numLinks == |phases[FirstBad(phases).value].state| && numLinks > 0
  {
    needsFix, numLinks := false, 0;
    var i := 0;
    while i < |phases|
      invariant 0 <= i <= |phases|
      invariant forall j :: 0 <= j < i ==> !IsBad(phases[j])
    {
      var state := phases[i].state;
      if state != [] {
        numLinks := |state|;
        if IsAllGreen(state) || IsAllRed(state) {
          needsFix := true;
          return;
        }
      }
      i := i + 1;
    }
  }

  lemma CountFixedStep(logics: seq<TlLogic>, k: nat, junction: Option<string>)
    requires k < |logics|
    ensures CountFixed(logics[..k + 1], junction) == CountFixed(logics[..k], junction) + (if IsFixed(logics[k], junction) then 1 else 0)
  {
    assert logics[..k + 1][..k] == logics[..k];
  }

  /** The repair of one program: scan it, and regenerate its phases when the scan finds a bad one. */
  method FixOne(logic: TlLogic, junction: Option<string>) returns (fixed: TlLogic, replaced: bool)
    ensures fixed == FixLogic(logic, junction)
    ensures replaced <==> IsFixed(logic, junction)
    ensures !replaced ==> fixed == logic
  {
    fixed, replaced := logic, false;
    if Selected(logic.id, junction) && logic.phases != [] {
      var needsFix, numLinks := ScanPhases(logic.phases);
      if needsFix && numLinks > 0 {
        fixed := logic.(phases := GenerateFixedPhases(numLinks));
        replaced := true;
      }
    }
  }

  /** Every program repaired, in order. */
  function FixAll(logics: seq<TlLogic>, junction: Option<string>): (fixed: seq<TlLogic>)
    ensures |fixed| == |logics|
  {
    if logics == [] then [] else FixAll(logics[..|logics| - 1], junction) + [FixLogic(logics[|logics| - 1], junction)]
  }

  lemma {:induction false} FixAllRepairsEach(logics: seq<TlLogic>, junction: Option<string>)
    ensures forall j :: 0 <= j < |logics| ==> FixAll(logics, junction)[j] == FixLogic(logics[j], junction)
  {
    if logics != [] {
      var n := |logics| - 1;
      FixAllRepairsEach(logics[..n], junction);
    }
  }

  /** The repair pass over a network's programs, in place; returns the number of programs replaced. */
  method FixTrafficLightPrograms(logics: array<TlLogic>, junction: Option<string>) returns (fixedCount: nat)
    modifies logics
    ensures forall k :: 0 <= k < logics.Length ==> logics[k] == FixLogic(old(logics[k]), junction)
    ensures fixedCount == CountFixed(old(logics[..]), junction)
  {
    ghost var original := logics[..];
    fixedCount := 0;
    var k := 0;
    while k < logics.Length
      invariant 0 <= k <= logics.Length
      invariant logics[..k] == FixAll(original[..k], junction)
      invariant forall j :: k <= j < logics.Length ==> logics[j] == original[j]
      invariant fixedCount == CountFixed(original[..k], junction)
    {
      ghost var before := logics[..k];
      var fixed, replaced := FixOne(logics[k], junction);
      CountFixedStep(original, k, junction);
      FixAllStep(original, k, junction);
      if replaced {
        logics[k] := fixed;
        fixedCount := fixedCount + 1;
      }
      assert logics[k] == fixed && logics[..k] == before;
      assert logics[..k + 1] == logics[..k] + [logics[k]];
      k := k + 1;
    }
    assert original[..k] == original;
    FixAllRepairsEach(original, junction);
  }

  lemma FixAllStep(logics: seq<TlLogic>, k: nat, junction: Option<string>)
    requires k < |logics|
    ensures FixAll(logics[..k + 1], junction) == FixAll(logics[..k], junction) + [FixLogic(logics[k], junction)]
  {
    assert logics[..k + 1][..k] == logics[..k];
  }
}
