/**
 * Traffic-signal preemption for an emergency vehicle: when the next signal ahead is
 * within range and shows red or yellow for the vehicle's link, every phase of the
 * signal's first program that is green for that link is switched in, in order.
 * A vehicle that stands still at the same signal for too long triggers a fallback to
 * the signal's original program followed by a cooldown; after too many fallbacks the
 * signal is marked gridlocked and never preempted again.
 *
 * The controller's registries are shared by every call (class-level state in the
 * system); here they are the fields of one `TrafficLightController` object, and
 * `Step` is the same call as a function on their values.
 */
module SignalPreemption {
  import opened Common

  /** The tunable arguments of one preemption call. */
  datatype Params = Params(detectionRange: real, stuckTimeout: real, stuckSpeed: real,
                           cooldownPeriod: real, maxFallbacks: int)

  const DefaultParams: Params := Params(500.0, 10.0, 0.1, 30.0, 3)

  /** Duration given to every switched-in phase, in seconds. */
  const PreemptPhaseDuration: real := 10.0

  /** The next signal on the vehicle's route: id, link index, distance, link state. */
  datatype TlsAhead = TlsAhead(id: string, linkIndex: nat, distance: real, state: string)

  /** What the simulator answers during one call. */
  datatype Observation = Observation(
    vehicleKnown: bool,             // the vehicle is in the simulation's id list
    nextTls: seq<TlsAhead>,
    currentProgram: Option<string>, // None: the program query raised
    simTime: real,
    speed: Option<real>,            // None: the position or speed query raised
    phases: Option<seq<string>>,    // phase states of the first program logic; None: the query raised
    restoreSucceeds: bool,          // whether switching back to the original program succeeds
    switchFault: Option<SwitchFault>) // a call of the phase-switching loop that raises, if any

  /** How much of a phase switch took effect before one of its calls raised. */
  datatype SwitchProgress = NothingTook | PhaseTook | PhaseAndDurationTook

  /** The switch at index `at` of the compatible phases raised after `took` had taken effect. */
  datatype SwitchFault = SwitchFault(at: nat, took: SwitchProgress)

  /** Per-vehicle stuck tracking. */
  datatype StuckInfo = StuckInfo(lastTls: Option<string>, stuckStart: Option<real>)

  const FreshStuckInfo: StuckInfo := StuckInfo(None, None)

  /** Signal commands that took effect. */
  datatype Command =
    | SetProgram(tls: string, program: string)
    | SetPhase(tls: string, phase: nat, duration: real) // phase switched in with the preemption duration
    | SelectPhase(tls: string, phase: nat)              // phase switched in, duration call raised

  /** The controller's registries as a value. */
  datatype Registry = Registry(
    originalPrograms: map<string, Option<string>>,
    cooldowns: map<string, real>,        // signal -> time before which it is not preempted
    fallbackCounts: map<string, int>,
    gridlock: set<string>,
    gridlockDb: set<string>,
    stuck: map<string, StuckInfo>)       // vehicle -> stuck tracking

  const EmptyRegistry: Registry := Registry(map[], map[], map[], {}, {}, map[])

  /** The call's return value and the commands that took effect. */
  datatype Outcome = Outcome(preempted: bool, commands: seq<Command>)

  const NoAction: Outcome := Outcome(false, [])

  /** A gridlocked signal has had at least `maxFallbacks` fallbacks, and the two gridlock sets agree. */
  ghost predicate Inv(r: Registry, p: Params) {
    && r.gridlockDb == r.gridlock
    && (forall t :: t in r.gridlock ==> t in r.fallbackCounts && r.fallbackCounts[t] >= p.maxFallbacks)
    && (forall t :: t in r.fallbackCounts ==> r.fallbackCounts[t] >= 1)
  }

  predicate IsGreenAt(phase: string, link: nat) {
    link < |phase| && (phase[link] == 'G' || phase[link] == 'g')
  }

  /** Indices of the phases that are green for `link`, in increasing order. */
  function CompatiblePhases(phases: seq<string>, link: nat): (ks: seq<nat>)
    ensures forall k: int :: k in ks <==> 0 <= k < |phases| && IsGreenAt(phases[k], link)
    ensures forall i, j :: 0 <= i < j < |ks| ==> ks[i] < ks[j]
  {
    if phases == [] then []
    else
      var n := |phases| - 1;
      var init := CompatiblePhases(phases[..n], link);
      assert forall k :: 0 <= k < n ==> phases[..n][k] == phases[k];
      assert forall i :: 0 <= i < |init| ==> init[i] in init;
      if IsGreenAt(phases[n], link) then init + [n] else init
  }

  /** One `SetPhase` per index, in order, each with the preemption duration. */
  function PhaseCommands(tls: string, ks: seq<nat>): (cs: seq<Command>)
    ensures |cs| == |ks|
    ensures forall i :: 0 <= i < |ks| ==> cs[i] == SetPhase(tls, ks[i], PreemptPhaseDuration)
  {
    if ks == [] then [] else [SetPhase(tls, ks[0], PreemptPhaseDuration)] + PhaseCommands(tls, ks[1..])
  }

  /** The part of the switch to phase `k` that took effect before a call raised. */
  function PartialSwitch(tls: string, k: nat, took: SwitchProgress): seq<Command> {
    match took
    case NothingTook => []
    case PhaseTook => [SelectPhase(tls, k)]
    case PhaseAndDurationTook => [SetPhase(tls, k, PreemptPhaseDuration)]
  }

  /** A fault that hits one of the `n` switches of the loop. */
  predicate SwitchFails(fault: Option<SwitchFault>, n: nat) {
    fault.Some? && fault.value.at < n
  }

  /**
   * The switching loop over the compatible phases `ks`: every switch in order, or, when a
   * call raises, the switches before it plus what took effect of the failing one, and False.
   */
  function Switches(tls: string, ks: seq<nat>, fault: Option<SwitchFault>): (out: Outcome)
    ensures out.preempted <==> !SwitchFails(fault, |ks|)
  {
    if SwitchFails(fault, |ks|) then
      var f := fault.value;
      Outcome(false, PhaseCommands(tls, ks[..f.at]) + PartialSwitch(tls, ks[f.at], f.took))
    else Outcome(true, PhaseCommands(tls, ks))
  }

  /** The loop's i-th command, complete or not, switches the signal to the i-th compatible phase. */
  lemma SwitchesFollowPhases(tls: string, ks: seq<nat>, fault: Option<SwitchFault>)
    ensures var out := Switches(tls, ks, fault);
            && |out.commands| <= |ks|
            && forall i :: 0 <= i < |out.commands| ==>
                 out.commands[i].tls == tls && !out.commands[i].SetProgram? && out.commands[i].phase == ks[i]
  {
    var out := Switches(tls, ks, fault);
    if SwitchFails(fault, |ks|) {
      var f := fault.value;
      var done := PhaseCommands(tls, ks[..f.at]);
      forall i | 0 <= i < |out.commands|
        ensures out.commands[i].tls == tls && !out.commands[i].SetProgram? && out.commands[i].phase == ks[i]
      {
        if i < |done| {
          assert out.commands[i] == done[i];
        }
      }
    }
  }

  /**
   * The stuck tracker: the new tracking record, and whether the vehicle has now been
   * standing at the same signal for longer than the timeout.
   */
  function TrackStuck(info: StuckInfo, tls: string, speed: real, now: real, p: Params): (StuckInfo, bool) {
    if info.lastTls == Some(tls) then
      if speed < p.stuckSpeed then
        match info.stuckStart
        case None => (info.(stuckStart := Some(now)), false)
        case Some(start) =>
          if now - start > p.stuckTimeout then (info.(stuckStart := None), true)
          else (info, false)
      else (info.(stuckStart := None), false)
    else (StuckInfo(Some(tls), None), false)
  }

  /** The fallback after a timeout: count it, then gridlock or revert and cool down. */
  function Fallback(r: Registry, tls: string, original: Option<string>, obs: Observation, p: Params)
    : (Registry, seq<Command>)
  {
    var count := (if tls in r.fallbackCounts then r.fallbackCounts[tls] else 0) + 1;
    var r1 := r.(fallbackCounts := r.fallbackCounts[tls := count]);
    if count >= p.maxFallbacks then
      (r1.(gridlock := r1.gridlock + {tls}, gridlockDb := r1.gridlockDb + {tls}), [])
    else
      match original
      case None => (r1.(cooldowns := r1.cooldowns[tls := obs.simTime + p.cooldownPeriod]), [])
      case Some(program) =>
        if obs.restoreSucceeds then
          (r1.(cooldowns := r1.cooldowns[tls := obs.simTime + p.cooldownPeriod]), [SetProgram(tls, program)])
        else (r1, [])
  }

  /** The preemption proper, once the signal is neither cooling down nor gridlocked nor timed out. */
  function Preempt(tls: TlsAhead, obs: Observation, p: Params): Outcome {
    if tls.distance <= p.detectionRange && (tls.state == "r" || tls.state == "y") then
      match obs.phases
      case None => NoAction
      case Some(phases) =>
        var ks := CompatiblePhases(phases, tls.linkIndex);
        if ks != [] then Switches(tls.id, ks, obs.switchFault) else NoAction
    else NoAction
  }

  /** The registry with the original program of `tls` recorded if it was not already. */
  function Capture(r: Registry, tls: string, obs: Observation): Registry {
    if tls in r.originalPrograms then r
    else r.(originalPrograms := r.originalPrograms[tls := obs.currentProgram])
  }

  function StuckOf(r: Registry, vehicle: string): StuckInfo {
    if vehicle in r.stuck then r.stuck[vehicle] else FreshStuckInfo
  }

  /** One preemption call for `vehicle`: the new registries and the outcome. */
  function Step(r: Registry, vehicle: string, obs: Observation, p: Params): (Registry, Outcome) {
    if !obs.vehicleKnown || obs.nextTls == [] then (r, NoAction)
    else
      var tls := obs.nextTls[0];
      var r1 := Capture(r, tls.id, obs);
      if tls.id in r1.cooldowns && obs.simTime < r1.cooldowns[tls.id] then (r1, NoAction)
      else if tls.id in r1.gridlock then (r1, NoAction)
      else if obs.speed.None? then (r1.(stuck := r1.stuck[vehicle := StuckOf(r1, vehicle)]), NoAction)
      else
        var (info, timedOut) := TrackStuck(StuckOf(r1, vehicle), tls.id, obs.speed.value, obs.simTime, p);
        var r2 := r1.(stuck := r1.stuck[vehicle := info]);
        if timedOut then
          var (r3, cmds) := Fallback(r2, tls.id, r1.originalPrograms[tls.id], obs, p);
          (r3, Outcome(false, cmds))
        else (r2, Preempt(tls, obs, p))
  }

  /** Only a signal that is the vehicle's next one, out of cooldown and not gridlocked can time out. */
  ghost predicate Active(r: Registry, obs: Observation) {
    && obs.vehicleKnown && obs.nextTls != []
    && var id := obs.nextTls[0].id;
       !(id in r.cooldowns && obs.simTime < r.cooldowns[id]) && id !in r.gridlock
  }

  /** The stuck tracker fires for the signal ahead; a raising speed query never reaches it. */
  ghost predicate TimesOut(r: Registry, vehicle: string, obs: Observation, p: Params)
    requires obs.nextTls != []
  {
    obs.speed.Some? && TrackStuck(StuckOf(r, vehicle), obs.nextTls[0].id, obs.speed.value, obs.simTime, p).1
  }

  /** The tracker fires only after a recorded stop at the same signal, slow and past the timeout. */
  lemma TimeoutNeedsLongStop(info: StuckInfo, tls: string, speed: real, now: real, p: Params)
    ensures TrackStuck(info, tls, speed, now, p).1 <==>
              info.lastTls == Some(tls) && speed < p.stuckSpeed && info.stuckStart.Some?
              && now - info.stuckStart.value > p.stuckTimeout
    ensures TrackStuck(info, tls, speed, now, p).0.lastTls == Some(tls)
    ensures speed >= p.stuckSpeed ==> TrackStuck(info, tls, speed, now, p).0.stuckStart.None?
  {
  }

  /** A call changes nothing when the vehicle is unknown or has no signal ahead. */
  lemma NoSignalNoChange(r: Registry, vehicle: string, obs: Observation, p: Params)
    requires !obs.vehicleKnown || obs.nextTls == []
    ensures Step(r, vehicle, obs, p) == (r, NoAction)
  {
  }

  /** During a signal's cooldown nothing is preempted and only the program capture may change the registries. */
  lemma CooldownSuppresses(r: Registry, vehicle: string, obs: Observation, p: Params)
    requires obs.vehicleKnown && obs.nextTls != []
    requires obs.nextTls[0].id in r.cooldowns && obs.simTime < r.cooldowns[obs.nextTls[0].id]
    ensures Step(r, vehicle, obs, p).1 == NoAction
    ensures Step(r, vehicle, obs, p).0 == Capture(r, obs.nextTls[0].id, obs)
  {
  }

  /** A gridlocked signal is never preempted again, and gridlock is never lifted. */
  lemma GridlockIsAbsorbing(r: Registry, vehicle: string, obs: Observation, p: Params)
    ensures r.gridlock <= Step(r, vehicle, obs, p).0.gridlock
    ensures obs.nextTls != [] && obs.nextTls[0].id in r.gridlock ==> Step(r, vehicle, obs, p).1 == NoAction
  {
  }

  /** The first program seen for a signal is kept for good. */
  lemma OriginalProgramCapturedOnce(r: Registry, vehicle: string, obs: Observation, p: Params)
    ensures var r1 := Step(r, vehicle, obs, p).0;
            && r.originalPrograms.Keys <= r1.originalPrograms.Keys
            && (forall t :: t in r.originalPrograms ==> r1.originalPrograms[t] == r.originalPrograms[t])
    ensures obs.vehicleKnown && obs.nextTls != [] && obs.nextTls[0].id !in r.originalPrograms ==>
              Step(r, vehicle, obs, p).0.originalPrograms[obs.nextTls[0].id] == obs.currentProgram
  {
    if obs.vehicleKnown && obs.nextTls != [] {
      var tls := obs.nextTls[0];
      var r1 := Capture(r, tls.id, obs);
      if Active(r1, obs) && obs.speed.Some? {
        var info := TrackStuck(StuckOf(r1, vehicle), tls.id, obs.speed.value, obs.simTime, p).0;
        var r2 := r1.(stuck := r1.stuck[vehicle := info]);
        FallbackEffect(r2, tls.id, r1.originalPrograms[tls.id], obs, p);
      }
      assert Step(r, vehicle, obs, p).0.originalPrograms == r1.originalPrograms;
    }
  }

  /** A fallback counts the signal; it starts a cooldown only below the limit and when the restore took effect. */
  lemma FallbackEffect(r: Registry, tls: string, original: Option<string>, obs: Observation, p: Params)
    ensures var r1 := Fallback(r, tls, original, obs, p).0;
            && r1.originalPrograms == r.originalPrograms && r1.stuck == r.stuck
            && tls in r1.fallbackCounts
            && (r1.cooldowns != r.cooldowns ==>
                  && r1.fallbackCounts[tls] < p.maxFallbacks
                  && (original.None? || obs.restoreSucceeds)
                  && r1.cooldowns == r.cooldowns[tls := obs.simTime + p.cooldownPeriod])
  {
  }

  /**
   * The call preempts exactly when the signal is active, the speed query answered, the
   * vehicle has not timed out, and the signal is close, not green, has a green phase for
   * the link and every switch went through; the commands are then those switches. When a
   * switch raises, the call reports no preemption and the switches before it stay in effect.
   */
  lemma PreemptsExactly(r: Registry, vehicle: string, obs: Observation, p: Params)
    ensures Step(r, vehicle, obs, p).1.preempted <==>
              && Active(Capture(r, if obs.nextTls != [] then obs.nextTls[0].id else "", obs), obs)
              && obs.speed.Some?
              && !TimesOut(Capture(r, obs.nextTls[0].id, obs), vehicle, obs, p)
              && obs.nextTls[0].distance <= p.detectionRange
              && (obs.nextTls[0].state == "r" || obs.nextTls[0].state == "y")
              && obs.phases.Some?
              && CompatiblePhases(obs.phases.value, obs.nextTls[0].linkIndex) != []
              && !SwitchFails(obs.switchFault, |CompatiblePhases(obs.phases.value, obs.nextTls[0].linkIndex)|)
    ensures Step(r, vehicle, obs, p).1.preempted ==>
              Step(r, vehicle, obs, p).1.commands
              == PhaseCommands(obs.nextTls[0].id, CompatiblePhases(obs.phases.value, obs.nextTls[0].linkIndex))
    ensures && Active(Capture(r, if obs.nextTls != [] then obs.nextTls[0].id else "", obs), obs)
            && obs.speed.Some?
            && !TimesOut(Capture(r, obs.nextTls[0].id, obs), vehicle, obs, p)
            && obs.nextTls[0].distance <= p.detectionRange
            && (obs.nextTls[0].state == "r" || obs.nextTls[0].state == "y")
            && obs.phases.Some?
            && SwitchFails(obs.switchFault, |CompatiblePhases(obs.phases.value, obs.nextTls[0].linkIndex)|)
            ==> var ks := CompatiblePhases(obs.phases.value, obs.nextTls[0].linkIndex);
                var f := obs.switchFault.value;
                Step(r, vehicle, obs, p).1
                == Outcome(false, PhaseCommands(obs.nextTls[0].id, ks[..f.at]) + PartialSwitch(obs.nextTls[0].id, ks[f.at], f.took))
  {
  }

  /** Every switched-in phase is green for the vehicle's link; only the signal ahead is touched. */
  lemma CommandsTouchOnlyTheSignalAhead(r: Registry, vehicle: string, obs: Observation, p: Params)
    ensures forall c :: c in Step(r, vehicle, obs, p).1.commands ==>
              obs.nextTls != [] && c.tls == obs.nextTls[0].id
    ensures forall c :: c in Step(r, vehicle, obs, p).1.commands && !c.SetProgram? ==>
              obs.phases.Some? && c.phase < |obs.phases.value|
              && IsGreenAt(obs.phases.value[c.phase], obs.nextTls[0].linkIndex)
    ensures forall c :: c in Step(r, vehicle, obs, p).1.commands && c.SetPhase? ==> c.duration == PreemptPhaseDuration
  {
    var out := Step(r, vehicle, obs, p).1;
    if out.commands != [] && !out.commands[0].SetProgram? {
      var tls := obs.nextTls[0];
      var r1 := Capture(r, tls.id, obs);
      assert out == Preempt(tls, obs, p);
      var ks := CompatiblePhases(obs.phases.value, tls.linkIndex);
      assert out == Switches(tls.id, ks, obs.switchFault);
      SwitchesFollowPhases(tls.id, ks, obs.switchFault);
      forall c | c in out.commands
        ensures c.tls == tls.id && !c.SetProgram?
        ensures c.phase < |obs.phases.value| && IsGreenAt(obs.phases.value[c.phase], tls.linkIndex)
        ensures c.SetPhase? ==> c.duration == PreemptPhaseDuration
      {
        var i :| 0 <= i < |out.commands| && out.commands[i] == c;
        assert c.phase == ks[i] && ks[i] in ks;
      }
    }
  }

  /** Fallback counts move only on a timeout, and then by exactly one. */
  lemma FallbackCountsOnlyOnTimeout(r: Registry, vehicle: string, obs: Observation, p: Params)
    ensures var r1 := Step(r, vehicle, obs, p).0;
            if Active(Capture(r, if obs.nextTls != [] then obs.nextTls[0].id else "", obs), obs)
               && TimesOut(Capture(r, obs.nextTls[0].id, obs), vehicle, obs, p)
            then r1.fallbackCounts == r.fallbackCounts[obs.nextTls[0].id :=
                   (if obs.nextTls[0].id in r.fallbackCounts then r.fallbackCounts[obs.nextTls[0].id] else 0) + 1]
            else r1.fallbackCounts == r.fallbackCounts && r1.gridlock == r.gridlock
  {
  }

  /**
   * A cooldown is (re)started only by a timeout that stays below the gridlock limit and
   * either has no original program to restore or restores it successfully.
   */
  lemma CooldownStartsOnlyOnFallback(r: Registry, vehicle: string, obs: Observation, p: Params)
    ensures var r1 := Step(r, vehicle, obs, p).0;
            r1.cooldowns != r.cooldowns ==>
              && Active(Capture(r, obs.nextTls[0].id, obs), obs)
              && TimesOut(Capture(r, obs.nextTls[0].id, obs), vehicle, obs, p)
              && r1.fallbackCounts[obs.nextTls[0].id] < p.maxFallbacks
              && (r1.originalPrograms[obs.nextTls[0].id].None? || obs.restoreSucceeds)
              && r1.cooldowns == r.cooldowns[obs.nextTls[0].id := obs.simTime + p.cooldownPeriod]
  {
    if obs.vehicleKnown && obs.nextTls != [] {
      var tls := obs.nextTls[0];
      var r1 := Capture(r, tls.id, obs);
      if Active(r1, obs) && obs.speed.Some? {
        var info := TrackStuck(StuckOf(r1, vehicle), tls.id, obs.speed.value, obs.simTime, p).0;
        var r2 := r1.(stuck := r1.stuck[vehicle := info]);
        FallbackEffect(r2, tls.id, r1.originalPrograms[tls.id], obs, p);
      }
    }
  }

  /** A fallback keeps the gridlock invariant: a signal joins the gridlock set only with its count at the limit. */
  lemma FallbackKeepsInvariant(r: Registry, tls: string, original: Option<string>, obs: Observation, p: Params)
    requires Inv(r, p)
    ensures Inv(Fallback(r, tls, original, obs, p).0, p)
  {
    var count := (if tls in r.fallbackCounts then r.fallbackCounts[tls] else 0) + 1;
    var r1 := r.(fallbackCounts := r.fallbackCounts[tls := count]);
    assert Inv(r1, p);
  }

  /** Every call keeps the gridlock invariant. */
  lemma StepKeepsInvariant(r: Registry, vehicle: string, obs: Observation, p: Params)
    requires Inv(r, p)
    ensures Inv(Step(r, vehicle, obs, p).0, p)
  {
    if obs.vehicleKnown && obs.nextTls != [] {
      var id := obs.nextTls[0].id;
      var r1 := Capture(r, id, obs);
      assert Inv(r1, p);
      assert Inv(r1.(stuck := r1.stuck[vehicle := StuckOf(r1, vehicle)]), p);
      if obs.speed.Some? {
        var r2 := r1.(stuck := r1.stuck[vehicle := TrackStuck(StuckOf(r1, vehicle), id, obs.speed.value, obs.simTime, p).0]);
        assert Inv(r2, p);
        FallbackKeepsInvariant(r2, id, r1.originalPrograms[id], obs, p);
      }
    }
  }

  /** Stuck for 11 s at a signal whose original program is "0": revert, cool down for 30 s, count one fallback. */
  lemma ScenarioStuckFallback(vehicle: string, now: real)
    ensures var tls := TlsAhead("J1", 0, 20.0, "r");
            var r := EmptyRegistry.(originalPrograms := map["J1" := Some("0")],
                                    stuck := map[vehicle := StuckInfo(Some("J1"), Some(now - 11.0))]);
            var obs := Observation(true, [tls], Some("1"), now, Some(0.0), Some(["Grr"]), true, None);
            var (r1, out) := Step(r, vehicle, obs, DefaultParams);
            && out == Outcome(false, [SetProgram("J1", "0")])
            && r1.cooldowns == map["J1" := now + 30.0]
            && r1.fallbackCounts == map["J1" := 1]
            && r1.gridlock == {}
            && r1.stuck[vehicle] == StuckInfo(Some("J1"), None)
  {
  }

  /** The third timeout at the same signal gridlocks it, with no command and no cooldown. */
  lemma ScenarioGridlock(vehicle: string, now: real)
    ensures var tls := TlsAhead("J1", 0, 20.0, "r");
            var r := EmptyRegistry.(originalPrograms := map["J1" := Some("0")],
                                    fallbackCounts := map["J1" := 2],
                                    stuck := map[vehicle := StuckInfo(Some("J1"), Some(now - 11.0))]);
            var obs := Observation(true, [tls], Some("1"), now, Some(0.0), Some(["Grr"]), true, None);
            var (r1, out) := Step(r, vehicle, obs, DefaultParams);
            && out == NoAction
            && r1.gridlock == {"J1"} && r1.gridlockDb == {"J1"}
            && r1.cooldowns == map[]
  {
  }

  /** Phases green, red, green for link 0 give phases 0 and 2, hence two commands for them. */
  lemma ScenarioPhases()
    ensures CompatiblePhases(["Gr", "rG", "gr"], 0) == [0, 2]
    ensures PhaseCommands("J1", [0, 2]) == [SetPhase("J1", 0, 10.0), SetPhase("J1", 2, 10.0)]
  {
    ScenarioGreens();
  }

  lemma ScenarioGreens()
    ensures CompatiblePhases(["Gr", "rG", "gr"], 0) == [0, 2]
  {
    CompatiblePhasesAppend([], "Gr", 0);
    assert [] + ["Gr"] == ["Gr"];
    CompatiblePhasesAppend(["Gr"], "rG", 0);
    assert ["Gr"] + ["rG"] == ["Gr", "rG"];
    CompatiblePhasesAppend(["Gr", "rG"], "gr", 0);
    assert ["Gr", "rG"] + ["gr"] == ["Gr", "rG", "gr"];
  }

  lemma CompatiblePhasesAppend(phases: seq<string>, phase: string, link: nat)
    ensures CompatiblePhases(phases + [phase], link)
            == CompatiblePhases(phases, link) + (if IsGreenAt(phase, link) then [|phases|] else [])
  {
    assert (phases + [phase])[..|phases|] == phases;
  }

  /** A red signal 100 m ahead with phases green, red, green for link 0: phases 0 and 2 are switched in. */
  lemma ScenarioPreempt(vehicle: string, now: real)
    ensures var tls := TlsAhead("J1", 0, 100.0, "r");
            var obs := Observation(true, [tls], Some("0"), now, Some(12.0), Some(["Gr", "rG", "gr"]), true, None);
            var (r1, out) := Step(EmptyRegistry, vehicle, obs, DefaultParams);
            && out == Outcome(true, [SetPhase("J1", 0, 10.0), SetPhase("J1", 2, 10.0)])
            && r1.originalPrograms == map["J1" := Some("0")]
            && r1.stuck == map[vehicle := StuckInfo(Some("J1"), None)]
  {
    var tls := TlsAhead("J1", 0, 100.0, "r");
    var phases := ["Gr", "rG", "gr"];
    var obs := Observation(true, [tls], Some("0"), now, Some(12.0), Some(phases), true, None);
    ScenarioPhases();
    var cmds := [SetPhase("J1", 0, 10.0), SetPhase("J1", 2, 10.0)];
    assert Preempt(tls, obs, DefaultParams) == Outcome(true, cmds);
    assert TrackStuck(FreshStuckInfo, "J1", 12.0, now, DefaultParams) == (StuckInfo(Some("J1"), None), false);
    var r1 := EmptyRegistry.(originalPrograms := map["J1" := Some("0")]);
    assert Capture(EmptyRegistry, "J1", obs) == r1;
    assert Step(EmptyRegistry, vehicle, obs, DefaultParams)
        == (r1.(stuck := map[vehicle := StuckInfo(Some("J1"), None)]), Outcome(true, cmds));
  }

  /**
   * The same signal, but the duration call of the second switch raises: phase 0 was fully
   * switched in, phase 2 selected without its duration, and the call reports no preemption.
   */
  lemma ScenarioSwitchRaises(vehicle: string, now: real)
    ensures var tls := TlsAhead("J1", 0, 100.0, "r");
            var obs := Observation(true, [tls], Some("0"), now, Some(12.0), Some(["Gr", "rG", "gr"]), true,
                                   Some(SwitchFault(1, PhaseTook)));
            Step(EmptyRegistry, vehicle, obs, DefaultParams).1
            == Outcome(false, [SetPhase("J1", 0, 10.0), SelectPhase("J1", 2)])
  {
    var tls := TlsAhead("J1", 0, 100.0, "r");
    var phases := ["Gr", "rG", "gr"];
    var obs := Observation(true, [tls], Some("0"), now, Some(12.0), Some(phases), true, Some(SwitchFault(1, PhaseTook)));
    ScenarioGreens();
    var ks: seq<nat> := [0, 2];
    assert ks[..1] == [0];
    assert PhaseCommands("J1", [0]) == [SetPhase("J1", 0, 10.0)];
    assert Switches("J1", ks, obs.switchFault) == Outcome(false, [SetPhase("J1", 0, 10.0), SelectPhase("J1", 2)]);
    assert Preempt(tls, obs, DefaultParams) == Outcome(false, [SetPhase("J1", 0, 10.0), SelectPhase("J1", 2)]);
    assert TrackStuck(FreshStuckInfo, "J1", 12.0, now, DefaultParams) == (StuckInfo(Some("J1"), None), false);
  }

  /** Computes the indices of the phases green for `link`, as the call's loop over the program does. */
  method CollectCompatiblePhases(phases: seq<string>, link: nat) returns (ks: seq<nat>)
    ensures ks == CompatiblePhases(phases, link)
  {
    ks := [];
    var i := 0;
    while i < |phases|
      invariant 0 <= i <= |phases|
      invariant ks == CompatiblePhases(phases[..i], link)
    {
      assert phases[..i + 1][..i] == phases[..i];
      if link < |phases[i]| && (phases[i][link] == 'G' || phases[i][link] == 'g') {
        ks := ks + [i];
      }
      i := i + 1;
    }
    assert phases[..i] == phases;
  }

  lemma SwitchesStopAtFault(tls: string, ks: seq<nat>, fault: Option<SwitchFault>)
    requires SwitchFails(fault, |ks|)
    ensures Switches(tls, ks, fault)
            == Outcome(false, PhaseCommands(tls, ks[..fault.value.at]) + PartialSwitch(tls, ks[fault.value.at], fault.value.took))
  {
  }

  lemma SwitchesWithoutFault(tls: string, ks: seq<nat>, fault: Option<SwitchFault>)
    requires !SwitchFails(fault, |ks|)
    ensures Switches(tls, ks, fault) == Outcome(true, PhaseCommands(tls, ks))
  {
  }

  /**
   * Issues the phase switches one by one, in the order of `ks`, and stops at the switch
   * whose call raises; `completed` is false when one did.
   */
  method IssuePhaseCommands(tls: string, ks: seq<nat>, fault: Option<SwitchFault>)
    returns (completed: bool, cs: seq<Command>)
    ensures Outcome(completed, cs) == Switches(tls, ks, fault)
  {
    cs := [];
    var i := 0;
    while i < |ks|
      invariant 0 <= i <= |ks|
      invariant cs == PhaseCommands(tls, ks[..i])
      invariant SwitchFails(fault, |ks|) ==> i <= fault.value.at
    {
      if fault.Some? && fault.value.at == i {
        SwitchesStopAtFault(tls, ks, fault);
        cs := cs + PartialSwitch(tls, ks[i], fault.value.took);
        return false, cs;
      }
      PhaseCommandsAppend(tls, ks[..i], ks[i]);
      assert ks[..i + 1] == ks[..i] + [ks[i]];
      cs := cs + [SetPhase(tls, ks[i], PreemptPhaseDuration)];
      i := i + 1;
    }
    assert ks[..i] == ks;
    SwitchesWithoutFault(tls, ks, fault);
    completed := true;
  }

  /** The green request for a signal in range showing red or yellow: every phase green for the vehicle's link. */
  method RequestGreen(tls: TlsAhead, obs: Observation, p: Params) returns (changed: bool, commands: seq<Command>)
    ensures Outcome(changed, commands) == Preempt(tls, obs, p)
  {
    changed, commands := false, [];
    if tls.distance <= p.detectionRange && (tls.state == "r" || tls.state == "y") {
      if obs.phases.None? {
        return;
      }
      var compatible := CollectCompatiblePhases(obs.phases.value, tls.linkIndex);
      if compatible != [] {
        changed, commands := IssuePhaseCommands(tls.id, compatible, obs.switchFault);
      }
    }
  }

  lemma PhaseCommandsAppend(tls: string, ks: seq<nat>, k: nat)
    ensures PhaseCommands(tls, ks + [k]) == PhaseCommands(tls, ks) + [SetPhase(tls, k, PreemptPhaseDuration)]
  {
    var lhs := PhaseCommands(tls, ks + [k]);
    var rhs := PhaseCommands(tls, ks) + [SetPhase(tls, k, PreemptPhaseDuration)];
    assert |lhs| == |rhs|;
    forall i | 0 <= i < |lhs| ensures lhs[i] == rhs[i] {
      assert (ks + [k])[i] == if i < |ks| then ks[i] else k;
    }
  }

  /** The controller's shared registries. */
  class TrafficLightController {
    var originalPrograms: map<string, Option<string>>
    var cooldowns: map<string, real>
    var fallbackCounts: map<string, int>
    var gridlock: set<string>
    var gridlockDb: set<string>
    var stuck: map<string, StuckInfo>

    function State(): Registry
      reads this
    {
      Registry(originalPrograms, cooldowns, fallbackCounts, gridlock, gridlockDb, stuck)
    }

    constructor()
      ensures State() == EmptyRegistry
    {
      originalPrograms := map[];
      cooldowns := map[];
      fallbackCounts := map[];
      gridlock := {};
      gridlockDb := {};
      stuck := map[];
    }

    /** Updates the stuck record of `vehicle` for the signal ahead; reports whether it timed out. */
    method TrackVehicle(vehicle: string, tls: string, speed: real, now: real, p: Params)
      returns (timedOut: bool)
      modifies this
      ensures timedOut == TrackStuck(StuckOf(old(State()), vehicle), tls, speed, now, p).1
      ensures State() == old(State()).(stuck := old(stuck)[vehicle := TrackStuck(StuckOf(old(State()), vehicle), tls, speed, now, p).0])
    {
      var info := if vehicle in stuck then stuck[vehicle] else FreshStuckInfo;
      timedOut := false;
      if info.lastTls == Some(tls) {
        if speed < p.stuckSpeed {
          if info.stuckStart.None? {
            info := info.(stuckStart := Some(now));
          } else if now - info.stuckStart.value > p.stuckTimeout {
            timedOut := true;
            info := info.(stuckStart := None);
          }
        } else {
          info := info.(stuckStart := None);
        }
      } else {
        info := StuckInfo(Some(tls), None);
      }
      stuck := stuck[vehicle := info];
    }

    /** The fallback of a timed-out signal: counts it, then gridlocks it or restores its program and cools it down. */
    method RevertOrGridlock(tls: string, original: Option<string>, obs: Observation, p: Params)
      returns (commands: seq<Command>)
      modifies this
      ensures State() == Fallback(old(State()), tls, original, obs, p).0
      ensures commands == Fallback(old(State()), tls, original, obs, p).1
    {
      commands := [];
      var count := (if tls in fallbackCounts then fallbackCounts[tls] else 0) + 1;
      fallbackCounts := fallbackCounts[tls := count];
      if count >= p.maxFallbacks {
        gridlock := gridlock + {tls};
        gridlockDb := gridlockDb + {tls};
        return;
      }
      if original.Some? {
        if obs.restoreSucceeds {
          commands := [SetProgram(tls, original.value)];
          cooldowns := cooldowns[tls := obs.simTime + p.cooldownPeriod];
        }
      } else {
        cooldowns := cooldowns[tls := obs.simTime + p.cooldownPeriod];
      }
    }

    /** One preemption call; returns whether any phase was switched in, and the commands that took effect. */
    method PreemptTrafficLights(vehicle: string, obs: Observation, p: Params)
      returns (changed: bool, commands: seq<Command>)
      modifies this
      ensures State() == Step(old(State()), vehicle, obs, p).0
      ensures Outcome(changed, commands) == Step(old(State()), vehicle, obs, p).1
      ensures Inv(old(State()), p) ==> Inv(State(), p)
    {
      ghost var r0 := State();
      if Inv(r0, p) {
        StepKeepsInvariant(r0, vehicle, obs, p);
      }
      changed, commands := false, [];
      if !obs.vehicleKnown || obs.nextTls == [] {
        return;
      }
      var tls := obs.nextTls[0];
      if tls.id !in originalPrograms {
        originalPrograms := originalPrograms[tls.id := obs.currentProgram];
      }
      var original := originalPrograms[tls.id];
      var now := obs.simTime;
      assert State() == Capture(r0, tls.id, obs);
      if tls.id in cooldowns && now < cooldowns[tls.id] {
        return;
      }
      if tls.id in gridlock {
        return;
      }
      ghost var r1 := State();
      if obs.speed.None? {
        stuck := stuck[vehicle := if vehicle in stuck then stuck[vehicle] else FreshStuckInfo];
        return;
      }
      var timedOut := TrackVehicle(vehicle, tls.id, obs.speed.value, now, p);
      assert State() == r1.(stuck := r1.stuck[vehicle := TrackStuck(StuckOf(r1, vehicle), tls.id, obs.speed.value, now, p).0]);
      if timedOut {
        commands := RevertOrGridlock(tls.id, original, obs, p);
        return;
      }
      changed, commands := RequestGreen(tls, obs, p);
    }
  }
}
