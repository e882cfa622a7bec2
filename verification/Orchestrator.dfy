/** The orchestrator object: the checks before the phase loop, the loop itself and
    the report it writes, all by updating its fields in place. */
module Orchestrator {
  import opened Json
  import opened JUnit
  import opened PhaseMachine
  import opened PhaseReports
  import opened PytestBridge
  import opened RunResult
  import opened StableOrder
  import opened StepExecutor
  import opened Validations

  datatype Commands = Commands(phases: seq<string>, skip: bool, steps: seq<Step>)

  /** A configuration; without commands the run has only its validations. */
  datatype Config = Config(
    commands: Option<Commands>, entries: seq<ValidationEntry>, capability: Option<string>, platform: string,
    requested: set<string>, teardownOnFailure: bool, junitxml: bool)

  function PhasesOfConfig(config: Config): seq<string> {
    match config.commands case None => [DEFAULT_VALIDATION_PHASE] case Some(c) => c.phases
  }

  function StepsOfConfig(config: Config): seq<Step> {
    match config.commands case None => [] case Some(c) => c.steps
  }

  function GatedSteps(config: Config): seq<Step> {
    var steps := StepsOfConfig(config);
    seq(|steps|, j requires 0 <= j < |steps| => Gated(steps[j], config.entries, config.capability))
  }

  function PlanOf(config: Config): Plan {
    Plan(PhasesOfConfig(config), GatedSteps(config), config.entries, config.requested, config.teardownOnFailure)
  }

  /** The configuration leads into the phase loop. */
  predicate ReachesLoop(config: Config) {
    if config.commands.None? then config.entries != []
    else
      && !config.commands.value.skip && config.commands.value.steps != []
      && forall j | 0 <= j < |StepsOfConfig(config)| :: StepPhase(StepsOfConfig(config)[j]) in PhasesOfConfig(config)
  }

  function PlatformSkip(config: Config): Report {
    var asked := Filter(PhasesOfConfig(config), (p: string) => p in config.requested || ALL in config.requested);
    Report(
      true,
      seq(|asked|, j requires 0 <= j < |asked| =>
        PhaseResult(KindOf(asked[j]), true, Some(PlatformSkipped), [], [], None)),
      [])
  }

  function Refused(kind: PhaseKind): Report {
    Report(false, [PhaseResult(kind, false, None, [], [], None)], [])
  }

  /** The phases that can be asked for. */
  predicate ValidRequest(requested: set<string>) {
    requested <= {ALL, SETUP, DEFAULT_VALIDATION_PHASE, TEARDOWN}
  }

  /** What the run reports, given what the outside answers. */
  function RunReport(config: Config, w: World): Report {
    if ReachesLoop(config) then Finish(PlanOf(config), w)
    else if config.commands.None? then Refused(Test)
    else if config.commands.value.skip then PlatformSkip(config)
    else Refused(Setup)
  }

  /** The merged JUnit report, if one is asked for and there is something to merge. */
  function MergedOf(config: Config, w: World, x: Written): Option<seq<Suite>> {
    var js := FinalFiles(PlanOf(config), w, x, config.platform);
    if ReachesLoop(config) && config.junitxml && js.files != [] then Some(MergedReport(PlanOf(config), js)) else None
  }

  /** Gating does not move steps between phases, so it cannot make a run fail the check. */
  lemma GatingKeepsPhases(config: Config, j: nat)
    requires j < |StepsOfConfig(config)|
    ensures StepPhase(GatedSteps(config)[j]) == StepPhase(StepsOfConfig(config)[j])
  {
  }

  /** A report without success never claims it: outside the loop a run succeeds only
      when its platform is switched off, and then it reports no validation. */
  lemma SuccessOutsideLoopIff(config: Config, w: World)
    requires !ReachesLoop(config)
    ensures RunReport(config, w).success <==> config.commands.Some? && config.commands.value.skip
    ensures RunReport(config, w).success <==> ResultsOk(RunReport(config, w).results)
    ensures RunReport(config, w).validations == []
    ensures !RunReport(config, w).success ==>
              && |RunReport(config, w).results| == 1
              && RunReport(config, w).results[0].phase == (if config.commands.None? then Test else Setup)
    ensures RunReport(config, w).success ==>
              forall j | 0 <= j < |RunReport(config, w).results| ::
                RunReport(config, w).results[j].skipped == Some(PlatformSkipped)
  {
    var r := RunReport(config, w).results;
    if !RunReport(config, w).success {
      assert !r[0].success;
    }
  }

  /** Without commands a run makes no calls but pytest's, in the test phase. */
  lemma ValidationsOnly(config: Config, w: World, e: Event)
    requires config.commands.None? && e in After(PlanOf(config), w, |PlanOf(config).phases|).log
    ensures e.PytestRun? && e.pass == 0 && PlanOf(config).phases == ["test"]
  {
    LogIff(PlanOf(config), w, |PlanOf(config).phases|, e);
  }

  /** The loop that puts each step on its phase's list. */
  method StepsByPhase(steps: seq<Step>, phases: seq<string>) returns (byPhase: map<string, seq<Step>>)
    requires forall j | 0 <= j < |steps| :: StepPhase(steps[j]) in phases
    ensures forall phase | phase in phases :: phase in byPhase && byPhase[phase] == Filter(steps, InPhase(phase))
  {
    byPhase := map phase | phase in phases :: [];
    var n := 0;
    while n < |steps|
      invariant 0 <= n <= |steps|
      invariant forall phase | phase in phases ::
                  phase in byPhase && byPhase[phase] == Filter(steps[..n], InPhase(phase))
    {
      var own := StepPhase(steps[n]);
      byPhase := byPhase[own := byPhase[own] + [steps[n]]];
      n := n + 1;
      assert steps[..n][..n - 1] == steps[..n - 1];
    }
    assert steps[..n] == steps;
  }

  method RegisterStepPhases(steps: seq<Step>) returns (stepPhases: map<string, string>)
    ensures stepPhases == StepPhases(steps)
  {
    stepPhases := map[];
    var n := 0;
    while n < |steps|
      invariant 0 <= n <= |steps| && stepPhases == StepPhases(steps[..n])
    {
      if !steps[n].skip {
        stepPhases := stepPhases[steps[n].name := StepPhase(steps[n])];
      }
      n := n + 1;
      assert steps[..n][..n - 1] == steps[..n - 1];
    }
    assert steps[..n] == steps;
  }

  method CheckStepPhases(steps: seq<Step>, phases: seq<string>) returns (ok: bool)
    ensures ok <==> forall j | 0 <= j < |steps| :: StepPhase(steps[j]) in phases
  {
    var n := 0;
    while n < |steps|
      invariant 0 <= n <= |steps|
      invariant forall j | 0 <= j < n :: StepPhase(steps[j]) in phases
    {
      if StepPhase(steps[n]) !in phases {
        return false;
      }
      n := n + 1;
    }
    return true;
  }

  method RunValidationsViaPytest(ready: seq<ValidationEntry>, captured: seq<RawResult>)
    returns (executed: seq<ResolvedEntry>)
    ensures executed == Executed(ready, captured)
  {
    var named := EntriesWithPytestNames(ready);
    executed := ApplyPytestResults(named, captured);
  }

  /** Executed entries taken one by one for the ready places. */
  method WeaveBack(plan: Plan, w: World, pass: nat, indexes: seq<nat>, executed: seq<ResolvedEntry>)
    returns (terminals: seq<ResolvedEntry>)
    requires InRange(plan, indexes) && |executed| == |ReadyIndexes(w, pass, indexes)|
    ensures terminals == Weave(plan, w, pass, indexes, executed)
  {
    terminals := [];
    var j, next := 0, 0;
    WeaveRoom(w, pass, indexes, 0);
    while j < |indexes|
      invariant 0 <= j <= |indexes| && next == ReadyBefore(w, pass, indexes, j) <= |executed|
      invariant terminals == Weave(plan, w, pass, indexes[..j], executed[..next])
    {
      WeaveRoom(w, pass, indexes, j + 1);
      assert indexes[..j + 1][..j] == indexes[..j];
      var resolved := ResolvedAt(plan, w, pass, indexes[j]);
      if resolved.Ready? {
        assert executed[..next + 1][..next] == executed[..next];
        terminals := terminals + [executed[next]];
        next := next + 1;
      } else {
        terminals := terminals + [resolved];
      }
      j := j + 1;
    }
    assert indexes[..j] == indexes && executed[..next] == executed;
  }

  lemma WeaveRoom(w: World, pass: nat, indexes: seq<nat>, j: nat)
    requires j <= |indexes|
    ensures ReadyBefore(w, pass, indexes, j) <= |ReadyIndexes(w, pass, indexes)|
  {
    FilterConcat(indexes[..j], indexes[j..], ReadyAt(w, pass));
    assert indexes == indexes[..j] + indexes[j..];
  }

  method RecordAll(resolved: map<nat, ResolvedEntry>, indexes: seq<nat>, terminals: seq<ResolvedEntry>)
    returns (r: map<nat, ResolvedEntry>)
    requires |indexes| == |terminals|
    ensures r == Record(resolved, indexes, terminals)
  {
    r := resolved;
    var n := 0;
    while n < |indexes|
      invariant 0 <= n <= |indexes| && r == Record(resolved, indexes[..n], terminals[..n])
    {
      r := r[indexes[n] := terminals[n]];
      n := n + 1;
      assert indexes[..n][..n - 1] == indexes[..n - 1] && terminals[..n][..n - 1] == terminals[..n - 1];
    }
    assert indexes[..n] == indexes && terminals[..n] == terminals;
  }

  /** Left-over entries by phase. */
  method GroupAll(stepPhases: map<string, string>, entries: seq<ResolvedEntry>) returns (groups: seq<Group>)
    ensures groups == GroupByPhase(stepPhases, entries)
  {
    groups := [];
    var n := 0;
    while n < |entries|
      invariant 0 <= n <= |entries| && groups == GroupByPhase(stepPhases, entries[..n])
    {
      groups := AddToGroup(groups, EntryPhase(entries[n].entry, stepPhases), entries[n]);
      n := n + 1;
      assert entries[..n][..n - 1] == entries[..n - 1];
    }
    assert entries[..n] == entries;
  }

  /** A pass after its steps, and after its validations. */
  ghost function StepsDone(plan: Plan, w: World, pass: nat, st: RunState): RunState
    requires pass < |plan.phases|
  {
    var phase := plan.phases[pass];
    st.(setupRan := st.setupRan || (phase == SETUP && Runnable(PhaseSteps(plan, phase))),
        log := st.log + StepEvents(pass, PassRecords(plan, w, pass, phase)))
  }

  ghost function ChecksDone(plan: Plan, w: World, pass: nat, st: RunState): RunState
    requires pass < |plan.phases|
  {
    var indexes := PhaseIndexes(plan, plan.phases[pass], st.resolved.Keys, |plan.entries|);
    st.(resolved := Record(st.resolved, indexes, Terminals(plan, w, pass, indexes)),
        log := st.log + PytestEvents(w, pass, ReadyIndexes(w, pass, indexes)))
  }

  lemma ChecksAre(plan: Plan, w: World, pass: nat, st: RunState, indexes: seq<nat>, terminals: seq<ResolvedEntry>)
    requires pass < |plan.phases|
    requires indexes == PhaseIndexes(plan, plan.phases[pass], st.resolved.Keys, |plan.entries|)
    requires terminals == Terminals(plan, w, pass, indexes)
    ensures var ready := ReadyIndexes(w, pass, indexes);
            ChecksDone(plan, w, pass, st)
            == RunState(
              st.success, st.setupRan, Record(st.resolved, indexes, terminals), st.results,
              if ready == [] then st.log else st.log + [PytestRun(pass, ready, w.exitCode(pass))])
  {
  }

  method GroupLeftOvers(plan: Plan, left: seq<ResolvedEntry>) returns (groups: seq<Group>)
    ensures groups == GroupByPhase(StepPhases(plan.steps), left)
  {
    var stepPhases := RegisterStepPhases(plan.steps);
    groups := GroupAll(stepPhases, left);
  }

  ghost function LeftFrom(plan: Plan, w: World, st: RunState): seq<ResolvedEntry> {
    LeftOvers(plan, w, Unresolved(st.resolved.Keys, |plan.entries|))
  }

  ghost function GroupsFrom(plan: Plan, w: World, st: RunState): seq<Group> {
    GroupByPhase(StepPhases(plan.steps), LeftFrom(plan, w, st))
  }

  ghost function ResolvedFrom(plan: Plan, w: World, st: RunState): map<nat, ResolvedEntry> {
    Record(st.resolved, Unresolved(st.resolved.Keys, |plan.entries|), LeftFrom(plan, w, st))
  }

  /** The report of a run whose phase loop has ended in `st`. */
  ghost function FinishFrom(plan: Plan, w: World, st: RunState): Report {
    Report(
      st.success && AllSucceeded(LeftFrom(plan, w, st)), st.results + GroupResults(GroupsFrom(plan, w, st)),
      InIndexOrder(ResolvedFrom(plan, w, st), |plan.entries|))
  }

  lemma FinishIs(plan: Plan, w: World)
    ensures Finish(plan, w) == FinishFrom(plan, w, After(plan, w, |plan.phases|))
    ensures LeftOverGroups(plan, w) == GroupsFrom(plan, w, After(plan, w, |plan.phases|))
  {
  }

  class Run {
    var overallSuccess: bool
    var setupStepsRan: bool
    var resolved: map<nat, ResolvedEntry>
    var phaseResults: seq<PhaseResult>
    var calls: seq<Event>
    var junit: JunitState

    ghost function State(): RunState
      reads this
    {
      RunState(overallSuccess, setupStepsRan, resolved, phaseResults, calls)
    }

    constructor ()
      ensures State() == RunState(true, false, map[], [], [])
      ensures junit == JunitState(map[], [])
    {
      overallSuccess, setupStepsRan, resolved, phaseResults, calls := true, false, map[], [], [];
      junit := JunitState(map[], []);
    }

    /** The body of the phase loop for a phase that is not skipped. */
    method WorkPhase(plan: Plan, w: World, pass: nat, phaseSteps: seq<Step>)
      returns (indexes: seq<nat>, ready: seq<nat>, executed: seq<ResolvedEntry>)
      requires pass < |plan.phases| && phaseSteps == PhaseSteps(plan, plan.phases[pass])
      modifies this`overallSuccess, this`setupStepsRan, this`resolved, this`phaseResults, this`calls
      ensures State() == Work(plan, w, pass, old(State()))
      ensures indexes == PhaseIndexes(plan, plan.phases[pass], old(resolved).Keys, |plan.entries|)
      ensures ready == ReadyIndexes(w, pass, indexes) && InRange(plan, ready)
      ensures executed == Executed(EntriesAt(plan, ready), w.captured(pass))
    {
      ghost var before := State();
      var phase := plan.phases[pass];
      var records, stepsOk := RunSteps(plan, w, pass, phaseSteps);
      var exit, terminals;
      indexes, ready, executed, exit, terminals := RunValidations(plan, w, pass);
      Conclude(plan, w, pass, phaseSteps, before, records, stepsOk, indexes, terminals, exit);
    }

    method RunSteps(plan: Plan, w: World, pass: nat, phaseSteps: seq<Step>)
      returns (records: seq<StepRecord>, stepsOk: bool)
      requires pass < |plan.phases| && phaseSteps == PhaseSteps(plan, plan.phases[pass])
      modifies this`setupStepsRan, this`calls
      ensures records == PassRecords(plan, w, pass, plan.phases[pass]) && (stepsOk <==> AllOk(records))
      ensures State() == StepsDone(plan, w, pass, old(State()))
    {
      var phase := plan.phases[pass];
      if phaseSteps != [] {
        var results := ExecuteSteps(phaseSteps, OkIn(w, pass), phase == TEARDOWN);
        records, stepsOk := results.steps, results.success;
      } else {
        records, stepsOk := [], true;
      }
      calls := calls + StepEvents(pass, records);
      if phase == SETUP && exists j :: 0 <= j < |phaseSteps| && !phaseSteps[j].skip {
        setupStepsRan := true;
      }
    }

    method RunValidations(plan: Plan, w: World, pass: nat)
      returns (indexes: seq<nat>, ready: seq<nat>, executed: seq<ResolvedEntry>,
               exit: Option<int>, terminals: seq<ResolvedEntry>)
      requires pass < |plan.phases|
      modifies this`resolved, this`calls
      ensures indexes == PhaseIndexes(plan, plan.phases[pass], old(resolved).Keys, |plan.entries|)
      ensures ready == ReadyIndexes(w, pass, indexes) && InRange(plan, indexes) && InRange(plan, ready)
      ensures executed == Executed(EntriesAt(plan, ready), w.captured(pass))
      ensures exit == ExitOf(w, pass, ready) && terminals == Terminals(plan, w, pass, indexes)
      ensures State() == ChecksDone(plan, w, pass, old(State()))
    {
      ghost var before := State();
      indexes := PhaseIndexes(plan, plan.phases[pass], resolved.Keys, |plan.entries|);
      ready := ReadyIndexes(w, pass, indexes);
      ReadyInRange(plan, w, pass, indexes);
      exit, executed, terminals := Validate(plan, w, pass, indexes, ready);
      CallPytest(pass, ready, w.exitCode(pass));
      resolved := RecordAll(resolved, indexes, terminals);
      ChecksAre(plan, w, pass, before, indexes, terminals);
    }

    method CallPytest(pass: nat, ready: seq<nat>, exit: int)
      modifies this`calls
      ensures calls == if ready == [] then old(calls) else old(calls) + [PytestRun(pass, ready, exit)]
    {
      if ready != [] {
        calls := calls + [PytestRun(pass, ready, exit)];
      }
    }

    /** Append the phase result and let a failure count for the run. */
    method Conclude(plan: Plan, w: World, pass: nat, phaseSteps: seq<Step>, ghost before: RunState,
                    records: seq<StepRecord>, stepsOk: bool,
                    ghost indexes: seq<nat>, terminals: seq<ResolvedEntry>, exit: Option<int>)
      requires pass < |plan.phases| && phaseSteps == PhaseSteps(plan, plan.phases[pass])
      requires records == PassRecords(plan, w, pass, plan.phases[pass]) && (stepsOk <==> AllOk(records))
      requires indexes == PhaseIndexes(plan, plan.phases[pass], before.resolved.Keys, |plan.entries|)
      requires exit == ExitOf(w, pass, ReadyIndexes(w, pass, indexes)) && terminals == Terminals(plan, w, pass, indexes)
      requires State() == ChecksDone(plan, w, pass, StepsDone(plan, w, pass, before))
      modifies this`overallSuccess, this`phaseResults
      ensures State() == Work(plan, w, pass, before)
    {
      var failures := Filter(terminals, (r: ResolvedEntry) => !OutcomeOk(r));
      FailuresIff(terminals);
      if phaseSteps != [] || terminals != [] {
        var success := stepsOk && failures == [] && (exit.None? || SessionOk(exit.value));
        phaseResults := phaseResults +
          [PhaseResult(KindOf(plan.phases[pass]), success, None, records, terminals, exit)];
        if !success {
          overallSuccess := false;
        }
      }
    }

    method RunPhase(
        plan: Plan, w: World, x: Written, platform: string, junitxml: bool, pass: nat, phaseSteps: seq<Step>)
      requires pass < |plan.phases| && phaseSteps == PhaseSteps(plan, plan.phases[pass])
      requires State() == After(plan, w, pass)
      requires junitxml ==> junit == FilesAfter(plan, w, x, platform, pass)
      modifies this
      ensures State() == After(plan, w, pass + 1)
      ensures junitxml ==> junit == FilesAfter(plan, w, x, platform, pass + 1)
    {
      var phase := plan.phases[pass];
      if phase !in plan.requested && ALL !in plan.requested {
        return;
      }
      var cause: Option<SkipCause> := None;
      if !overallSuccess && phase != TEARDOWN {
        cause := Some(PreviousPhaseFailed);
      }
      if phase == TEARDOWN {
        if (SETUP in plan.requested || ALL in plan.requested) && !setupStepsRan {
          cause := Some(SetupStepsDidNotRun);
        } else if !overallSuccess && !plan.teardownOnFailure {
          cause := Some(TeardownOnFailureDisabled);
        }
      }
      if cause.Some? {
        phaseResults := phaseResults + [PhaseResult(KindOf(phase), true, cause, [], [], None)];
        return;
      }
      var indexes, ready, executed := WorkPhase(plan, w, pass, phaseSteps);
      if junitxml {
        junit := WritePassFiles(plan, w, x, platform, pass, indexes, ready, executed, junit);
      }
    }

    method RunPhases(plan: Plan, w: World, x: Written, platform: string, junitxml: bool)
      requires forall j | 0 <= j < |plan.steps| :: StepPhase(plan.steps[j]) in plan.phases
      requires State() == After(plan, w, 0) && junit == FilesAfter(plan, w, x, platform, 0)
      modifies this
      ensures State() == After(plan, w, |plan.phases|)
      ensures junitxml ==> junit == FilesAfter(plan, w, x, platform, |plan.phases|)
    {
      var byPhase := StepsByPhase(plan.steps, plan.phases);
      var pass := 0;
      while pass < |plan.phases|
        invariant 0 <= pass <= |plan.phases| && State() == After(plan, w, pass)
        invariant junitxml ==> junit == FilesAfter(plan, w, x, platform, pass)
      {
        assert plan.phases[pass] in plan.phases;
        RunPhase(plan, w, x, platform, junitxml, pass, byPhase[plan.phases[pass]]);
        pass := pass + 1;
      }
    }

    /** `_append_resolution_only_phase_results`. */
    method AppendResolutionOnly(groups: seq<Group>)
      modifies this`phaseResults
      ensures phaseResults == old(phaseResults) + GroupResults(groups)
    {
      var g := 0;
      assert GroupResults(groups[..0]) == [];
      while g < |groups|
        invariant 0 <= g <= |groups| && phaseResults == old(phaseResults) + GroupResults(groups[..g])
      {
        phaseResults := phaseResults + [GroupResult(groups[g])];
        assert GroupResults(groups[..g + 1]) == GroupResults(groups[..g]) + [GroupResult(groups[g])];
        g := g + 1;
      }
      assert groups[..g] == groups;
    }

    method WriteUnexecuted(platform: string, groups: seq<Group>)
      modifies this`junit
      ensures junit == WriteAllGroups(old(junit), platform, groups)
    {
      var g := 0;
      while g < |groups|
        invariant 0 <= g <= |groups| && junit == WriteGroups(old(junit), platform, groups, g)
      {
        junit := WriteStub(junit, platform, groups[g].phase, Unexecuted, groups[g].entries);
        g := g + 1;
      }
    }

    /** What is left after the phase loop gets its outcome. */
    method ResolveRemaining(plan: Plan, w: World) returns (left: seq<ResolvedEntry>)
      modifies this`resolved, this`overallSuccess
      ensures left == LeftFrom(plan, w, old(State()))
      ensures resolved == ResolvedFrom(plan, w, old(State()))
      ensures overallSuccess == (old(overallSuccess) && AllSucceeded(left))
    {
      var remaining := Unresolved(resolved.Keys, |plan.entries|);
      left := TerminalizeAll(plan, w, remaining);
      resolved := RecordAll(resolved, remaining, left);
      var failures := Filter(left, (r: ResolvedEntry) => !OutcomeOk(r));
      FailuresIff(left);
      if failures != [] {
        overallSuccess := false;
      }
    }

    /** Its stubs and phase results, phase by phase. */
    method ReportRemaining(plan: Plan, platform: string, junitxml: bool, left: seq<ResolvedEntry>)
      returns (groups: seq<Group>)
      modifies this`phaseResults, this`junit
      ensures groups == GroupByPhase(StepPhases(plan.steps), left)
      ensures phaseResults == old(phaseResults) + GroupResults(groups)
      ensures junit == if junitxml then WriteAllGroups(old(junit), platform, groups) else old(junit)
    {
      groups := GroupLeftOvers(plan, left);
      if junitxml {
        WriteUnexecuted(platform, groups);
      }
      AppendResolutionOnly(groups);
    }

    /** What follows the phase loop. */
    method FinishRun(plan: Plan, w: World, platform: string, junitxml: bool) returns (report: Report)
      modifies this
      ensures report == FinishFrom(plan, w, old(State()))
      ensures calls == old(calls)
      ensures junit
              == if junitxml then WriteAllGroups(old(junit), platform, GroupsFrom(plan, w, old(State())))
                 else old(junit)
    {
      var left := ResolveRemaining(plan, w);
      var groups := ReportRemaining(plan, platform, junitxml, left);
      report := Report(overallSuccess, phaseResults, InIndexOrder(resolved, |plan.entries|));
    }

    method RunPlan(plan: Plan, w: World, x: Written, platform: string, junitxml: bool) returns (report: Report)
      requires forall j | 0 <= j < |plan.steps| :: StepPhase(plan.steps[j]) in plan.phases
      requires State() == RunState(true, false, map[], [], []) && junit == JunitState(map[], [])
      modifies this
      ensures report == Finish(plan, w)
      ensures calls == After(plan, w, |plan.phases|).log
      ensures junitxml ==> junit == FinalFiles(plan, w, x, platform)
    {
      RunPhases(plan, w, x, platform, junitxml);
      report := FinishRun(plan, w, platform, junitxml);
      FinishIs(plan, w);
    }

    /** `_run_steps_mode`: the run's report, and the merged JUnit report when one is
        asked for and some file was written. */
    method RunStepsMode(config: Config, w: World, x: Written) returns (report: Report, merged: Option<seq<Suite>>)
      requires State() == RunState(true, false, map[], [], []) && junit == JunitState(map[], [])
      modifies this
      ensures report == RunReport(config, w)
      ensures calls == if ReachesLoop(config) then After(PlanOf(config), w, |PlanOf(config).phases|).log else []
      ensures merged == MergedOf(config, w, x)
    {
      merged := None;
      if config.commands.Some? {
        if config.commands.value.skip {
          return PlatformSkip(config), None;
        }
        if config.commands.value.steps == [] {
          return Refused(Setup), None;
        }
      } else if config.entries == [] {
        return Refused(Test), None;
      }
      var steps := ApplyCapabilityStepGates(StepsOfConfig(config), config.entries, config.capability);
      assert steps == GatedSteps(config);
      var ok := CheckStepPhases(steps, PhasesOfConfig(config));
      GatingKeepsAllPhases(config);
      if !ok {
        return Refused(Setup), None;
      }
      var plan := PlanOf(config);
      report := RunPlan(plan, w, x, config.platform, config.junitxml);
      if config.junitxml && junit.files != [] {
        merged := MergeFiles(plan, junit);
      }
    }
  }

  /** Left-over entries, those ready turned into skipped ones. */
  method TerminalizeAll(plan: Plan, w: World, remaining: seq<nat>) returns (left: seq<ResolvedEntry>)
    requires InRange(plan, remaining)
    ensures left == LeftOvers(plan, w, remaining)
  {
    left := [];
    var n := 0;
    while n < |remaining|
      invariant 0 <= n <= |remaining| && |left| == n
      invariant forall j | 0 <= j < n :: left[j] == LeftOver(plan, w, remaining[j])
    {
      var resolved := ResolvedAt(plan, w, |plan.phases|, remaining[n]);
      if resolved.Ready? {
        resolved := Terminal(plan.entries[remaining[n]], Skipped);
      }
      left := left + [resolved];
      n := n + 1;
    }
  }

  method MergeFiles(plan: Plan, js: JunitState) returns (merged: Option<seq<Suite>>)
    ensures merged == Some(MergedReport(plan, js))
  {
    var merger := new Merger();
    merger.MergeJunitXmls(Contents(js), NameOrder(plan));
    merged := Some(merger.suites);
  }

  lemma GatingKeepsAllPhases(config: Config)
    ensures (forall j | 0 <= j < |GatedSteps(config)|
              :: StepPhase(GatedSteps(config)[j]) in PhasesOfConfig(config)) <==>
            (forall j | 0 <= j < |StepsOfConfig(config)|
              :: StepPhase(StepsOfConfig(config)[j]) in PhasesOfConfig(config))
  {
    forall j | 0 <= j < |StepsOfConfig(config)|
      ensures StepPhase(GatedSteps(config)[j]) == StepPhase(StepsOfConfig(config)[j])
    {
      GatingKeepsPhases(config, j);
    }
  }

  lemma FailuresIff(terminals: seq<ResolvedEntry>)
    ensures Filter(terminals, (r: ResolvedEntry) => !OutcomeOk(r)) == [] <==> AllSucceeded(terminals)
  {
    var bad := (r: ResolvedEntry) => !OutcomeOk(r);
    FilterMembers(terminals, bad);
    if Filter(terminals, bad) != [] {
      assert Filter(terminals, bad)[0] in Filter(terminals, bad);
    } else {
      forall j | 0 <= j < |terminals| ensures OutcomeOk(terminals[j]) {
        assert terminals[j] in terminals;
      }
    }
  }

  /** Ready entries through pytest, and every entry of the phase with its outcome. */
  method Validate(plan: Plan, w: World, pass: nat, indexes: seq<nat>, ready: seq<nat>)
    returns (exit: Option<int>, executed: seq<ResolvedEntry>, terminals: seq<ResolvedEntry>)
    requires InRange(plan, indexes) && ready == ReadyIndexes(w, pass, indexes) && InRange(plan, ready)
    ensures exit == ExitOf(w, pass, ready)
    ensures executed == Executed(EntriesAt(plan, ready), w.captured(pass))
    ensures terminals == Terminals(plan, w, pass, indexes)
  {
    exit, executed := None, [];
    if ready != [] {
      exit := Some(w.exitCode(pass));
      executed := RunValidationsViaPytest(EntriesAt(plan, ready), w.captured(pass));
    }
    terminals := WeaveBack(plan, w, pass, indexes, executed);
  }

  method WritePassFiles(plan: Plan, w: World, x: Written, platform: string, pass: nat,
                        indexes: seq<nat>, ready: seq<nat>, executed: seq<ResolvedEntry>, js: JunitState)
    returns (r: JunitState)
    requires pass < |plan.phases| && indexes == IndexesOf(plan, w, pass) && ready == ReadyOf(plan, w, pass)
    requires executed == ExecutedOf(plan, w, pass)
    ensures r == PassFiles(plan, w, x, platform, pass, js)
  {
    var phase := plan.phases[pass];
    var path := PathOf(phase, Plain);
    r := js;
    var decided := PreResolved(plan, w, pass, indexes);
    if decided != [] {
      r := WriteStub(r, platform, phase, Resolved, decided);
    }
    if ready != [] && x(pass).Some? {
      r := r.(dir := r.dir[path := x(pass).value]);
    }
    if path in r.dir {
      r := r.(files := r.files + [path]);
    }
    assert r == PytestFiles(plan, w, x, platform, pass, js);
    var missing := Missing(executed, FileAt(r.dir, path));
    if missing != [] {
      r := WriteStub(r, platform, phase, Deselected, missing);
    }
  }
}
