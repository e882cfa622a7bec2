/** For which phase lists the merged report shows every outcome of every run exactly once. */
module ReportExactness {
  import opened JUnit
  import opened Json
  import opened LostOutcomes
  import opened Orchestrator
  import opened PhaseMachine
  import opened PhaseReports
  import opened PytestBridge
  import opened ReportCounts
  import opened ReportCoverage
  import opened RunResult
  import opened StableOrder
  import opened StepExecutor
  import opened Validations

  /** As many testcases of the name in the merged report as outcomes under it. */
  predicate Exact(config: Config, w: World, x: Written, name: string) {
    var suites := match MergedOf(config, w, x) case None => [] case Some(r) => r;
    Total(suites, name) == OutcomeCount(RunReport(config, w).validations, name)
  }

  /** In every run with these phases whose pytest files account for their entries. */
  ghost predicate AlwaysExact(phases: seq<string>) {
    forall config: Config, w: World, x: Written, name: string {:trigger Exact(config, w, x, name)}
      | RunsWith(config, phases) && AllFaithful(PlanOf(config), w, x, name) :: Exact(config, w, x, name)
  }

  /** Some phase comes twice. */
  ghost predicate Repeats(phases: seq<string>) {
    && (exists own :: own in phases && HoldsSteps(own))
    && exists j, k :: 0 <= j < k < |phases| && phases[j] == phases[k] != ""
  }

  // ---- Runs that count right ----

  lemma OncePerPhase(plan: Plan, w: World)
    requires forall j, k | 0 <= j < k < |plan.phases| :: plan.phases[j] == plan.phases[k] ==> plan.phases[j] == ""
    ensures WorksOnce(plan, w)
  {
    forall j, k | 0 <= j < k < |plan.phases| && Works(plan, w, j) && Works(plan, w, k) && Used(plan, plan.phases[j])
      ensures plan.phases[j] != plan.phases[k]
    {
      UsedIsNamed(plan, plan.phases[j]);
    }
  }

  lemma NoClashListsApart(plan: Plan, w: World)
    requires ValidRequest(plan.requested) && forall q, kind :: !Clash(plan.phases, q, kind)
    ensures ListsApart(plan, w)
  {
    forall k, q, kind
      | 0 <= k < |plan.phases| && Works(plan, w, k) && MayWrite(plan, w, q, kind) && kind != Plain
      ensures plan.phases[k] != q + Suffix(kind)
    {
      if plan.phases[k] == q + Suffix(kind) {
        SharedPathClashes(plan, w, k, q, kind);
        assert false;
      }
    }
  }

  lemma NothingListed(js: JunitState, order: seq<string>, name: string)
    requires js.files == []
    ensures Total(MergeReport(Contents(js), order), name) == 0
  {
    ReportTotal(Contents(js), order, name);
  }

  lemma CountedIsExact(config: Config, w: World, x: Written, name: string)
    requires RunsWith(config, PhasesOfConfig(config)) && AllFaithful(PlanOf(config), w, x, name)
    requires WorksOnce(PlanOf(config), w) && ListsApart(PlanOf(config), w)
    ensures Exact(config, w, x, name)
  {
    var plan := PlanOf(config);
    OutcomesAreCounted(plan, w, x, config.platform, name);
    var js := FinalFiles(plan, w, x, config.platform);
    if js.files == [] {
      NothingListed(js, NameOrder(plan), name);
    }
  }

  // ---- A clash ----

  lemma OneCase(c: Case)
    ensures Cases([CaseChild(c)]) == [c]
  {
    assert [CaseChild(c)][..0] == [];
  }

  lemma SecondFileTotal(name: string)
    ensures Total(SuitesOf(Some(SecondFile())), name) == if name == SECOND then 1 else 0
  {
    var c := Case(0, SECOND);
    OneCase(c);
    CaseCountOne(c, name);
    TotalOne(SecondFile().suites[0], name);
  }

  lemma LossIsFaithful(l: Loss, name: string)
    requires LossOk(l)
    ensures AllFaithful(LossPlan(l), LossWorld(l), LossFiles(l), name)
  {
    var plan, w, x := LossPlan(l), LossWorld(l), LossFiles(l);
    LossPhases(l);
    forall pass | 0 <= pass < |plan.phases| && Works(plan, w, pass) ensures Faithful(plan, w, x, pass, name) {
      if ReadyOf(plan, w, pass) != [] && IsNamed(l, pass) {
        NamedTakesSecond(l, pass);
        SoleReady(plan, w, pass, 1);
        SecondFileTotal(name);
        var executed := ExecutedOf(plan, w, pass);
        assert executed == [executed[0]];
        OutcomeCountOne(executed[0], name);
      }
    }
  }

  lemma NamedTakesSecond(l: Loss, pass: nat)
    requires LossOk(l) && IsNamed(l, pass) && ReadyOf(LossPlan(l), LossWorld(l), pass) != []
    ensures IndexesOf(LossPlan(l), LossWorld(l), pass) == [1]
  {
    var plan, w := LossPlan(l), LossWorld(l);
    LossPhases(l);
    IndexesIff(plan, w, pass);
    SomeIndex(IndexesOf(plan, w, pass));
    OnlyIndex(IndexesOf(plan, w, pass), 1);
  }

  lemma LostIsNotExact(config: Config, w: World, x: Written, i: nat)
    requires RunsWith(config, PhasesOfConfig(config)) && i < |config.entries|
    requires Lost(PlanOf(config), w, x, config.platform, i)
    ensures !Exact(config, w, x, RunReport(config, w).validations[i].entry.name)
  {
    var r := RunReport(config, w).validations;
    var suites := MergedReport(PlanOf(config), FinalFiles(PlanOf(config), w, x, config.platform));
    NotInReport(suites, r[i].entry.name);
    OutcomeIsCounted(r, i);
  }

  lemma NotInReport(suites: seq<Suite>, name: string)
    requires forall c | c in AllCases(suites) :: c.name != name
    ensures Total(suites, name) == 0
  {
    TotalIsPositiveIff(suites, name);
    if s :| 0 <= s < |suites| && SuiteNames(suites[s], name) {
      var cases := Cases(suites[s].children);
      var k :| 0 <= k < |cases| && cases[k].name == name;
      CaseInSuites(suites, s, cases[k]);
      assert false;
    }
  }

  lemma OutcomeIsCounted(r: seq<ResolvedEntry>, i: nat)
    requires i < |r|
    ensures OutcomeCount(r, r[i].entry.name) > 0
  {
    FilterMembers(r, OutcomeCalled(r[i].entry.name));
    assert r[i] in r;
  }

  lemma ClashIsNotExact(phases: seq<string>)
    requires Clashes(phases)
    ensures !AlwaysExact(phases)
  {
    var l := LossFor(phases);
    LossConfigRuns(l);
    var i := SomethingIsLost(l, LossConfig(l).platform);
    var name := RunReport(LossConfig(l), LossWorld(l)).validations[i].entry.name;
    LossIsFaithful(l, name);
    LostIsNotExact(LossConfig(l), LossWorld(l), LossFiles(l), i);
    assert !Exact(LossConfig(l), LossWorld(l), LossFiles(l), name);
  }

  // ---- A phase that comes twice ----

  /** One validation in the phase, run by pytest, and one skipped step. */
  function TwicePlan(phases: seq<string>, phase: string, own: string): Plan {
    Plan(
      phases, [Step("step", own, true, [], false)], [ValidationEntry(SECOND, "", None, Some(phase), [])],
      {if phase == TEARDOWN then TEARDOWN else ALL}, true)
  }

  function TwiceWorld(): World {
    World((pass, step) => true, (pass, i) => None,
          (pass: nat) => [RawResult(SECOND, RawOutcome(false, true, false))], (pass: nat) => 0)
  }

  function TwiceFiles(): Written {
    (pass: nat) => Some(SecondFile())
  }

  lemma TwiceWorks(phases: seq<string>, phase: string, own: string, k: nat)
    requires k < |phases| && phases[k] == phase
    ensures Works(TwicePlan(phases, phase, own), TwiceWorld(), k)
  {
    forall pass: nat | pass < k ensures Fine(TwiceWorld(), pass) {
    }
    CalmSucceeds(TwicePlan(phases, phase, own), TwiceWorld(), k);
  }

  /** The file is listed at least `m` times, and nothing else is there. */
  predicate Listed(js: JunitState, path: string, m: nat) {
    && js.dir == map[path := SecondFile()] && |js.files| >= m
    && forall f | 0 <= f < |js.files| :: js.files[f] == path
  }

  lemma TwiceTakes(phases: seq<string>, phase: string, own: string, j: nat)
    requires phase != "" && IsFirst(phases, j, phase)
    ensures IndexesOf(TwicePlan(phases, phase, own), TwiceWorld(), j) == [0]
  {
    var plan, w := TwicePlan(phases, phase, own), TwiceWorld();
    assert PhaseOf(plan, 0) == phase;
    UnresolvedBefore(plan, w, j, 0);
    IndexesIff(plan, w, j);
    OnlyIndex(IndexesOf(plan, w, j), 0);
  }

  /** Every other pass is idle. */
  lemma TwiceIdle(phases: seq<string>, phase: string, own: string, j: nat, k: nat)
    requires phase != "" && IsFirst(phases, j, phase) && k < |phases| && k != j
    ensures IndexesOf(TwicePlan(phases, phase, own), TwiceWorld(), k) == []
  {
    var plan, w := TwicePlan(phases, phase, own), TwiceWorld();
    TwiceWorks(phases, phase, own, j);
    assert PhaseOf(plan, 0) == phase;
    if phases[k] == phase {
      RepeatedPhaseIsIdle(plan, w, j, k);
    } else {
      NoPassElse(plan, w, k);
    }
  }

  lemma {:induction false} NothingBefore(
      phases: seq<string>, phase: string, own: string, platform: string, j: nat, n: nat)
    requires phase != "" && IsFirst(phases, j, phase) && n <= j
    ensures FilesAfter(TwicePlan(phases, phase, own), TwiceWorld(), TwiceFiles(), platform, n) == JunitState(map[], [])
    decreases n
  {
    if n > 0 {
      NothingBefore(phases, phase, own, platform, j, n - 1);
      TwiceIdle(phases, phase, own, j, n - 1);
      IdleFiles(TwicePlan(phases, phase, own), TwiceWorld(), TwiceFiles(), platform, n - 1, JunitState(map[], []));
    }
  }

  lemma FirstLists(phases: seq<string>, phase: string, own: string, platform: string, j: nat)
    requires phase != "" && IsFirst(phases, j, phase)
    ensures Listed(FilesAfter(TwicePlan(phases, phase, own), TwiceWorld(), TwiceFiles(), platform, j + 1),
                   PathOf(phase, Plain), 1)
  {
    var plan, w, x := TwicePlan(phases, phase, own), TwiceWorld(), TwiceFiles();
    TwiceWorks(phases, phase, own, j);
    TwiceTakes(phases, phase, own, j);
    NothingBefore(phases, phase, own, platform, j, j);
    SecondFileNames(SECOND);
    CapturedFiles(plan, w, x, platform, j, 0, JunitState(map[], []));
  }

  /** Another pass of the phase lists it once more, any other pass leaves it be. */
  lemma NextLists(phases: seq<string>, phase: string, own: string, platform: string, j: nat, n: nat, m: nat)
    requires phase != "" && IsFirst(phases, j, phase) && j < n - 1 && n <= |phases|
    requires Listed(FilesAfter(TwicePlan(phases, phase, own), TwiceWorld(), TwiceFiles(), platform, n - 1),
                    PathOf(phase, Plain), m)
    ensures Listed(FilesAfter(TwicePlan(phases, phase, own), TwiceWorld(), TwiceFiles(), platform, n),
                   PathOf(phase, Plain), if phases[n - 1] == phase then m + 1 else m)
  {
    var plan, w, x := TwicePlan(phases, phase, own), TwiceWorld(), TwiceFiles();
    var js := FilesAfter(plan, w, x, platform, n - 1);
    TwiceIdle(phases, phase, own, j, n - 1);
    IdleFiles(plan, w, x, platform, n - 1, js);
    SamePathIff(phases[n - 1], Plain, phase, Plain);
    if phases[n - 1] == phase {
      TwiceWorks(phases, phase, own, n - 1);
    }
  }

  lemma {:induction false} ListedTwice(
      phases: seq<string>, phase: string, own: string, platform: string, j: nat, k: nat, n: nat)
    requires phase != "" && IsFirst(phases, j, phase) && j < k < |phases| && phases[k] == phase && j < n <= |phases|
    ensures Listed(FilesAfter(TwicePlan(phases, phase, own), TwiceWorld(), TwiceFiles(), platform, n),
                   PathOf(phase, Plain), if k < n then 2 else 1)
    decreases n
  {
    if n == j + 1 {
      FirstLists(phases, phase, own, platform, j);
    } else {
      ListedTwice(phases, phase, own, platform, j, k, n - 1);
      NextLists(phases, phase, own, platform, j, n, if k < n - 1 then 2 else 1);
    }
  }

  lemma {:induction false} SameFileTotal(files: seq<Option<XmlFile>>)
    requires forall f | 0 <= f < |files| :: files[f] == Some(SecondFile())
    ensures Total(AllSuites(files), SECOND) == |files|
    decreases |files|
  {
    if files != [] {
      SameFileTotal(files[..|files| - 1]);
      SecondFileTotal(SECOND);
      TotalConcat(AllSuites(files[..|files| - 1]), SuitesOf(Some(SecondFile())), SECOND);
    }
  }

  lemma TwiceIsFaithful(phases: seq<string>, phase: string, own: string, j: nat)
    requires phase != "" && IsFirst(phases, j, phase)
    ensures AllFaithful(TwicePlan(phases, phase, own), TwiceWorld(), TwiceFiles(), SECOND)
  {
    var plan, w, x := TwicePlan(phases, phase, own), TwiceWorld(), TwiceFiles();
    forall pass | 0 <= pass < |phases| && Works(plan, w, pass) ensures Faithful(plan, w, x, pass, SECOND) {
      if pass == j {
        TwiceTakes(phases, phase, own, j);
        SoleReady(plan, w, j, 0);
        SecondFileTotal(SECOND);
        var executed := ExecutedOf(plan, w, j);
        assert executed == [executed[0]];
        OutcomeCountOne(executed[0], SECOND);
      } else {
        TwiceIdle(phases, phase, own, j, pass);
      }
    }
  }

  /** One outcome, reported under its own name. */
  lemma TwiceOutcome(phases: seq<string>, phase: string, own: string, j: nat)
    requires phase != "" && IsFirst(phases, j, phase)
    ensures OutcomeCount(Finish(TwicePlan(phases, phase, own), TwiceWorld()).validations, SECOND) == 1
    ensures AllResolved(TwicePlan(phases, phase, own), TwiceWorld())
  {
    var plan, w := TwicePlan(phases, phase, own), TwiceWorld();
    TwiceWorks(phases, phase, own, j);
    TwiceTakes(phases, phase, own, j);
    SoleReported(plan, w, j, 0);
    var r := Finish(plan, w).validations;
    assert r == [r[0]];
    OutcomeCountOne(r[0], SECOND);
    ClosedByWork(plan, w, j, |phases|);
    assert PhaseOf(plan, 0) == phase;
  }

  function TwiceConfig(phases: seq<string>, phase: string, own: string): Config {
    var plan := TwicePlan(phases, phase, own);
    Config(Some(Commands(phases, false, plan.steps)), plan.entries, None, "lab", plan.requested, true, true)
  }

  lemma TwiceConfigRuns(phases: seq<string>, phase: string, own: string)
    requires own in phases && HoldsSteps(own)
    ensures RunsWith(TwiceConfig(phases, phase, own), phases)
    ensures PlanOf(TwiceConfig(phases, phase, own)) == TwicePlan(phases, phase, own)
  {
    var config := TwiceConfig(phases, phase, own);
    assert StepPhase(config.commands.value.steps[0]) == own;
    assert GatedSteps(config) == StepsOfConfig(config);
  }

  lemma TwiceTotal(phases: seq<string>, phase: string, own: string, platform: string, j: nat, k: nat)
    requires phase != "" && IsFirst(phases, j, phase) && j < k < |phases| && phases[k] == phase
    ensures var plan, w, x := TwicePlan(phases, phase, own), TwiceWorld(), TwiceFiles();
            && FinalFiles(plan, w, x, platform).files != []
            && Total(MergedReport(plan, FinalFiles(plan, w, x, platform)), SECOND) >= 2
  {
    var plan, w, x := TwicePlan(phases, phase, own), TwiceWorld(), TwiceFiles();
    TwiceOutcome(phases, phase, own, j);
    ListedTwice(phases, phase, own, platform, j, k, |phases|);
    NoneLeft(plan, w, x, platform);
    var js := FinalFiles(plan, w, x, platform);
    SameFileTotal(Contents(js));
    ReportTotal(Contents(js), NameOrder(plan), SECOND);
  }

  /** A phase that comes twice has its pytest testcases in the report twice. */
  lemma RepeatIsNotExact(phases: seq<string>, phase: string, j: nat, k: nat, own: string)
    requires phase != "" && IsFirst(phases, j, phase) && j < k < |phases| && phases[k] == phase
    requires own in phases && HoldsSteps(own)
    ensures var config, w, x := TwiceConfig(phases, phase, own), TwiceWorld(), TwiceFiles();
            && RunsWith(config, phases) && AllFaithful(PlanOf(config), w, x, SECOND)
            && OutcomeCount(RunReport(config, w).validations, SECOND) == 1
            && MergedOf(config, w, x).Some? && Total(MergedOf(config, w, x).value, SECOND) >= 2
  {
    TwiceConfigRuns(phases, phase, own);
    TwiceIsFaithful(phases, phase, own, j);
    TwiceOutcome(phases, phase, own, j);
    TwiceTotal(phases, phase, own, "lab", j, k);
  }

  lemma RepeatsIsNotExact(phases: seq<string>)
    requires Repeats(phases)
    ensures !AlwaysExact(phases)
  {
    var own :| own in phases && HoldsSteps(own);
    var i, k :| 0 <= i < k < |phases| && phases[i] == phases[k] != "";
    var j := FirstIndex(phases, phases[k]);
    RepeatIsNotExact(phases, phases[k], j, k, own);
    assert !Exact(TwiceConfig(phases, phases[k], own), TwiceWorld(), TwiceFiles(), SECOND);
  }

  /** Every run with these phases whose pytest files account for their entries has
      each outcome exactly once in its merged report, exactly when no run can write
      two files at one path and no phase comes twice. */
  lemma AlwaysExactIff(phases: seq<string>)
    ensures AlwaysExact(phases) <==> !Clashes(phases) && !Repeats(phases)
  {
    if Clashes(phases) {
      ClashIsNotExact(phases);
    } else if Repeats(phases) {
      RepeatsIsNotExact(phases);
    } else {
      forall config: Config, w: World, x: Written, name: string
        | RunsWith(config, phases) && AllFaithful(PlanOf(config), w, x, name) ensures Exact(config, w, x, name)
      {
        SomePhaseHoldsSteps(config);
        OncePerPhase(PlanOf(config), w);
        NoClashListsApart(PlanOf(config), w);
        CountedIsExact(config, w, x, name);
      }
    }
  }
}
