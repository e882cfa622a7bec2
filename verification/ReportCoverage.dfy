/** For which phase lists every outcome of every run reaches the merged report. */
module ReportCoverage {
  import opened JUnit
  import opened Json
  import opened LostOutcomes
  import opened Orchestrator
  import opened PhaseMachine
  import opened PhaseReports
  import opened PytestBridge
  import opened RunResult
  import opened StepExecutor
  import opened Text
  import opened Validations

  /** The outcome of validation `i`, under its reported name, is a testcase of the merged report. */
  predicate Reported(config: Config, w: World, x: Written, i: nat)
    requires i < |config.entries|
  {
    && |RunReport(config, w).validations| == |config.entries|
    && MergedOf(config, w, x).Some?
    && exists c :: c in AllCases(MergedOf(config, w, x).value)
                   && c.name == RunReport(config, w).validations[i].entry.name
  }

  /** A configuration with these phases that leads into the phase loop, asked for
      phases that there are, with a report. */
  predicate RunsWith(config: Config, phases: seq<string>) {
    && ReachesLoop(config) && PhasesOfConfig(config) == phases
    && ValidRequest(config.requested) && config.junitxml
  }

  /** Whatever else is configured and requested, and whatever commands, resolution
      and pytest answer. */
  ghost predicate AlwaysReported(phases: seq<string>) {
    forall config: Config, w: World, x: Written, i: nat {:trigger Reported(config, w, x, i)}
      | RunsWith(config, phases) && i < |config.entries| :: Reported(config, w, x, i)
  }

  /** Some run with these phases can write two files at one path. */
  ghost predicate Clashes(phases: seq<string>) {
    && (exists own :: own in phases && HoldsSteps(own))
    && exists q, kind :: Clash(phases, q, kind)
  }

  // ---- Runs without a clash ----

  lemma {:induction false} StepPhasesNonEmpty(steps: seq<Step>)
    ensures forall name | name in StepPhases(steps) :: StepPhases(steps)[name] != ""
    decreases |steps|
  {
    if steps != [] {
      StepPhasesNonEmpty(steps[..|steps| - 1]);
      var last := steps[|steps| - 1];
      assert |StepPhase(last)| == |if last.phase == "" then SETUP else last.phase|;
    }
  }

  lemma StepPhaseHolds(step: Step)
    ensures HoldsSteps(StepPhase(step))
  {
    var name := if step.phase == "" then SETUP else step.phase;
    assert |Lower(name)| == |name|;
    forall i | 0 <= i < |name| ensures LowerChar(LowerChar(name[i])) == LowerChar(name[i]) {
    }
    assert Lower(Lower(name)) == Lower(name);
  }

  /** Only a configuration that has a place for its steps gets into the loop. */
  lemma SomePhaseHoldsSteps(config: Config)
    requires ReachesLoop(config)
    ensures exists own :: own in PhasesOfConfig(config) && HoldsSteps(own)
  {
    if config.commands.None? {
      assert Lower(DEFAULT_VALIDATION_PHASE) == DEFAULT_VALIDATION_PHASE;
      assert PhasesOfConfig(config)[0] in PhasesOfConfig(config) && HoldsSteps(DEFAULT_VALIDATION_PHASE);
    } else {
      StepPhaseHolds(StepsOfConfig(config)[0]);
      assert StepPhase(StepsOfConfig(config)[0]) in PhasesOfConfig(config);
    }
  }

  /** A phase with a stub's suffix works only when everything is requested. */
  lemma StubNameNeedsAll(plan: Plan, w: World, k: nat, q: string, kind: FileKind)
    requires k < |plan.phases| && Works(plan, w, k) && ValidRequest(plan.requested)
    requires kind != Plain && plan.phases[k] == q + Suffix(kind)
    ensures ALL in plan.requested && After(plan, w, k).success
  {
    LastCharacter(q, kind);
  }

  /** With everything requested, teardown works only after a setup phase. */
  lemma TeardownNeedsSetup(plan: Plan, w: World, t: nat)
    requires t < |plan.phases| && Works(plan, w, t) && plan.phases[t] == TEARDOWN && ALL in plan.requested
    ensures ComesAfter(plan.phases, TEARDOWN, SETUP)
  {
    SetupRanIff(plan, w, t);
    var s :| 0 <= s < t && plan.phases[s] == SETUP;
    assert plan.phases[..t][s] == SETUP;
  }

  /** With everything requested, a phase before a working one works too, but for teardown. */
  lemma EarlierWorks(plan: Plan, w: World, b: nat, k: nat)
    requires b < k < |plan.phases| && After(plan, w, k).success && ALL in plan.requested
    requires plan.phases[b] != TEARDOWN
    ensures Works(plan, w, b)
  {
    SuccessBefore(plan, w, b, k);
  }

  lemma LeftOverClashes(plan: Plan, w: World, k: nat, q: string)
    requires k < |plan.phases| && Works(plan, w, k) && plan.phases[k] == q + Suffix(Unexecuted)
    requires ALL in plan.requested && After(plan, w, k).success && LeftIn(plan, w, q) && q != ""
    ensures Clash(plan.phases, q, Unexecuted)
  {
    assert plan.phases[k] in plan.phases;
    if q != TEARDOWN && q in plan.phases[..k] {
      var b :| 0 <= b < k && plan.phases[..k][b] == q;
      EarlierWorks(plan, w, b, k);
      ClosedByWork(plan, w, b, |plan.phases|);
      assert false;
    }
  }

  lemma WrittenClashes(plan: Plan, w: World, k: nat, q: string, kind: FileKind)
    requires k < |plan.phases| && plan.phases[k] == q + Suffix(kind)
    requires ALL in plan.requested && WorksIn(plan, w, q) && q != "" && kind != Plain && kind != Unexecuted
    ensures Clash(plan.phases, q, kind)
  {
    assert plan.phases[k] in plan.phases;
    var t :| 0 <= t < |plan.phases| && plan.phases[t] == q && Works(plan, w, t);
    assert plan.phases[t] in plan.phases;
    if q == TEARDOWN {
      TeardownNeedsSetup(plan, w, t);
    }
  }

  lemma UsedIsNamed(plan: Plan, q: string)
    requires Used(plan, q)
    ensures q != ""
  {
    StepPhasesNonEmpty(plan.steps);
  }

  lemma SharedPathClashes(plan: Plan, w: World, k: nat, q: string, kind: FileKind)
    requires ValidRequest(plan.requested) && kind != Plain && MayWrite(plan, w, q, kind)
    requires k < |plan.phases| && plan.phases[k] == q + Suffix(kind) && Works(plan, w, k)
    ensures Clash(plan.phases, q, kind)
  {
    UsedIsNamed(plan, q);
    StubNameNeedsAll(plan, w, k, q, kind);
    if kind == Unexecuted {
      LeftOverClashes(plan, w, k, q);
    } else {
      WrittenClashes(plan, w, k, q, kind);
    }
  }

  lemma NoClashKeepsApart(plan: Plan, w: World)
    requires ValidRequest(plan.requested) && forall q, kind :: !Clash(plan.phases, q, kind)
    ensures RunApart(plan, w)
  {
    forall p, q, kind | MayWrite(plan, w, p, Plain) && MayWrite(plan, w, q, kind) && kind != Plain
      ensures p != q + Suffix(kind)
    {
      if p == q + Suffix(kind) {
        var k :| 0 <= k < |plan.phases| && plan.phases[k] == p && Works(plan, w, k);
        SharedPathClashes(plan, w, k, q, kind);
        assert false;
      }
    }
  }

  lemma SomeFile(files: seq<Option<XmlFile>>, c: Case, order: seq<string>)
    requires c in AllCases(MergeReport(files, order))
    ensures files != []
  {
    if files == [] {
      ReportIsComplete(files, order);
    }
  }

  /** The report of a run whose files have their own paths shows every outcome. */
  lemma ApartIsReported(config: Config, w: World, x: Written, i: nat)
    requires RunsWith(config, PhasesOfConfig(config)) && i < |config.entries| && RunApart(PlanOf(config), w)
    ensures Reported(config, w, x, i)
  {
    var plan := PlanOf(config);
    var js := FinalFiles(plan, w, x, config.platform);
    var c := EveryOutcomeReported(plan, w, x, config.platform, i);
    SomeFile(Contents(js), c, NameOrder(plan));
    assert c in AllCases(MergedOf(config, w, x).value);
  }

  // ---- Runs with one ----

  /** The configuration behind a lost outcome. */
  function LossConfig(l: Loss): Config {
    Config(
      Some(Commands(l.phases, false, LossPlan(l).steps)), LossPlan(l).entries, None, "lab", {ALL}, true, true)
  }

  lemma LossConfigRuns(l: Loss)
    requires LossOk(l)
    ensures RunsWith(LossConfig(l), l.phases) && PlanOf(LossConfig(l)) == LossPlan(l)
  {
    var config := LossConfig(l);
    assert StepPhase(config.commands.value.steps[0]) == l.own;
    assert GatedSteps(config) == StepsOfConfig(config);
  }

  lemma LostIsNotReported(config: Config, w: World, x: Written, i: nat)
    requires RunsWith(config, PhasesOfConfig(config)) && i < |config.entries|
    requires Lost(PlanOf(config), w, x, config.platform, i)
    ensures !Reported(config, w, x, i)
  {
  }

  lemma SetupIsThere(phases: seq<string>)
    requires ComesAfter(phases, TEARDOWN, SETUP)
    ensures SETUP in phases && HoldsSteps(SETUP)
  {
    var t :| 0 <= t < |phases| && phases[t] == TEARDOWN && SETUP in phases[..t];
    var s :| 0 <= s < t && phases[..t][s] == SETUP;
    assert phases[s] in phases && Lower(SETUP) == SETUP;
  }

  lemma LossFor(phases: seq<string>) returns (l: Loss)
    requires Clashes(phases)
    ensures l.phases == phases && LossOk(l)
  {
    var own :| own in phases && HoldsSteps(own);
    var q, kind :| Clash(phases, q, kind);
    l := Loss(phases, q, kind, own);
    if NeedsSetup(l) {
      SetupIsThere(phases);
      l := l.(own := SETUP);
    }
  }

  /** Where a clash is possible, a run with the clash loses an outcome. */
  lemma SomethingLost(phases: seq<string>)
    requires Clashes(phases)
    ensures !AlwaysReported(phases)
  {
    var l := LossFor(phases);
    LossConfigRuns(l);
    var i := SomethingIsLost(l, LossConfig(l).platform);
    LostIsNotReported(LossConfig(l), LossWorld(l), LossFiles(l), i);
  }

  /** Every outcome of every run with these phases reaches the report exactly when no
      run can write two files at one path: when no phase is another configured one
      with the suffix of its stubs, and none is one with the suffix of left-over
      validations that is teardown or does not come before it. Teardown counts for
      the former only behind setup, and phases that no step can belong to, alone,
      make no run. */
  lemma AlwaysReportedIff(phases: seq<string>)
    ensures AlwaysReported(phases) <==> !Clashes(phases)
  {
    if Clashes(phases) {
      SomethingLost(phases);
    } else {
      forall config: Config, w: World, x: Written, i: nat | RunsWith(config, phases) && i < |config.entries|
        ensures Reported(config, w, x, i)
      {
        SomePhaseHoldsSteps(config);
        NoClashKeepsApart(PlanOf(config), w);
        ApartIsReported(config, w, x, i);
      }
    }
  }

  lemma OnlyUnexecuted(q: string, kind: FileKind)
    requires kind != Plain && (q + Suffix(kind) == "x" || q + Suffix(kind) == "x-unexecuted")
    ensures q == "x" && kind == Unexecuted
  {
    SuffixTell(kind);
    SuffixedIff(q, kind, "x", Unexecuted);
    assert "x" + Suffix(Unexecuted) == "x-unexecuted";
  }

  /** The order of the phases decides: with x first, what is left over of x means
      that x-unexecuted did not work either. */
  lemma OrderDecides()
    ensures AlwaysReported(["x", "x-unexecuted"]) && !AlwaysReported(["x-unexecuted", "x"])
  {
    var safe, unsafe := ["x", "x-unexecuted"], ["x-unexecuted", "x"];
    assert "x" + Suffix(Unexecuted) == "x-unexecuted" && |"x"| != |"x-unexecuted"| && "x"[0] != TEARDOWN[0];
    assert safe[..1] == ["x"] && safe[0] == "x" && "x" in ["x"];
    forall q, kind ensures !Clash(safe, q, kind) {
      if Clash(safe, q, kind) {
        OnlyUnexecuted(q, kind);
        assert false;
      }
    }
    assert Lower("x") == "x" && unsafe[1] == "x" && unsafe[0] == "x-unexecuted" && unsafe[..0] == [];
    assert "x" in unsafe && HoldsSteps("x");
    assert ComesWithout(unsafe, "x-unexecuted", "x");
    assert Clash(unsafe, "x", Unexecuted);
    AlwaysReportedIff(safe);
    AlwaysReportedIff(unsafe);
  }

  /** How a run ends in which resolution decides the first validation and pytest runs the second. */
  lemma DecidedRun(l: Loss, a: nat, b: nat)
    requires LossOk(l) && l.kind == Resolved
    requires FirstToWork(LossPlan(l), LossWorld(l), a, Named(l)) && FirstToWork(LossPlan(l), LossWorld(l), b, l.phase)
    ensures Finish(LossPlan(l), LossWorld(l)).success && |Finish(LossPlan(l), LossWorld(l)).validations| == 2
    ensures Finish(LossPlan(l), LossWorld(l)).validations[0] == Terminal(LossPlan(l).entries[0], Skipped)
    ensures Finish(LossPlan(l), LossWorld(l)).validations[1] == Terminal(LossPlan(l).entries[1], Passed)
  {
    var plan, w := LossPlan(l), LossWorld(l);
    LossRun(l, a, b);
    LossSucceeds(l, |l.phases|);
    LossResolved(l, a, b);
    SomeIndex(RemainingOf(plan, w));
    OutcomeIsOwn(plan, w, b, 0);
    OutcomeIsOwn(plan, w, a, 0);
    SoleReady(plan, w, a, 1);
    SecondPasses(l, a);
  }

  lemma SecondPasses(l: Loss, a: nat)
    requires LossOk(l) && l.kind == Resolved && IsNamed(l, a) && ReadyOf(LossPlan(l), LossWorld(l), a) == [1]
    ensures ExecutedOf(LossPlan(l), LossWorld(l), a) == [Terminal(LossPlan(l).entries[1], Passed)]
  {
    var second := LossPlan(l).entries[1];
    assert EntriesAt(LossPlan(l), [1]) == [second];
    SoleName(second);
    assert LossWorld(l).captured(a)[0] == RawResult(SECOND, RawOutcome(false, true, false));
  }

  /** The second outcome is in the report, so there is one. */
  lemma DecidedFilesListed(l: Loss, platform: string, a: nat, b: nat)
    requires LossOk(l) && l.kind == Resolved && a + 1 == |l.phases|
    requires FirstToWork(LossPlan(l), LossWorld(l), a, Named(l)) && FirstToWork(LossPlan(l), LossWorld(l), b, l.phase)
    ensures FinalFiles(LossPlan(l), LossWorld(l), LossFiles(l), platform).files != []
  {
    var plan, w, x := LossPlan(l), LossWorld(l), LossFiles(l);
    LossRun(l, a, b);
    SoleReady(plan, w, a, 1);
    LossResolved(l, a, b);
    NoneLeft(plan, w, x, platform);
    FilesOfPass(plan, w, x, platform, a);
    var kind := ExecutedShown(plan, w, x, platform, a, FilesAfter(plan, w, x, platform, a), 0);
  }

  lemma DecidedLoss() returns (l: Loss)
    ensures LossOk(l) && l.phases == ["x", "x-resolved"] && l.phase == "x" && l.kind == Resolved
    ensures FirstToWork(LossPlan(l), LossWorld(l), 1, Named(l)) && FirstToWork(LossPlan(l), LossWorld(l), 0, "x")
  {
    l := Loss(["x", "x-resolved"], "x", Resolved, "x");
    assert "x" + Suffix(Resolved) == "x-resolved" && |"x-resolved"| != |"x"|;
    assert l.phases[0] == "x" && l.phases[1] == "x-resolved" && Lower("x") == "x";
    assert "x"[0] != TEARDOWN[0];
    LossPhases(l);
    LossSucceeds(l, 0);
    LossWorks(l, 0);
    LossSucceeds(l, 1);
    LossWorks(l, 1);
  }

  /** An outcome that is in the report of the run but not in its merged JUnit report. */
  predicate MissingFromJunit(config: Config, w: World, x: Written, i: nat) {
    && i < |RunReport(config, w).validations| && MergedOf(config, w, x).Some?
    && forall c | c in AllCases(MergedOf(config, w, x).value) ::
         c.name != RunReport(config, w).validations[i].entry.name
  }

  /** For one: phases x and x-resolved, everything requested. A validation of x is
      skipped by resolution; one of x-resolved is run by pytest and passes, and
      pytest's file is written over the stub of the first. */
  lemma DecidedOutcomeLost() returns (config: Config, w: World, x: Written)
    ensures RunsWith(config, ["x", "x-resolved"]) && config.requested == {ALL} && |config.entries| == 2
    ensures config.entries[0].phase == Some("x") && config.entries[1].phase == Some("x-resolved")
    ensures var r := RunReport(config, w);
            && r.success && |r.validations| == 2
            && r.validations[0] == Terminal(config.entries[0], Skipped)
            && r.validations[1] == Terminal(config.entries[1], Passed)
    ensures MissingFromJunit(config, w, x, 0)
  {
    var l := DecidedLoss();
    config, w, x := LossConfig(l), LossWorld(l), LossFiles(l);
    LossConfigRuns(l);
    DecidedRun(l, 1, 0);
    EarlierIsLost(l, config.platform, 1, 0);
    DecidedFilesListed(l, config.platform, 1, 0);
  }
}
