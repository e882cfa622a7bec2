/** What a run does, said of its configuration, the outside's answers and its own calls alone:
    which phases act, which calls they make, and where each validation's outcome comes from. */
module RunRules {
  import opened Json
  import opened PhaseMachine
  import opened PytestBridge
  import opened RunResult
  import opened StableOrder
  import opened StepExecutor
  import opened Text
  import opened Validations

  /** All calls of a run. */
  function Calls(plan: Plan, w: World): seq<Event> {
    After(plan, w, |plan.phases|).log
  }

  predicate Asked(plan: Plan, phase: string) {
    phase in plan.requested || ALL in plan.requested
  }

  /** Every call of the earlier passes went well, and so did every validation they decided. */
  predicate FineBefore(plan: Plan, w: World, t: nat)
    requires t <= |plan.phases|
  {
    && (forall e | e in Calls(plan, w) && e.pass < t :: EventOk(e))
    && OutcomesOk(After(plan, w, t).resolved)
  }

  predicate SetupStepAttempted(plan: Plan, w: World, t: nat)
    requires t <= |plan.phases|
  {
    exists e :: e in Calls(plan, w) && e.StepRun? && e.pass < t && plan.phases[e.pass] == SETUP
  }

  /** When a phase acts: it is asked for; nothing has failed before, unless it is
      teardown and that runs on failure; and before a teardown that is not asked for
      alone a setup step was attempted. */
  predicate Acts(plan: Plan, w: World, t: nat)
    requires t < |plan.phases|
  {
    var teardown := plan.phases[t] == TEARDOWN;
    && Asked(plan, plan.phases[t])
    && (FineBefore(plan, w, t) || (teardown && plan.teardownOnFailure))
    && (teardown && Asked(plan, SETUP) ==> SetupStepAttempted(plan, w, t))
  }

  lemma CallsBefore(plan: Plan, w: World, t: nat, e: Event)
    requires t <= |plan.phases|
    ensures e in After(plan, w, t).log <==> e in Calls(plan, w) && e.pass < t
  {
    LogIff(plan, w, t, e);
    LogIff(plan, w, |plan.phases|, e);
  }

  lemma FineBeforeIff(plan: Plan, w: World, t: nat)
    requires t <= |plan.phases|
    ensures FineBefore(plan, w, t) <==> After(plan, w, t).success
    ensures FineBefore(plan, w, t) <==> ResultsOk(After(plan, w, t).results)
  {
    SuccessIff(plan, w, t);
    forall e ensures e in After(plan, w, t).log <==> e in Calls(plan, w) && e.pass < t {
      CallsBefore(plan, w, t, e);
    }
  }

  lemma SetupStepAttemptedIff(plan: Plan, w: World, t: nat)
    requires t <= |plan.phases|
    ensures SetupStepAttempted(plan, w, t) <==> After(plan, w, t).setupRan
  {
    SetupRanIff(plan, w, t);
    if SetupStepAttempted(plan, w, t) {
      var e :| e in Calls(plan, w) && e.StepRun? && e.pass < t && plan.phases[e.pass] == SETUP;
      SetupAttempts(plan, w, e.pass);
    }
    if After(plan, w, t).setupRan {
      var s :| 0 <= s < t && plan.phases[s] == SETUP && Works(plan, w, s);
      SetupAttempts(plan, w, s);
    }
  }

  lemma ActsIff(plan: Plan, w: World, t: nat)
    requires t < |plan.phases|
    ensures Acts(plan, w, t) <==> Works(plan, w, t)
  {
    FineBeforeIff(plan, w, t);
    SetupStepAttemptedIff(plan, w, t);
  }

  // ---- Which calls are made ----

  /** Exactly which steps are attempted, and with which answer: in a phase that acts,
      those not switched off that no failure stops before, and in teardown all of them. */
  lemma StepCallIff(plan: Plan, w: World, t: nat, j: nat, ok: bool)
    requires t < |plan.phases|
    ensures var steps := PhaseSteps(plan, plan.phases[t]);
            StepRun(t, j, ok) in Calls(plan, w) <==>
            && Acts(plan, w, t) && j < |steps| && !steps[j].skip && ok == w.stepOk(t, j)
            && (plan.phases[t] == TEARDOWN
                || forall i | 0 <= i < j :: steps[i].skip || w.stepOk(t, i) || steps[i].continueOnFailure)
  {
    var steps, teardown := PhaseSteps(plan, plan.phases[t]), plan.phases[t] == TEARDOWN;
    ActsIff(plan, w, t);
    LogIff(plan, w, |plan.phases|, StepRun(t, j, ok));
    if j < |steps| {
      if teardown {
        BestEffortReachesAll(steps, OkIn(w, t));
      } else {
        StopsAtFirstFailure(steps, OkIn(w, t), j);
      }
      if j < |RecordsOf(plan, w, t)| {
        RecordAt(steps, OkIn(w, t), teardown, j);
      }
    }
  }

  /** A pass before `t` has taken up validation `i`. */
  predicate TakenUpBefore(plan: Plan, w: World, t: nat, i: nat)
    requires i < |plan.entries| && t <= |plan.phases|
  {
    exists s :: 0 <= s < t && plan.phases[s] == PhaseOf(plan, i) && Acts(plan, w, s)
  }

  lemma TakenUpStep(plan: Plan, w: World, t: nat, i: nat)
    requires 0 < t <= |plan.phases| && i < |plan.entries|
    ensures TakenUpBefore(plan, w, t, i) <==>
            TakenUpBefore(plan, w, t - 1, i) || (plan.phases[t - 1] == PhaseOf(plan, i) && Acts(plan, w, t - 1))
  {
  }

  /** A validation is decided by the first pass of its phase that acts. */
  lemma {:induction false} ResolvedIff(plan: Plan, w: World, t: nat, i: nat)
    requires t <= |plan.phases| && i < |plan.entries|
    ensures i in After(plan, w, t).resolved <==> TakenUpBefore(plan, w, t, i)
    decreases t
  {
    if t > 0 {
      ResolvedIff(plan, w, t - 1, i);
      TakenUpStep(plan, w, t, i);
      ActsIff(plan, w, t - 1);
      if i in After(plan, w, t - 1).resolved {
        ResolvedLater(plan, w, t - 1, t, i);
      } else {
        PassTakesOwn(plan, w, t - 1, i);
      }
    }
  }

  /** Validation `i` is for pass `t` to take up, and resolution lets it run. */
  predicate ForPytest(plan: Plan, w: World, t: nat, i: nat)
    requires t < |plan.phases|
  {
    && i < |plan.entries| && PhaseOf(plan, i) == plan.phases[t] && !TakenUpBefore(plan, w, t, i)
    && w.resolution(t, i).None?
  }

  lemma ReadyOfIff(plan: Plan, w: World, t: nat, i: nat)
    requires t < |plan.phases|
    ensures i in ReadyOf(plan, w, t) <==> ForPytest(plan, w, t, i)
  {
    IndexesIff(plan, w, t);
    FilterMembers(IndexesOf(plan, w, t), ReadyAt(w, t));
    if i < |plan.entries| {
      ResolvedIff(plan, w, t, i);
    }
  }

  lemma WithoutLast(a: seq<nat>, i: nat)
    requires Increasing(a) && a != []
    ensures i in a[..|a| - 1] <==> i in a && i != a[|a| - 1]
    ensures i in a ==> i <= a[|a| - 1]
  {
    assert a == a[..|a| - 1] + [a[|a| - 1]];
  }

  lemma {:induction false} IncreasingUnique(a: seq<nat>, b: seq<nat>)
    requires Increasing(a) && Increasing(b) && forall i: nat :: i in a <==> i in b
    ensures a == b
    decreases |a|
  {
    assert b == [] || b[0] in a;
    if a != [] {
      var m, n := |a| - 1, |b| - 1;
      assert a[m] in b;
      assert b[n] in a;
      WithoutLast(a, b[n]);
      WithoutLast(b, a[m]);
      forall i: nat ensures i in a[..m] <==> i in b[..n] {
        WithoutLast(a, i);
        WithoutLast(b, i);
      }
      IncreasingUnique(a[..m], b[..n]);
      assert a == a[..m] + [a[m]] && b == b[..n] + [b[n]];
    }
  }

  /** Exactly which validations pytest gets: in a phase that acts, those for it to take
      up that resolution lets run, in configuration order, if there are any. */
  lemma PytestCallIff(plan: Plan, w: World, t: nat, ids: seq<nat>, exit: int)
    requires t < |plan.phases|
    ensures PytestRun(t, ids, exit) in Calls(plan, w) <==>
            && Acts(plan, w, t) && ids != [] && exit == w.exitCode(t)
            && Increasing(ids) && forall i: nat :: i in ids <==> ForPytest(plan, w, t, i)
  {
    ActsIff(plan, w, t);
    LogIff(plan, w, |plan.phases|, PytestRun(t, ids, exit));
    ReadyOfPass(plan, w, t);
    forall i: nat ensures i in ReadyOf(plan, w, t) <==> ForPytest(plan, w, t, i) {
      ReadyOfIff(plan, w, t, i);
    }
    if Increasing(ids) && forall i: nat :: i in ids <==> ForPytest(plan, w, t, i) {
      IncreasingUnique(ids, ReadyOf(plan, w, t));
    }
  }

  // ---- Teardown ----

  /** With teardown on failure off, teardown makes a call only if every earlier call
      went well and every result and outcome before it is a success. */
  lemma NoTeardownAfterFailure(plan: Plan, w: World, e: Event)
    requires e in Calls(plan, w) && !plan.teardownOnFailure
    ensures e.pass < |plan.phases|
    ensures forall d | d in Calls(plan, w) && d.pass < e.pass :: EventOk(d)
    ensures ResultsOk(After(plan, w, e.pass).results) && OutcomesOk(After(plan, w, e.pass).resolved)
  {
    LogIff(plan, w, |plan.phases|, e);
    ActsIff(plan, w, e.pass);
    FineBeforeIff(plan, w, e.pass);
  }

  /** A requested teardown attempts a step of its that is not switched off exactly when
      setup was not requested or some setup step was attempted before, and nothing has
      failed before or teardown on failure is on. */
  lemma TeardownStepIff(plan: Plan, w: World, t: nat, j: nat)
    requires t < |plan.phases| && plan.phases[t] == TEARDOWN && Asked(plan, TEARDOWN)
    requires j < |PhaseSteps(plan, TEARDOWN)| && !PhaseSteps(plan, TEARDOWN)[j].skip
    ensures StepRun(t, j, w.stepOk(t, j)) in Calls(plan, w) <==>
            && (!Asked(plan, SETUP) || SetupStepAttempted(plan, w, t))
            && (FineBefore(plan, w, t) || plan.teardownOnFailure)
  {
    StepCallIff(plan, w, t, j, w.stepOk(t, j));
  }

  // ---- What a phase leaves in the report ----

  /** What each pass adds to the results: nothing when it is not asked for; at most one
      when it acts, which is then not marked as skipped; else one that says why not. */
  lemma ResultOfPass(plan: Plan, w: World, t: nat)
    requires t < |plan.phases|
    ensures var before, after := After(plan, w, t).results, After(plan, w, t + 1).results;
            var phase := plan.phases[t];
            if !Asked(plan, phase) then after == before
            else if Acts(plan, w, t) then
              || after == before
              || (|after| == |before| + 1 && after[..|before|] == before && after[|before|].skipped.None?)
            else
              && |after| == |before| + 1 && after[..|before|] == before
              && after[|before|].success && after[|before|].validations == [] && after[|before|].records == []
              && (phase != TEARDOWN ==> after[|before|].skipped == Some(PreviousPhaseFailed))
              && (phase == TEARDOWN ==>
                    after[|before|].skipped == if Asked(plan, SETUP) && !SetupStepAttempted(plan, w, t)
                                               then Some(SetupStepsDidNotRun) else Some(TeardownOnFailureDisabled))
    ensures var before, after := After(plan, w, t).results, After(plan, w, t + 1).results;
            |after| > |before| ==>
              && (after[|before|].phase.Setup? <==> plan.phases[t] == SETUP)
              && (after[|before|].phase.Teardown? <==> plan.phases[t] == TEARDOWN)
  {
    ActsIff(plan, w, t);
    SetupStepAttemptedIff(plan, w, t);
  }

  // ---- Where outcomes come from ----

  /** Record `u` of pass `t` is the last one under the name of the `m`th validation pytest got. */
  predicate RecordFor(plan: Plan, w: World, t: nat, ids: seq<nat>, m: nat, u: int)
    requires InRange(plan, ids) && m < |ids|
  {
    LastUnder(w.captured(t), QualifiedName(EntriesAt(plan, ids), m), u)
  }

  lemma CalledInRange(plan: Plan, w: World, t: nat, ids: seq<nat>, exit: int)
    requires PytestRun(t, ids, exit) in Calls(plan, w)
    ensures t < |plan.phases| && Works(plan, w, t) && ids == ReadyOf(plan, w, t) && InRange(plan, ids)
  {
    LogIff(plan, w, |plan.phases|, PytestRun(t, ids, exit));
    ReadyInRange(plan, w, t, IndexesOf(plan, w, t));
  }

  lemma SamePlace(ids: seq<nat>, k: nat, m: nat)
    requires Increasing(ids) && k < |ids| && m < |ids| && ids[k] == ids[m]
    ensures k == m
  {
  }

  /** Where the `m`th validation pytest got stands among those its pass takes up. */
  lemma PlaceOf(plan: Plan, w: World, t: nat, m: nat) returns (j: nat)
    requires t < |plan.phases| && m < |ReadyOf(plan, w, t)|
    ensures j < |IndexesOf(plan, w, t)| && IndexesOf(plan, w, t)[j] == ReadyOf(plan, w, t)[m]
    ensures w.resolution(t, ReadyOf(plan, w, t)[m]).None?
  {
    FilterMembers(IndexesOf(plan, w, t), ReadyAt(w, t));
    assert ReadyOf(plan, w, t)[m] in ReadyOf(plan, w, t);
    j :| 0 <= j < |IndexesOf(plan, w, t)| && IndexesOf(plan, w, t)[j] == ReadyOf(plan, w, t)[m];
  }

  lemma ExecutedIsFinal(plan: Plan, w: World, t: nat, m: nat)
    requires t < |plan.phases| && Works(plan, w, t) && m < |ReadyOf(plan, w, t)|
    ensures ReadyOf(plan, w, t)[m] < |plan.entries| == |Finish(plan, w).validations|
    ensures Finish(plan, w).validations[ReadyOf(plan, w, t)[m]] == ExecutedOf(plan, w, t)[m]
  {
    var ids := ReadyOf(plan, w, t);
    var j := PlaceOf(plan, w, t, m);
    var k := ReadyBefore(w, t, IndexesOf(plan, w, t), j);
    assert k < |ids| && ids[k] == ids[m] && |Finish(plan, w).validations| == |plan.entries|
           && Finish(plan, w).validations[ids[m]] == ExecutedOf(plan, w, t)[k] by {
      OutcomeIsOwn(plan, w, t, j);
    }
    assert Increasing(ids) by {
      ReadyOfPass(plan, w, t);
    }
    SamePlace(ids, k, m);
  }

  /** The final outcome of a validation pytest got is what its last record there says,
      and it is skipped without one. */
  lemma ExecutedOutcome(plan: Plan, w: World, t: nat, ids: seq<nat>, exit: int, m: nat)
    requires PytestRun(t, ids, exit) in Calls(plan, w) && m < |ids|
    ensures InRange(plan, ids) && |Finish(plan, w).validations| == |plan.entries|
    ensures var final := Finish(plan, w).validations[ids[m]];
            && final.Terminal?
            && (NoneUnder(w.captured(t), QualifiedName(EntriesAt(plan, ids), m)) ==> final.state.Skipped?)
            && forall u | RecordFor(plan, w, t, ids, m, u) :: Judged(final.state, w.captured(t)[u].outcome)
  {
    CalledInRange(plan, w, t, ids, exit);
    ExecutedIsFinal(plan, w, t, m);
    var entries := EntriesAt(plan, ids);
    OutcomeJudged(Renamed(entries, m), w.captured(t), QualifiedName(entries, m));
  }

  /** A run that succeeds has executed no validation whose record neither passed nor skipped. */
  lemma SuccessNeedsRecords(plan: Plan, w: World, t: nat, ids: seq<nat>, exit: int, m: nat, u: nat)
    requires Finish(plan, w).success
    requires PytestRun(t, ids, exit) in Calls(plan, w) && m < |ids| && InRange(plan, ids)
    requires RecordFor(plan, w, t, ids, m, u)
    ensures w.captured(t)[u].outcome.skipped || w.captured(t)[u].outcome.passed
  {
    ExecutedOutcome(plan, w, t, ids, exit, m);
    RunSucceedsIff(plan, w);
  }

  /** A validation no pass executes: the decision of resolution in the pass that takes it
      up, or after the last pass, where one that could run is skipped. */
  lemma UnexecutedOutcome(plan: Plan, w: World, t: nat, i: nat)
    requires t <= |plan.phases| && i < |plan.entries| && !TakenUpBefore(plan, w, t, i)
    requires t < |plan.phases| ==> Acts(plan, w, t) && plan.phases[t] == PhaseOf(plan, i)
    ensures |Finish(plan, w).validations| == |plan.entries|
    ensures w.resolution(t, i).Some? ==>
              Finish(plan, w).validations[i] == Terminal(plan.entries[i], w.resolution(t, i).value)
    ensures w.resolution(t, i).None? && t == |plan.phases| ==>
              Finish(plan, w).validations[i] == Terminal(plan.entries[i], Skipped)
  {
    OneOutcomeEach(plan, w);
    ResolvedIff(plan, w, t, i);
    if t == |plan.phases| {
      FinalResolvedAt(plan, w, i);
    } else {
      ActsIff(plan, w, t);
      IndexesIff(plan, w, t);
      assert i in IndexesOf(plan, w, t);
      var j :| 0 <= j < |IndexesOf(plan, w, t)| && IndexesOf(plan, w, t)[j] == i;
      if w.resolution(t, i).Some? {
        OutcomeIsOwn(plan, w, t, j);
      }
    }
  }

  // ---- Phases of steps and validations ----

  /** Step `j` is the last one of its name that is not switched off. */
  predicate LastOfName(steps: seq<Step>, name: string, j: int) {
    && 0 <= j < |steps| && !steps[j].skip && steps[j].name == name
    && forall k | j < k < |steps| :: steps[k].skip || steps[k].name != name
  }

  lemma {:induction false} StepPhasesIff(steps: seq<Step>, name: string)
    ensures name in StepPhases(steps) <==> exists j :: 0 <= j < |steps| && !steps[j].skip && steps[j].name == name
    ensures forall j | LastOfName(steps, name, j) ::
              name in StepPhases(steps) && StepPhases(steps)[name] == StepPhase(steps[j])
    decreases |steps|
  {
    if steps != [] {
      var last := |steps| - 1;
      StepPhasesIff(steps[..last], name);
      assert steps == steps[..last] + [steps[last]];
      if steps[last].skip || steps[last].name != name {
        forall j | LastOfName(steps, name, j)
          ensures name in StepPhases(steps) && StepPhases(steps)[name] == StepPhase(steps[j])
        {
          assert LastOfName(steps[..last], name, j);
        }
      }
    }
  }

  /** A step without a phase is a setup step; case does not matter in the phase of another. */
  lemma PhaseOfStep(step: Step, phase: string)
    requires forall i | 0 <= i < |phase| :: !('A' <= phase[i] <= 'Z')
    ensures step.phase == "" ==> (StepPhase(step) == phase <==> phase == "setup")
    ensures step.phase != "" ==>
              (StepPhase(step) == phase <==>
               |step.phase| == |phase| && forall i | 0 <= i < |phase| ::
                 || step.phase[i] == phase[i]
                 || ('A' <= step.phase[i] <= 'Z' && step.phase[i] as int + 32 == phase[i] as int))
  {
    var own := if step.phase == "" then SETUP else step.phase;
    if step.phase == "" {
      assert Lower(SETUP) == SETUP;
    } else if |own| == |phase| {
      forall i | 0 <= i < |own|
        ensures LowerChar(own[i]) == phase[i] <==>
                own[i] == phase[i] || ('A' <= own[i] <= 'Z' && own[i] as int + 32 == phase[i] as int)
      {
      }
      if StepPhase(step) == phase {
        assert forall i | 0 <= i < |phase| :: StepPhase(step)[i] == phase[i];
      } else {
        var i :| 0 <= i < |phase| && StepPhase(step)[i] != phase[i];
      }
    }
  }

  /** A validation belongs to the phase it names; else to that of the step it is bound to,
      the last of the name that is not switched off; else, also when every step of the
      name is switched off, to the test phase. */
  lemma PhaseOfEntry(plan: Plan, i: nat)
    requires i < |plan.entries|
    ensures var e := plan.entries[i];
            if e.phase.Some? && e.phase.value != "" then PhaseOf(plan, i) == e.phase.value
            else if e.step.Some? && e.step.value != "" then
              && (forall j | LastOfName(plan.steps, e.step.value, j) :: PhaseOf(plan, i) == StepPhase(plan.steps[j]))
              && ((forall j | 0 <= j < |plan.steps| :: plan.steps[j].skip || plan.steps[j].name != e.step.value) ==>
                    PhaseOf(plan, i) == DEFAULT_VALIDATION_PHASE)
            else PhaseOf(plan, i) == DEFAULT_VALIDATION_PHASE
  {
    if plan.entries[i].step.Some? {
      StepPhasesIff(plan.steps, plan.entries[i].step.value);
    }
  }
}
