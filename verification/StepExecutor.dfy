/** Running the steps of one phase in order, and switching steps off by capability. */
module StepExecutor {
  import opened Json
  import opened Validations

  datatype Step = Step(name: string, phase: string, skip: bool, requirements: seq<string>, continueOnFailure: bool)

  /** A step's entry in the results; a skipped step leaves a record without an attempt. */
  datatype StepRecord = StepRecord(name: string, attempted: bool, success: bool)

  function RecordOf(step: Step, ok: bool): StepRecord {
    StepRecord(step.name, !step.skip, step.skip || ok)
  }

  /** Whether the loop goes on to the next step after this one. */
  predicate GoesOn(step: Step, ok: bool, bestEffort: bool) {
    step.skip || ok || step.continueOnFailure || bestEffort
  }

  /** How many steps the loop reaches, starting at the `n`th. */
  function Reached(steps: seq<Step>, ok: nat -> bool, bestEffort: bool, n: nat): (r: nat)
    requires n <= |steps|
    ensures n <= r <= |steps|
    decreases |steps| - n
  {
    if n == |steps| then n
    else if GoesOn(steps[n], ok(n), bestEffort) then Reached(steps, ok, bestEffort, n + 1)
    else n + 1
  }

  /** Every step before the last one reached lets the loop go on; one that is not the last does not. */
  lemma {:induction false} ReachedStops(steps: seq<Step>, ok: nat -> bool, bestEffort: bool, n: nat)
    requires n <= |steps|
    ensures var r := Reached(steps, ok, bestEffort, n);
            && (forall j | n <= j < r - 1 :: GoesOn(steps[j], ok(j), bestEffort))
            && (r < |steps| ==> n < r && !GoesOn(steps[r - 1], ok(r - 1), bestEffort))
    decreases |steps| - n
  {
    if n < |steps| && GoesOn(steps[n], ok(n), bestEffort) {
      ReachedStops(steps, ok, bestEffort, n + 1);
    }
  }

  function Records(steps: seq<Step>, ok: nat -> bool, n: nat): seq<StepRecord>
    requires n <= |steps|
  {
    seq(n, j requires 0 <= j < n => RecordOf(steps[j], ok(j)))
  }

  function Execute(steps: seq<Step>, ok: nat -> bool, bestEffort: bool): seq<StepRecord> {
    Records(steps, ok, Reached(steps, ok, bestEffort, 0))
  }

  predicate AllOk(records: seq<StepRecord>) {
    forall j | 0 <= j < |records| :: records[j].success
  }

  lemma RecordAt(steps: seq<Step>, ok: nat -> bool, bestEffort: bool, j: nat)
    requires j < |Execute(steps, ok, bestEffort)|
    ensures Execute(steps, ok, bestEffort)[j] == RecordOf(steps[j], ok(j))
  {
  }

  /** In best effort nothing stops the loop. */
  lemma BestEffortReachesAll(steps: seq<Step>, ok: nat -> bool)
    ensures |Execute(steps, ok, true)| == |steps|
    ensures forall j | 0 <= j < |steps| :: Execute(steps, ok, true)[j].attempted <==> !steps[j].skip
  {
    ReachedStops(steps, ok, true, 0);
    forall j | 0 <= j < |steps| ensures Execute(steps, ok, true)[j].attempted <==> !steps[j].skip {
      RecordAt(steps, ok, true, j);
    }
  }

  /** Without it the loop ends early exactly after the first step that fails and
      is not allowed to; then some attempted step has failed. */
  lemma StopsAtFirstFailure(steps: seq<Step>, ok: nat -> bool, j: nat)
    requires j < |steps|
    ensures var r := Execute(steps, ok, false);
            j < |r| <==> forall i | 0 <= i < j :: GoesOn(steps[i], ok(i), false)
    ensures var r := Execute(steps, ok, false);
            |r| < |steps| ==> !AllOk(r)
  {
    var r := Reached(steps, ok, false, 0);
    ReachedStops(steps, ok, false, 0);
    if j < r {
      assert forall i | 0 <= i < j :: GoesOn(steps[i], ok(i), false);
    } else {
      assert !GoesOn(steps[r - 1], ok(r - 1), false);
    }
    if r < |steps| {
      assert !Execute(steps, ok, false)[r - 1].success;
    }
  }

  lemma AllOkSnoc(records: seq<StepRecord>, record: StepRecord)
    ensures AllOk(records + [record]) <==> AllOk(records) && record.success
  {
    assert (records + [record])[|records|] == record;
    assert forall j | 0 <= j < |records| :: (records + [record])[j] == records[j];
  }

  lemma RecordsSnoc(steps: seq<Step>, ok: nat -> bool, n: nat)
    requires n < |steps|
    ensures Records(steps, ok, n + 1) == Records(steps, ok, n) + [RecordOf(steps[n], ok(n))]
  {
  }

  predicate Runnable(steps: seq<Step>) {
    exists j :: 0 <= j < |steps| && !steps[j].skip
  }

  /** Some step is attempted exactly when some step is not skipped. */
  lemma AttemptedIff(steps: seq<Step>, ok: nat -> bool, bestEffort: bool)
    ensures Runnable(steps) <==>
            exists j :: 0 <= j < |Execute(steps, ok, bestEffort)| && Execute(steps, ok, bestEffort)[j].attempted
  {
    var r, n := Execute(steps, ok, bestEffort), Reached(steps, ok, bestEffort, 0);
    ReachedStops(steps, ok, bestEffort, 0);
    assert |r| == n;
    if Runnable(steps) {
      if n == |steps| {
        var j :| 0 <= j < |steps| && !steps[j].skip;
        RecordAt(steps, ok, bestEffort, j);
      } else {
        assert !GoesOn(steps[n - 1], ok(n - 1), bestEffort);
        assert r[n - 1] == RecordOf(steps[n - 1], ok(n - 1));
        assert r[n - 1].attempted;
      }
    }
    forall j | 0 <= j < n && r[j].attempted ensures Runnable(steps) {
      assert r[j] == RecordOf(steps[j], ok(j)) && !steps[j].skip;
    }
  }

  class StepResults {
    var success: bool
    var steps: seq<StepRecord>

    constructor ()
      ensures success && steps == []
    {
      success, steps := true, [];
    }

    method AddStep(record: StepRecord)
      modifies this
      ensures steps == old(steps) + [record] && success == (old(success) && record.success)
    {
      steps := steps + [record];
      if !record.success {
        success := false;
      }
    }
  }

  /** `execute_steps`; `ok(j)` is what running step `j` would report. */
  method ExecuteSteps(steps: seq<Step>, ok: nat -> bool, bestEffort: bool) returns (results: StepResults)
    ensures fresh(results)
    ensures results.steps == Execute(steps, ok, bestEffort)
    ensures results.success <==> AllOk(results.steps)
  {
    results := new StepResults();
    var n := 0;
    while n < |steps|
      invariant 0 <= n <= |steps| && fresh(results)
      invariant results.steps == Records(steps, ok, n)
      invariant results.success <==> AllOk(results.steps)
      invariant Reached(steps, ok, bestEffort, 0) == Reached(steps, ok, bestEffort, n)
    {
      var step := steps[n];
      n := n + 1;
      RecordsSnoc(steps, ok, n - 1);
      AllOkSnoc(results.steps, RecordOf(step, ok(n - 1)));
      if step.skip {
        results.AddStep(StepRecord(step.name, false, true));
        continue;
      }
      var success := ok(n - 1);
      results.AddStep(StepRecord(step.name, true, success));
      if !success && !step.continueOnFailure {
        results.success := false;
        if !bestEffort {
          break;
        }
      }
    }
  }

  // ---- Capability gates ----

  predicate RequirementsSatisfied(requirements: seq<string>, capability: string) {
    requirements == [] || capability in requirements
  }

  predicate BoundTo(entry: ValidationEntry, step: Step) {
    entry.step == Some(step.name)
  }

  /** A step is switched off when its own requirements exclude the capability, or
      when it has bound validations and the capability filters out all of them. */
  predicate GatedOff(step: Step, entries: seq<ValidationEntry>, capability: string) {
    || !RequirementsSatisfied(step.requirements, capability)
    || ((exists i :: 0 <= i < |entries| && BoundTo(entries[i], step))
        && forall i | 0 <= i < |entries| && BoundTo(entries[i], step) ::
             !RequirementsSatisfied(entries[i].requirements, capability))
  }

  function Gated(step: Step, entries: seq<ValidationEntry>, capability: Option<string>): Step {
    if capability.Some? && GatedOff(step, entries, capability.value) then step.(skip := true) else step
  }

  /** A list of requirements that does not name the capability; an empty one excludes nothing. */
  predicate Excludes(requirements: seq<string>, capability: string) {
    requirements != [] && forall r | r in requirements :: r != capability
  }

  /** Some validation is bound to the step, and all that are exclude the capability. */
  predicate AllBoundExcluded(entries: seq<ValidationEntry>, step: string, capability: string) {
    && (exists i :: 0 <= i < |entries| && entries[i].step == Some(step))
    && (forall i | 0 <= i < |entries| && entries[i].step == Some(step) ::
          Excludes(entries[i].requirements, capability))
  }

  lemma ExcludesIff(requirements: seq<string>, capability: string)
    ensures Excludes(requirements, capability) <==> !RequirementsSatisfied(requirements, capability)
  {
  }

  /** A step is switched off exactly when it was, or the capability excludes it or all
      validations bound to it, of which there are some. */
  lemma GatedIff(step: Step, entries: seq<ValidationEntry>, capability: string)
    ensures Gated(step, entries, Some(capability)).skip <==>
            step.skip || Excludes(step.requirements, capability) || AllBoundExcluded(entries, step.name, capability)
  {
    forall i | 0 <= i < |entries| && BoundTo(entries[i], step)
      ensures Excludes(entries[i].requirements, capability)
              <==> !RequirementsSatisfied(entries[i].requirements, capability)
    {
      ExcludesIff(entries[i].requirements, capability);
    }
  }

  /** `_apply_capability_step_gates`: every step in its place, with only the skip
      flag changed, and that exactly for the steps switched off. */
  method ApplyCapabilityStepGates(steps: seq<Step>, entries: seq<ValidationEntry>, capability: Option<string>)
    returns (gated: seq<Step>)
    ensures |gated| == |steps|
    ensures forall j | 0 <= j < |steps| :: gated[j] == Gated(steps[j], entries, capability)
    ensures forall j | 0 <= j < |steps| ::
              && gated[j] == steps[j].(skip := gated[j].skip)
              && (gated[j].skip <==>
                  || steps[j].skip
                  || (capability.Some? && (Excludes(steps[j].requirements, capability.value)
                                           || AllBoundExcluded(entries, steps[j].name, capability.value))))
  {
    if capability.None? {
      return steps;
    }
    gated := [];
    var j := 0;
    while j < |steps|
      invariant 0 <= j <= |steps| && |gated| == j
      invariant forall i | 0 <= i < j :: gated[i] == Gated(steps[i], entries, capability)
    {
      var step := steps[j];
      j := j + 1;
      if step.requirements != [] && !RequirementsSatisfied(step.requirements, capability.value) {
        gated := gated + [step.(skip := true)];
        continue;
      }
      var bound, allOut := BoundEntries(step, entries, capability.value);
      if bound && allOut {
        gated := gated + [step.(skip := true)];
      } else {
        gated := gated + [step];
      }
    }
    forall i | 0 <= i < |steps|
      ensures gated[i].skip <==>
              || steps[i].skip || Excludes(steps[i].requirements, capability.value)
              || AllBoundExcluded(entries, steps[i].name, capability.value)
    {
      GatedIff(steps[i], entries, capability.value);
    }
  }

  method BoundEntries(step: Step, entries: seq<ValidationEntry>, capability: string) returns (some: bool, allOut: bool)
    ensures some <==> exists i :: 0 <= i < |entries| && BoundTo(entries[i], step)
    ensures allOut <==> forall i | 0 <= i < |entries| && BoundTo(entries[i], step) ::
                          !RequirementsSatisfied(entries[i].requirements, capability)
  {
    some, allOut := false, true;
    var n := 0;
    while n < |entries|
      invariant 0 <= n <= |entries|
      invariant some <==> exists i :: 0 <= i < n && BoundTo(entries[i], step)
      invariant allOut <==> forall i | 0 <= i < n && BoundTo(entries[i], step) ::
                              !RequirementsSatisfied(entries[i].requirements, capability)
    {
      if entries[n].step == Some(step.name) {
        some := true;
        if RequirementsSatisfied(entries[n].requirements, capability) {
          allOut := false;
        }
      }
      n := n + 1;
    }
  }

  /** A validation the capability allows keeps its step running, unless the step's
      own requirements exclude the capability. */
  lemma AllowedValidationKeepsStep(step: Step, entries: seq<ValidationEntry>, i: nat, capability: string)
    requires i < |entries| && BoundTo(entries[i], step)
    requires RequirementsSatisfied(entries[i].requirements, capability)
    ensures Gated(step, entries, Some(capability)) == step <==>
            step.skip || RequirementsSatisfied(step.requirements, capability)
  {
  }
}
