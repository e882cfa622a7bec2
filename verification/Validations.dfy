/** Validation entries and their outcomes, shared by the orchestrator and the pytest bridge. */
module Validations {
  import opened Json

  datatype ValidationEntry = ValidationEntry(
    name: string, category: string, step: Option<string>, phase: Option<string>, requirements: seq<string>)

  datatype State = Passed | Failed | Skipped | Error

  /** An entry ready to run, or already decided. */
  datatype ResolvedEntry = Ready(entry: ValidationEntry) | Terminal(entry: ValidationEntry, state: State)

  const DEFAULT_VALIDATION_PHASE := "test"

  predicate Given(s: Option<string>) {
    s.Some? && s.value != ""
  }

  /** Explicit phase, else the phase of the step, else the default. */
  function EntryPhase(entry: ValidationEntry, stepPhases: map<string, string>): string {
    if Given(entry.phase) then entry.phase.value
    else if Given(entry.step) && entry.step.value in stepPhases then stepPhases[entry.step.value]
    else DEFAULT_VALIDATION_PHASE
  }

  predicate Succeeded(state: State) {
    state.Passed? || state.Skipped?
  }

  /** The same entry, possibly reported under another name. */
  predicate SameButName(a: ValidationEntry, b: ValidationEntry) {
    a.(name := b.name) == b
  }
}
