/** The orchestrator's phase loop: which steps and validations run in which order,
    and what the run reports. Everything outside the orchestrator (commands,
    resolution, pytest) is an arbitrary oracle. */
module PhaseMachine {
  import opened Json
  import opened PytestBridge
  import opened StableOrder
  import opened StepExecutor
  import opened Text
  import opened Validations

  const SETUP := "setup"
  const TEARDOWN := "teardown"
  const ALL := "all"

  /** A configured run that has reached the phase loop. */
  datatype Plan = Plan(
    phases: seq<string>, steps: seq<Step>, entries: seq<ValidationEntry>,
    requested: set<string>, teardownOnFailure: bool)

  /** What the outside world answers in each pass of the loop: whether a step
      succeeds, what resolution decides for an entry (`None` is ready), what pytest
      captures and its exit code. */
  datatype World = World(
    stepOk: (nat, nat) -> bool,
    resolution: (nat, nat) -> Option<State>,
    captured: nat -> seq<RawResult>,
    exitCode: nat -> int)

  /** Calls to the outside, in order. Steps are numbered within their phase. */
  datatype Event = StepRun(pass: nat, step: nat, ok: bool) | PytestRun(pass: nat, entries: seq<nat>, exit: int)

  datatype SkipCause = PreviousPhaseFailed | SetupStepsDidNotRun | TeardownOnFailureDisabled | PlatformSkipped

  datatype PhaseKind = Setup | Test | Teardown

  datatype PhaseResult = PhaseResult(
    phase: PhaseKind, success: bool, skipped: Option<SkipCause>,
    records: seq<StepRecord>, validations: seq<ResolvedEntry>, exit: Option<int>)

  datatype RunState = RunState(
    success: bool, setupRan: bool, resolved: map<nat, ResolvedEntry>, results: seq<PhaseResult>, log: seq<Event>)

  // ---- One pass ----

  function KindOf(phase: string): PhaseKind {
    if phase == SETUP then Setup else if phase == TEARDOWN then Teardown else Test
  }

  function StepPhase(step: Step): string {
    Lower(if step.phase == "" then SETUP else step.phase)
  }

  /** Phases of the steps that are not skipped; a later step of a name wins. */
  function StepPhases(steps: seq<Step>): map<string, string> {
    if steps == [] then map[]
    else
      var rest, last := StepPhases(steps[..|steps| - 1]), steps[|steps| - 1];
      if last.skip then rest else rest[last.name := StepPhase(last)]
  }

  predicate Requested(plan: Plan, phase: string) {
    phase in plan.requested || ALL in plan.requested
  }

  function PhaseOf(plan: Plan, i: nat): string
    requires i < |plan.entries|
  {
    EntryPhase(plan.entries[i], StepPhases(plan.steps))
  }

  function InPhase(phase: string): Step -> bool {
    (s: Step) => StepPhase(s) == phase
  }

  function PhaseSteps(plan: Plan, phase: string): seq<Step> {
    Filter(plan.steps, InPhase(phase))
  }

  /** Why a requested phase does not run, if so. */
  function SkipCauseFor(plan: Plan, phase: string, success: bool, setupRan: bool): Option<SkipCause> {
    if phase == TEARDOWN then
      if Requested(plan, SETUP) && !setupRan then Some(SetupStepsDidNotRun)
      else if !success && !plan.teardownOnFailure then Some(TeardownOnFailureDisabled)
      else None
    else if !success then Some(PreviousPhaseFailed)
    else None
  }

  predicate InRange(plan: Plan, indexes: seq<nat>) {
    forall j | 0 <= j < |indexes| :: indexes[j] < |plan.entries|
  }

  predicate Increasing(indexes: seq<nat>) {
    forall j, k | 0 <= j < k < |indexes| :: indexes[j] < indexes[k]
  }

  /** The not yet resolved entries among the first `n` that belong to a phase. */
  function PhaseIndexes(plan: Plan, phase: string, done: set<nat>, n: nat): (r: seq<nat>)
    requires n <= |plan.entries|
    ensures InRange(plan, r)
  {
    if n == 0 then []
    else
      var rest := PhaseIndexes(plan, phase, done, n - 1);
      if n - 1 !in done && PhaseOf(plan, n - 1) == phase then rest + [n - 1] else rest
  }

  lemma {:induction false} PhaseIndexesIff(plan: Plan, phase: string, done: set<nat>, n: nat)
    requires n <= |plan.entries|
    ensures forall i: nat :: i in PhaseIndexes(plan, phase, done, n) <==>
                               i < n && i !in done && PhaseOf(plan, i) == phase
    ensures Increasing(PhaseIndexes(plan, phase, done, n))
  {
    if n > 0 {
      PhaseIndexesIff(plan, phase, done, n - 1);
      var rest := PhaseIndexes(plan, phase, done, n - 1);
      assert forall j | 0 <= j < |rest| :: rest[j] in rest;
    }
  }

  function ResolvedAt(plan: Plan, w: World, pass: nat, i: nat): ResolvedEntry
    requires i < |plan.entries|
  {
    match w.resolution(pass, i)
    case None => Ready(plan.entries[i])
    case Some(state) => Terminal(plan.entries[i], state)
  }

  function ReadyAt(w: World, pass: nat): nat -> bool {
    (i: nat) => w.resolution(pass, i).None?
  }

  function ReadyIndexes(w: World, pass: nat, indexes: seq<nat>): seq<nat> {
    Filter(indexes, ReadyAt(w, pass))
  }

  lemma {:induction false} ReadyInRange(plan: Plan, w: World, pass: nat, indexes: seq<nat>)
    requires InRange(plan, indexes)
    ensures InRange(plan, ReadyIndexes(w, pass, indexes))
  {
    if indexes != [] {
      ReadyInRange(plan, w, pass, indexes[..|indexes| - 1]);
    }
  }

  function EntriesAt(plan: Plan, indexes: seq<nat>): seq<ValidationEntry>
    requires InRange(plan, indexes)
  {
    seq(|indexes|, j requires 0 <= j < |indexes| => plan.entries[indexes[j]])
  }

  /** What the pytest bridge returns for its entries, given what was captured. */
  function Executed(ready: seq<ValidationEntry>, captured: seq<RawResult>): seq<ResolvedEntry> {
    seq(|ready|, i requires 0 <= i < |ready| =>
      Outcome(Renamed(ready, i), LastResult(captured, QualifiedName(ready, i))))
  }

  /** Executed entries back in the places of the ready ones. */
  function Weave(
      plan: Plan, w: World, pass: nat, indexes: seq<nat>, executed: seq<ResolvedEntry>): (r: seq<ResolvedEntry>)
    requires InRange(plan, indexes) && |executed| == |ReadyIndexes(w, pass, indexes)|
    ensures |r| == |indexes|
  {
    if indexes == [] then []
    else
      var last := |indexes| - 1;
      if ReadyAt(w, pass)(indexes[last])
      then Weave(plan, w, pass, indexes[..last], executed[..|executed| - 1]) + [executed[|executed| - 1]]
      else Weave(plan, w, pass, indexes[..last], executed) + [ResolvedAt(plan, w, pass, indexes[last])]
  }

  function Terminals(plan: Plan, w: World, pass: nat, indexes: seq<nat>): (r: seq<ResolvedEntry>)
    requires InRange(plan, indexes)
    ensures |r| == |indexes|
  {
    ReadyInRange(plan, w, pass, indexes);
    Weave(plan, w, pass, indexes, Executed(EntriesAt(plan, ReadyIndexes(w, pass, indexes)), w.captured(pass)))
  }

  function Record(
      resolved: map<nat, ResolvedEntry>, indexes: seq<nat>, terminals: seq<ResolvedEntry>): map<nat, ResolvedEntry>
    requires |indexes| == |terminals|
  {
    if indexes == [] then resolved
    else
      var last := |indexes| - 1;
      Record(resolved, indexes[..last], terminals[..last])[indexes[last] := terminals[last]]
  }

  predicate AllSucceeded(entries: seq<ResolvedEntry>) {
    forall j | 0 <= j < |entries| :: entries[j].Terminal? && Succeeded(entries[j].state)
  }

  /** OK, or no tests collected. */
  predicate SessionOk(exit: int) {
    exit == 0 || exit == 5
  }

  /** `_create_phase_result`. */
  function CreatePhaseResult(
      phase: string, records: seq<StepRecord>, validations: seq<ResolvedEntry>, exit: Option<int>): PhaseResult
  {
    PhaseResult(
      KindOf(phase), AllOk(records) && AllSucceeded(validations) && (exit.Some? ==> SessionOk(exit.value)),
      None, records, validations, exit)
  }

  function OkIn(w: World, pass: nat): nat -> bool {
    (j: nat) => w.stepOk(pass, j)
  }

  function PassRecords(plan: Plan, w: World, pass: nat, phase: string): seq<StepRecord> {
    Execute(PhaseSteps(plan, phase), OkIn(w, pass), phase == TEARDOWN)
  }

  function StepEvents(pass: nat, records: seq<StepRecord>): seq<Event> {
    if records == [] then []
    else
      var last := |records| - 1;
      StepEvents(pass, records[..last])
      + if records[last].attempted then [StepRun(pass, last, records[last].success)] else []
  }

  function ExitOf(w: World, pass: nat, ready: seq<nat>): Option<int> {
    if ready == [] then None else Some(w.exitCode(pass))
  }

  function PytestEvents(w: World, pass: nat, ready: seq<nat>): seq<Event> {
    if ready == [] then [] else [PytestRun(pass, ready, w.exitCode(pass))]
  }

  /** A pass whose phase runs. */
  function Work(plan: Plan, w: World, pass: nat, st: RunState): RunState
    requires pass < |plan.phases|
  {
    var phase := plan.phases[pass];
    var records := PassRecords(plan, w, pass, phase);
    var indexes := PhaseIndexes(plan, phase, st.resolved.Keys, |plan.entries|);
    var ready := ReadyIndexes(w, pass, indexes);
    var terminals := Terminals(plan, w, pass, indexes);
    var result := CreatePhaseResult(phase, records, terminals, ExitOf(w, pass, ready));
    var reported := PhaseSteps(plan, phase) != [] || terminals != [];
    RunState(
      st.success && (reported ==> result.success),
      st.setupRan || (phase == SETUP && Runnable(PhaseSteps(plan, phase))),
      Record(st.resolved, indexes, terminals),
      if reported then st.results + [result] else st.results,
      st.log + StepEvents(pass, records) + PytestEvents(w, pass, ready))
  }

  function Pass(plan: Plan, w: World, pass: nat, st: RunState): RunState
    requires pass < |plan.phases|
  {
    var phase := plan.phases[pass];
    if !Requested(plan, phase) then st
    else
      match SkipCauseFor(plan, phase, st.success, st.setupRan)
      case Some(cause) => st.(results := st.results + [PhaseResult(KindOf(phase), true, Some(cause), [], [], None)])
      case None => Work(plan, w, pass, st)
  }

  /** The state after the first `n` phases. */
  function After(plan: Plan, w: World, n: nat): RunState
    requires n <= |plan.phases|
  {
    if n == 0 then RunState(true, false, map[], [], []) else Pass(plan, w, n - 1, After(plan, w, n - 1))
  }

  /** Whether phase `pass` does its work. */
  predicate Works(plan: Plan, w: World, pass: nat)
    requires pass < |plan.phases|
  {
    var st := After(plan, w, pass);
    Requested(plan, plan.phases[pass]) && SkipCauseFor(plan, plan.phases[pass], st.success, st.setupRan).None?
  }

  // ---- Resolution ----

  /** The outcome belongs to entry `i`, and is one. */
  predicate OutcomeOf(plan: Plan, i: nat, r: ResolvedEntry) {
    i < |plan.entries| && r.Terminal? && SameButName(plan.entries[i], r.entry)
  }

  lemma {:induction false} WeaveOutcomes(
      plan: Plan, w: World, pass: nat, indexes: seq<nat>, executed: seq<ResolvedEntry>)
    requires InRange(plan, indexes) && |executed| == |ReadyIndexes(w, pass, indexes)|
    requires forall m | 0 <= m < |executed| :: OutcomeOf(plan, ReadyIndexes(w, pass, indexes)[m], executed[m])
    ensures forall j | 0 <= j < |indexes| :: OutcomeOf(plan, indexes[j], Weave(plan, w, pass, indexes, executed)[j])
    decreases |indexes|
  {
    if indexes != [] {
      var last := |indexes| - 1;
      var ready := ReadyIndexes(w, pass, indexes);
      if ReadyAt(w, pass)(indexes[last]) {
        assert ready == ReadyIndexes(w, pass, indexes[..last]) + [indexes[last]];
        WeaveOutcomes(plan, w, pass, indexes[..last], executed[..|executed| - 1]);
      } else {
        WeaveOutcomes(plan, w, pass, indexes[..last], executed);
      }
    }
  }

  /** How many of the first `j` entries are ready. */
  function ReadyBefore(w: World, pass: nat, indexes: seq<nat>, j: nat): nat
    requires j <= |indexes|
  {
    |ReadyIndexes(w, pass, indexes[..j])|
  }

  /** Each place holds the executed entry made for it, or the decision of resolution. */
  lemma {:induction false} WeaveAt(
      plan: Plan, w: World, pass: nat, indexes: seq<nat>, executed: seq<ResolvedEntry>, j: nat)
    requires InRange(plan, indexes) && |executed| == |ReadyIndexes(w, pass, indexes)| && j < |indexes|
    ensures var r, m := Weave(plan, w, pass, indexes, executed), ReadyBefore(w, pass, indexes, j);
            if ReadyAt(w, pass)(indexes[j])
            then m < |executed| && ReadyIndexes(w, pass, indexes)[m] == indexes[j] && r[j] == executed[m]
            else r[j] == ResolvedAt(plan, w, pass, indexes[j])
    decreases |indexes|
  {
    var last := |indexes| - 1;
    var ready := ReadyIndexes(w, pass, indexes);
    if ReadyAt(w, pass)(indexes[last]) {
      assert ready == ReadyIndexes(w, pass, indexes[..last]) + [indexes[last]];
      if j < last {
        assert indexes[..last][..j] == indexes[..j];
        WeaveAt(plan, w, pass, indexes[..last], executed[..|executed| - 1], j);
      }
    } else if j < last {
      assert indexes[..last][..j] == indexes[..j];
      WeaveAt(plan, w, pass, indexes[..last], executed, j);
    }
  }

  /** Each entry of a pass gets an outcome of its own, in order. */
  lemma TerminalsOutcomes(plan: Plan, w: World, pass: nat, indexes: seq<nat>)
    requires InRange(plan, indexes)
    ensures forall j | 0 <= j < |indexes| :: OutcomeOf(plan, indexes[j], Terminals(plan, w, pass, indexes)[j])
  {
    var ready := ReadyIndexes(w, pass, indexes);
    ReadyInRange(plan, w, pass, indexes);
    var executed := Executed(EntriesAt(plan, ready), w.captured(pass));
    forall m | 0 <= m < |executed| ensures OutcomeOf(plan, ready[m], executed[m]) {
      assert executed[m].entry == plan.entries[ready[m]].(name := executed[m].entry.name);
    }
    WeaveOutcomes(plan, w, pass, indexes, executed);
  }

  lemma {:induction false} RecordKeys(
      resolved: map<nat, ResolvedEntry>, indexes: seq<nat>, terminals: seq<ResolvedEntry>)
    requires |indexes| == |terminals|
    ensures forall i: nat :: i in Record(resolved, indexes, terminals) <==> i in resolved || i in indexes
    ensures forall i | i in resolved && i !in indexes :: Record(resolved, indexes, terminals)[i] == resolved[i]
    decreases |indexes|
  {
    if indexes != [] {
      var last := |indexes| - 1;
      RecordKeys(resolved, indexes[..last], terminals[..last]);
      assert indexes == indexes[..last] + [indexes[last]];
    }
  }

  lemma {:induction false} RecordAdds(
      resolved: map<nat, ResolvedEntry>, indexes: seq<nat>, terminals: seq<ResolvedEntry>, j: nat)
    requires |indexes| == |terminals| && Increasing(indexes) && j < |indexes|
    ensures indexes[j] in Record(resolved, indexes, terminals)
    ensures Record(resolved, indexes, terminals)[indexes[j]] == terminals[j]
    decreases |indexes|
  {
    var last := |indexes| - 1;
    if j < last {
      RecordAdds(resolved, indexes[..last], terminals[..last], j);
      assert indexes[j] < indexes[last];
    }
  }

  /** The entries that pass `pass` takes up, and those of them pytest gets. */
  function IndexesOf(plan: Plan, w: World, pass: nat): (r: seq<nat>)
    requires pass < |plan.phases|
    ensures InRange(plan, r)
  {
    PhaseIndexes(plan, plan.phases[pass], After(plan, w, pass).resolved.Keys, |plan.entries|)
  }

  lemma IndexesIff(plan: Plan, w: World, pass: nat)
    requires pass < |plan.phases|
    ensures forall i: nat :: i in IndexesOf(plan, w, pass) <==>
                               i < |plan.entries| && i !in After(plan, w, pass).resolved
                               && PhaseOf(plan, i) == plan.phases[pass]
    ensures Increasing(IndexesOf(plan, w, pass))
  {
    PhaseIndexesIff(plan, plan.phases[pass], After(plan, w, pass).resolved.Keys, |plan.entries|);
  }

  function ReadyOf(plan: Plan, w: World, pass: nat): seq<nat>
    requires pass < |plan.phases|
  {
    ReadyIndexes(w, pass, IndexesOf(plan, w, pass))
  }

  function RecordsOf(plan: Plan, w: World, pass: nat): seq<StepRecord>
    requires pass < |plan.phases|
  {
    PassRecords(plan, w, pass, plan.phases[pass])
  }

  /** The results pytest's entries of a pass come back with. */
  function ExecutedOf(plan: Plan, w: World, pass: nat): seq<ResolvedEntry>
    requires pass < |plan.phases|
  {
    ReadyInRange(plan, w, pass, IndexesOf(plan, w, pass));
    Executed(EntriesAt(plan, ReadyOf(plan, w, pass)), w.captured(pass))
  }

  /** What a pass does to the resolved entries. */
  lemma PassResolves(plan: Plan, w: World, pass: nat)
    requires pass < |plan.phases|
    ensures var before, after, indexes :=
              After(plan, w, pass).resolved, After(plan, w, pass + 1).resolved, IndexesOf(plan, w, pass);
            if Works(plan, w, pass)
            then after == Record(before, indexes, Terminals(plan, w, pass, indexes))
                 && (forall i: nat :: i in after <==> i in before || i in indexes)
                 && (forall j | 0 <= j < |indexes| ::
                       after[indexes[j]] == Terminals(plan, w, pass, indexes)[j]
                       && OutcomeOf(plan, indexes[j], after[indexes[j]]))
                 && (forall i | i in before :: i !in indexes && after[i] == before[i])
            else after == before
  {
    var before, indexes := After(plan, w, pass).resolved, IndexesOf(plan, w, pass);
    IndexesIff(plan, w, pass);
    TerminalsOutcomes(plan, w, pass, indexes);
    RecordKeys(before, indexes, Terminals(plan, w, pass, indexes));
    forall j | 0 <= j < |indexes|
      ensures indexes[j] in Record(before, indexes, Terminals(plan, w, pass, indexes))
      ensures Record(before, indexes, Terminals(plan, w, pass, indexes))[indexes[j]]
              == Terminals(plan, w, pass, indexes)[j]
    {
      RecordAdds(before, indexes, Terminals(plan, w, pass, indexes), j);
    }
  }

  predicate Tracked(plan: Plan, resolved: map<nat, ResolvedEntry>) {
    forall i | i in resolved :: OutcomeOf(plan, i, resolved[i])
  }

  lemma PassTracks(plan: Plan, w: World, pass: nat)
    requires pass < |plan.phases| && Tracked(plan, After(plan, w, pass).resolved)
    ensures Tracked(plan, After(plan, w, pass + 1).resolved)
  {
    PassResolves(plan, w, pass);
    var after, indexes := After(plan, w, pass + 1).resolved, IndexesOf(plan, w, pass);
    forall i | i in after ensures OutcomeOf(plan, i, after[i]) {
      if Works(plan, w, pass) && i in indexes {
        var j :| 0 <= j < |indexes| && indexes[j] == i;
      }
    }
  }

  lemma {:induction false} AfterTracked(plan: Plan, w: World, n: nat)
    requires n <= |plan.phases|
    ensures Tracked(plan, After(plan, w, n).resolved)
    decreases n
  {
    if n > 0 {
      AfterTracked(plan, w, n - 1);
      PassTracks(plan, w, n - 1);
    }
  }

  predicate ResolvedAs(plan: Plan, w: World, n: nat, i: nat, r: ResolvedEntry)
    requires n <= |plan.phases|
  {
    i in After(plan, w, n).resolved && After(plan, w, n).resolved[i] == r
  }

  lemma PassKeepsResolved(plan: Plan, w: World, pass: nat, i: nat, r: ResolvedEntry)
    requires pass < |plan.phases| && ResolvedAs(plan, w, pass, i, r)
    ensures ResolvedAs(plan, w, pass + 1, i, r)
  {
    PassResolves(plan, w, pass);
  }

  /** Once resolved, always resolved, and never again changed. */
  lemma {:induction false} ResolvedStays(plan: Plan, w: World, m: nat, n: nat, i: nat, r: ResolvedEntry)
    requires m <= n <= |plan.phases| && ResolvedAs(plan, w, m, i, r)
    ensures ResolvedAs(plan, w, n, i, r)
    decreases n
  {
    if m < n {
      ResolvedStays(plan, w, m, n - 1, i, r);
      PassKeepsResolved(plan, w, n - 1, i, r);
    }
  }

  lemma ResolvedLater(plan: Plan, w: World, m: nat, n: nat, i: nat)
    requires m <= n <= |plan.phases| && i in After(plan, w, m).resolved
    ensures i in After(plan, w, n).resolved
  {
    ResolvedStays(plan, w, m, n, i, After(plan, w, m).resolved[i]);
  }

  // ---- The log of outside calls ----

  function PassEvents(plan: Plan, w: World, pass: nat): seq<Event>
    requires pass < |plan.phases|
  {
    if Works(plan, w, pass)
    then StepEvents(pass, RecordsOf(plan, w, pass)) + PytestEvents(w, pass, ReadyOf(plan, w, pass))
    else []
  }

  lemma WorkLog(plan: Plan, w: World, pass: nat, st: RunState)
    requires pass < |plan.phases|
    ensures var phase := plan.phases[pass];
            var indexes := PhaseIndexes(plan, phase, st.resolved.Keys, |plan.entries|);
            Work(plan, w, pass, st).log
            == st.log + (StepEvents(pass, PassRecords(plan, w, pass, phase))
                         + PytestEvents(w, pass, ReadyIndexes(w, pass, indexes)))
  {
  }

  lemma LogGrows(plan: Plan, w: World, pass: nat)
    requires pass < |plan.phases|
    ensures After(plan, w, pass + 1).log == After(plan, w, pass).log + PassEvents(plan, w, pass)
  {
    if Works(plan, w, pass) {
      assert After(plan, w, pass + 1) == Work(plan, w, pass, After(plan, w, pass));
      WorkLog(plan, w, pass, After(plan, w, pass));
    }
  }

  lemma {:induction false} StepEventsIff(pass: nat, records: seq<StepRecord>, e: Event)
    ensures e in StepEvents(pass, records) <==>
            && e.StepRun? && e.pass == pass && e.step < |records|
            && records[e.step].attempted && e.ok == records[e.step].success
    decreases |records|
  {
    if records != [] {
      StepEventsIff(pass, records[..|records| - 1], e);
    }
  }

  /** When an outside call happens within the first `n` passes. */
  predicate Occurs(plan: Plan, w: World, n: nat, e: Event)
    requires n <= |plan.phases|
  {
    && e.pass < n && Works(plan, w, e.pass)
    && match e
       case StepRun(pass, step, ok) =>
         var records := RecordsOf(plan, w, pass);
         step < |records| && records[step].attempted && ok == records[step].success
       case PytestRun(pass, entries, exit) =>
         entries == ReadyOf(plan, w, pass) && entries != [] && exit == w.exitCode(pass)
  }

  lemma PassEventsIff(plan: Plan, w: World, pass: nat, e: Event)
    requires pass < |plan.phases|
    ensures e in PassEvents(plan, w, pass) <==> e.pass == pass && Occurs(plan, w, pass + 1, e)
  {
    StepEventsIff(pass, RecordsOf(plan, w, pass), e);
  }

  lemma LogIffNext(plan: Plan, w: World, pass: nat, e: Event)
    requires pass < |plan.phases|
    requires e in After(plan, w, pass).log <==> Occurs(plan, w, pass, e)
    ensures e in After(plan, w, pass + 1).log <==> Occurs(plan, w, pass + 1, e)
  {
    LogGrows(plan, w, pass);
    PassEventsIff(plan, w, pass, e);
  }

  lemma {:induction false} LogIff(plan: Plan, w: World, n: nat, e: Event)
    requires n <= |plan.phases|
    ensures e in After(plan, w, n).log <==> Occurs(plan, w, n, e)
    decreases n
  {
    if n > 0 {
      LogIff(plan, w, n - 1, e);
      LogIffNext(plan, w, n - 1, e);
    }
  }

  predicate InOrder(log: seq<Event>) {
    forall p, q | 0 <= p < q < |log| ::
      log[p].pass <= log[q].pass && (log[p].PytestRun? ==> log[p].pass < log[q].pass)
  }

  lemma {:induction false} StepEventsInOrder(pass: nat, records: seq<StepRecord>)
    ensures forall e | e in StepEvents(pass, records) :: e.StepRun? && e.pass == pass
    decreases |records|
  {
    if records != [] {
      StepEventsInOrder(pass, records[..|records| - 1]);
    }
  }

  lemma PassEventsInOrder(plan: Plan, w: World, pass: nat)
    requires pass < |plan.phases|
    ensures InOrder(PassEvents(plan, w, pass))
    ensures forall e | e in PassEvents(plan, w, pass) :: e.pass == pass
  {
    var steps := StepEvents(pass, RecordsOf(plan, w, pass));
    StepEventsInOrder(pass, RecordsOf(plan, w, pass));
    assert forall p | 0 <= p < |steps| :: steps[p] in steps;
  }

  lemma InOrderConcat(a: seq<Event>, b: seq<Event>, pass: nat)
    requires InOrder(a) && InOrder(b)
    requires forall e | e in a :: e.pass < pass
    requires forall e | e in b :: e.pass == pass
    ensures InOrder(a + b)
  {
  }

  lemma LogInOrderNext(plan: Plan, w: World, n: nat)
    requires 0 < n <= |plan.phases| && InOrder(After(plan, w, n - 1).log)
    ensures InOrder(After(plan, w, n).log)
  {
    var pass := n - 1;
    LogGrows(plan, w, pass);
    PassEventsInOrder(plan, w, pass);
    var log := After(plan, w, pass).log;
    forall e | e in log ensures e.pass < pass {
      LogIff(plan, w, pass, e);
    }
    InOrderConcat(log, PassEvents(plan, w, pass), pass);
  }

  /** Passes follow one another, and pytest comes last in its pass. */
  lemma {:induction false} LogInOrder(plan: Plan, w: World, n: nat)
    requires n <= |plan.phases|
    ensures InOrder(After(plan, w, n).log)
    decreases n
  {
    if n > 0 {
      LogInOrder(plan, w, n - 1);
      LogInOrderNext(plan, w, n);
    }
  }

  lemma {:induction false} FilterIncreasing(indexes: seq<nat>, keep: nat -> bool)
    requires Increasing(indexes)
    ensures Increasing(Filter(indexes, keep))
    decreases |indexes|
  {
    if indexes != [] {
      var last := |indexes| - 1;
      FilterIncreasing(indexes[..last], keep);
      FilterMembers(indexes[..last], keep);
      var front := Filter(indexes[..last], keep);
      forall j | 0 <= j < |front| ensures front[j] < indexes[last] {
        assert front[j] in front;
      }
    }
  }

  /** What pytest is given in a pass: entries of that phase not resolved before, each once. */
  lemma ReadyOfPass(plan: Plan, w: World, pass: nat)
    requires pass < |plan.phases|
    ensures Increasing(ReadyOf(plan, w, pass))
    ensures forall i | i in ReadyOf(plan, w, pass) ::
              && i < |plan.entries| && PhaseOf(plan, i) == plan.phases[pass]
              && i !in After(plan, w, pass).resolved
              && (Works(plan, w, pass) ==> i in After(plan, w, pass + 1).resolved)
  {
    IndexesIff(plan, w, pass);
    FilterMembers(IndexesOf(plan, w, pass), ReadyAt(w, pass));
    FilterIncreasing(IndexesOf(plan, w, pass), ReadyAt(w, pass));
    PassResolves(plan, w, pass);
  }

  lemma ResolvedIsNotReady(plan: Plan, w: World, pass: nat, i: nat)
    requires pass < |plan.phases| && i in After(plan, w, pass).resolved
    ensures i !in ReadyOf(plan, w, pass)
  {
    ReadyOfPass(plan, w, pass);
  }

  lemma NotReadyLater(plan: Plan, w: World, n: nat, pass: nat, i: nat)
    requires n <= pass < |plan.phases| && i in After(plan, w, n).resolved
    ensures i !in ReadyOf(plan, w, pass)
  {
    ResolvedLater(plan, w, n, pass, i);
    ResolvedIsNotReady(plan, w, pass, i);
  }

  lemma DifferentPasses(plan: Plan, w: World, j: nat, k: nat, i: nat)
    requires j < k < |plan.phases| && Works(plan, w, j) && i in ReadyOf(plan, w, j)
    ensures i !in ReadyOf(plan, w, k)
  {
    ReadyOfPass(plan, w, j);
    NotReadyLater(plan, w, j + 1, k, i);
  }

  /** Each validation goes to pytest at most once, only in its own phase, and only
      after the steps of that pass. */
  lemma PytestAtMostOnce(plan: Plan, w: World, p: nat, i: nat)
    requires var log := After(plan, w, |plan.phases|).log;
             p < |log| && log[p].PytestRun? && i in log[p].entries
    ensures var log := After(plan, w, |plan.phases|).log;
            && i < |plan.entries| && log[p].pass < |plan.phases|
            && PhaseOf(plan, i) == plan.phases[log[p].pass]
            && Increasing(log[p].entries)
            && (forall q | 0 <= q < |log| && q != p && log[q].PytestRun? :: i !in log[q].entries)
            && (forall q | 0 <= q < |log| && log[q].StepRun? && log[q].pass == log[p].pass :: q < p)
  {
    var n := |plan.phases|;
    var log := After(plan, w, n).log;
    LogInOrder(plan, w, n);
    LogIff(plan, w, n, log[p]);
    ReadyOfPass(plan, w, log[p].pass);
    forall q | 0 <= q < |log| && q != p && log[q].PytestRun? ensures i !in log[q].entries {
      LogIff(plan, w, n, log[q]);
      if q < p {
        if i in log[q].entries { DifferentPasses(plan, w, log[q].pass, log[p].pass, i); }
      } else {
        DifferentPasses(plan, w, log[p].pass, log[q].pass, i);
      }
    }
  }

  // ---- Success ----

  predicate EventOk(e: Event) {
    match e case StepRun(_, _, ok) => ok case PytestRun(_, _, exit) => exit == 0 || exit == 5
  }

  predicate LogOk(log: seq<Event>) {
    forall e | e in log :: EventOk(e)
  }

  predicate OutcomeOk(r: ResolvedEntry) {
    r.Terminal? && (r.state.Passed? || r.state.Skipped?)
  }

  predicate OutcomesOk(resolved: map<nat, ResolvedEntry>) {
    forall i | i in resolved :: OutcomeOk(resolved[i])
  }

  predicate ResultsOk(results: seq<PhaseResult>) {
    forall j | 0 <= j < |results| :: results[j].success
  }

  lemma RecordsOkIff(plan: Plan, w: World, pass: nat)
    requires pass < |plan.phases|
    ensures AllOk(RecordsOf(plan, w, pass)) <==> LogOk(StepEvents(pass, RecordsOf(plan, w, pass)))
  {
    var records := RecordsOf(plan, w, pass);
    var events := StepEvents(pass, records);
    if AllOk(records) {
      forall e | e in events ensures EventOk(e) {
        StepEventsIff(pass, records, e);
      }
    }
    if LogOk(events) {
      forall j | 0 <= j < |records| ensures records[j].success {
        RecordAt(PhaseSteps(plan, plan.phases[pass]), OkIn(w, pass), plan.phases[pass] == TEARDOWN, j);
        StepEventsIff(pass, records, StepRun(pass, j, records[j].success));
        assert records[j].attempted ==> EventOk(StepRun(pass, j, records[j].success));
      }
    }
  }

  lemma PytestOkIff(w: World, pass: nat, ready: seq<nat>)
    ensures var exit := ExitOf(w, pass, ready);
            LogOk(PytestEvents(w, pass, ready)) <==> (exit.Some? ==> SessionOk(exit.value))
  {
    if ready != [] {
      assert PytestRun(pass, ready, w.exitCode(pass)) in PytestEvents(w, pass, ready);
    }
  }

  lemma LogOkConcat(a: seq<Event>, b: seq<Event>)
    ensures LogOk(a + b) <==> LogOk(a) && LogOk(b)
  {
  }

  lemma OutcomesOkAfter(
      before: map<nat, ResolvedEntry>, after: map<nat, ResolvedEntry>, indexes: seq<nat>, terminals: seq<ResolvedEntry>)
    requires |indexes| == |terminals| && forall i: nat :: i in after <==> i in before || i in indexes
    requires forall j | 0 <= j < |indexes| :: after[indexes[j]] == terminals[j]
    requires forall i | i in before :: i !in indexes && after[i] == before[i]
    ensures OutcomesOk(after) <==> OutcomesOk(before) && AllSucceeded(terminals)
  {
    if OutcomesOk(after) {
      forall j | 0 <= j < |terminals| ensures OutcomeOk(terminals[j]) {
        assert OutcomeOk(after[indexes[j]]);
      }
    }
    if OutcomesOk(before) && AllSucceeded(terminals) {
      forall i | i in after ensures OutcomeOk(after[i]) {
        if i in indexes {
          var j :| 0 <= j < |indexes| && indexes[j] == i;
          assert after[i] == terminals[j];
        }
      }
    }
  }

  lemma PassOutcomesOk(plan: Plan, w: World, pass: nat)
    requires pass < |plan.phases| && Works(plan, w, pass)
    ensures var terminals := Terminals(plan, w, pass, IndexesOf(plan, w, pass));
            OutcomesOk(After(plan, w, pass + 1).resolved) <==>
            OutcomesOk(After(plan, w, pass).resolved) && AllSucceeded(terminals)
  {
    var indexes := IndexesOf(plan, w, pass);
    PassResolves(plan, w, pass);
    OutcomesOkAfter(After(plan, w, pass).resolved, After(plan, w, pass + 1).resolved,
                    indexes, Terminals(plan, w, pass, indexes));
  }

  /** A pass keeps the run successful exactly when its calls and its outcomes are fine. */
  lemma PassSuccess(plan: Plan, w: World, pass: nat)
    requires pass < |plan.phases| && Works(plan, w, pass)
    ensures var terminals := Terminals(plan, w, pass, IndexesOf(plan, w, pass));
            After(plan, w, pass + 1).success <==>
            After(plan, w, pass).success && LogOk(PassEvents(plan, w, pass)) && AllSucceeded(terminals)
    ensures ResultsOk(After(plan, w, pass + 1).results) <==>
            ResultsOk(After(plan, w, pass).results)
            && (After(plan, w, pass).success ==> After(plan, w, pass + 1).success)
            && (!After(plan, w, pass).success ==>
                  && LogOk(PassEvents(plan, w, pass))
                  && AllSucceeded(Terminals(plan, w, pass, IndexesOf(plan, w, pass))))
  {
    var st, records, ready := After(plan, w, pass), RecordsOf(plan, w, pass), ReadyOf(plan, w, pass);
    RecordsOkIff(plan, w, pass);
    PytestOkIff(w, pass, ready);
    LogOkConcat(StepEvents(pass, records), PytestEvents(w, pass, ready));
    var after := After(plan, w, pass + 1);
    if |after.results| > |st.results| {
      assert after.results == st.results + [after.results[|st.results|]];
      assert forall j | 0 <= j < |st.results| :: after.results[j] == st.results[j];
    }
  }

  predicate SuccessMeans(st: RunState) {
    && (st.success <==> LogOk(st.log) && OutcomesOk(st.resolved))
    && (st.success <==> ResultsOk(st.results))
  }

  lemma WorkingPassSuccess(plan: Plan, w: World, pass: nat)
    requires pass < |plan.phases| && Works(plan, w, pass) && SuccessMeans(After(plan, w, pass))
    ensures SuccessMeans(After(plan, w, pass + 1))
  {
    LogGrows(plan, w, pass);
    LogOkConcat(After(plan, w, pass).log, PassEvents(plan, w, pass));
    PassOutcomesOk(plan, w, pass);
    PassSuccess(plan, w, pass);
  }

  /** At every point the run is successful exactly when every attempted step has
      succeeded, every pytest session ended well, and every validation resolved so
      far passed or was skipped; equivalently, when every phase result is a success. */
  lemma {:induction false} SuccessIff(plan: Plan, w: World, n: nat)
    requires n <= |plan.phases|
    ensures SuccessMeans(After(plan, w, n))
    decreases n
  {
    if n > 0 {
      SuccessIff(plan, w, n - 1);
      if Works(plan, w, n - 1) {
        WorkingPassSuccess(plan, w, n - 1);
      } else {
        IdlePass(plan, w, n - 1);
      }
    }
  }

  lemma IdlePass(plan: Plan, w: World, pass: nat)
    requires pass < |plan.phases| && !Works(plan, w, pass)
    ensures After(plan, w, pass + 1).success == After(plan, w, pass).success
    ensures After(plan, w, pass + 1).setupRan == After(plan, w, pass).setupRan
    ensures After(plan, w, pass + 1).log == After(plan, w, pass).log
    ensures After(plan, w, pass + 1).resolved == After(plan, w, pass).resolved
    ensures ResultsOk(After(plan, w, pass + 1).results) <==> ResultsOk(After(plan, w, pass).results)
  {
    var before, after := After(plan, w, pass).results, After(plan, w, pass + 1).results;
    assert forall j | 0 <= j < |before| :: after[j] == before[j];
  }

  // ---- Failure and teardown ----

  /** No non-teardown phase makes a call once something has failed: whenever one
      does, every call of the earlier passes was fine, and so is every outcome they
      have left. */
  lemma NothingAfterFailure(plan: Plan, w: World, e: Event)
    requires var log := After(plan, w, |plan.phases|).log; e in log
    ensures e.pass < |plan.phases|
    ensures plan.phases[e.pass] != TEARDOWN ==>
              && (forall d | d in After(plan, w, |plan.phases|).log && d.pass < e.pass :: EventOk(d))
              && ResultsOk(After(plan, w, e.pass).results)
              && OutcomesOk(After(plan, w, e.pass).resolved)
  {
    LogIff(plan, w, |plan.phases|, e);
    if plan.phases[e.pass] != TEARDOWN {
      SuccessIff(plan, w, e.pass);
      forall d | d in After(plan, w, |plan.phases|).log && d.pass < e.pass ensures EventOk(d) {
        LogIff(plan, w, |plan.phases|, d);
        LogIff(plan, w, e.pass, d);
      }
    }
  }

  predicate DistinctPhases(plan: Plan) {
    forall j, k | 0 <= j < k < |plan.phases| :: plan.phases[j] != plan.phases[k]
  }

  /** Success is never regained. */
  lemma SuccessStep(plan: Plan, w: World, n: nat)
    requires 0 < n <= |plan.phases| && After(plan, w, n).success
    ensures After(plan, w, n - 1).success
  {
    if Works(plan, w, n - 1) {
      PassSuccess(plan, w, n - 1);
    } else {
      IdlePass(plan, w, n - 1);
    }
  }

  lemma {:induction false} SuccessBefore(plan: Plan, w: World, m: nat, n: nat)
    requires m <= n <= |plan.phases| && After(plan, w, n).success
    ensures After(plan, w, m).success
    decreases n
  {
    if m < n {
      SuccessStep(plan, w, n);
      SuccessBefore(plan, w, m, n - 1);
    }
  }

  predicate SetupWorked(plan: Plan, w: World, n: nat)
    requires n <= |plan.phases|
  {
    exists s :: 0 <= s < n && plan.phases[s] == SETUP && Works(plan, w, s)
  }

  lemma SetupStep(plan: Plan, w: World, n: nat)
    requires 0 < n <= |plan.phases|
    ensures After(plan, w, n).setupRan <==>
            || After(plan, w, n - 1).setupRan
            || (plan.phases[n - 1] == SETUP && Works(plan, w, n - 1) && Runnable(PhaseSteps(plan, SETUP)))
  {
    if !Works(plan, w, n - 1) {
      IdlePass(plan, w, n - 1);
    }
  }

  /** Setup counts as run after its first pass that works, if it has a step to run. */
  lemma {:induction false} SetupRanIff(plan: Plan, w: World, n: nat)
    requires n <= |plan.phases|
    ensures After(plan, w, n).setupRan <==> SetupWorked(plan, w, n) && Runnable(PhaseSteps(plan, SETUP))
    decreases n
  {
    if n > 0 {
      SetupRanIff(plan, w, n - 1);
      SetupStep(plan, w, n);
    }
  }

  /** Setup makes a step call exactly when it does its work and has a step to run. */
  lemma SetupAttempts(plan: Plan, w: World, s: nat)
    requires s < |plan.phases|
    ensures (exists e :: e in After(plan, w, |plan.phases|).log && e.StepRun? && e.pass == s) <==>
            Works(plan, w, s) && Runnable(PhaseSteps(plan, plan.phases[s]))
  {
    var n, steps := |plan.phases|, PhaseSteps(plan, plan.phases[s]);
    var records := RecordsOf(plan, w, s);
    AttemptedIff(steps, OkIn(w, s), plan.phases[s] == TEARDOWN);
    if Works(plan, w, s) && Runnable(steps) {
      var j :| 0 <= j < |records| && records[j].attempted;
      LogIff(plan, w, n, StepRun(s, j, records[j].success));
    }
    forall e | e in After(plan, w, n).log && e.StepRun? && e.pass == s
      ensures Works(plan, w, s) && Runnable(steps)
    {
      LogIff(plan, w, n, e);
    }
  }

  lemma OneSetup(plan: Plan, w: World, s: nat, t: nat)
    requires DistinctPhases(plan) && s < t <= |plan.phases| && plan.phases[s] == SETUP
    ensures SetupWorked(plan, w, t) <==> Works(plan, w, s)
  {
  }

  /** With setup before teardown, both requested, and teardown on failure: teardown
      works exactly after a setup that works and has a step to run. */
  lemma TeardownWorksIff(plan: Plan, w: World, s: nat, t: nat)
    requires DistinctPhases(plan) && s < t < |plan.phases|
    requires plan.phases[s] == SETUP && plan.phases[t] == TEARDOWN
    requires Requested(plan, SETUP) && Requested(plan, TEARDOWN) && plan.teardownOnFailure
    ensures Works(plan, w, t) <==> Works(plan, w, s) && Runnable(PhaseSteps(plan, SETUP))
  {
    OneSetup(plan, w, s, t);
    SetupRanIff(plan, w, t);
  }

  /** With setup before teardown, both requested, and teardown on failure: teardown
      makes calls only if some setup step was attempted, and then attempts every one
      of its steps that is not skipped, whatever fails. */
  lemma TeardownRule(plan: Plan, w: World, s: nat, t: nat)
    requires DistinctPhases(plan) && s < t < |plan.phases|
    requires plan.phases[s] == SETUP && plan.phases[t] == TEARDOWN
    requires Requested(plan, SETUP) && Requested(plan, TEARDOWN) && plan.teardownOnFailure
    ensures var log := After(plan, w, |plan.phases|).log;
            if exists e :: e in log && e.StepRun? && e.pass == s
            then forall j | 0 <= j < |PhaseSteps(plan, TEARDOWN)| ::
                   !PhaseSteps(plan, TEARDOWN)[j].skip ==> StepRun(t, j, w.stepOk(t, j)) in log
            else forall e | e in log :: e.pass != t
  {
    var n, steps := |plan.phases|, PhaseSteps(plan, TEARDOWN);
    var log := After(plan, w, n).log;
    SetupAttempts(plan, w, s);
    TeardownWorksIff(plan, w, s, t);
    if exists e :: e in log && e.StepRun? && e.pass == s {
      BestEffortReachesAll(steps, OkIn(w, t));
      forall j | 0 <= j < |steps| && !steps[j].skip ensures StepRun(t, j, w.stepOk(t, j)) in log {
        RecordAt(steps, OkIn(w, t), true, j);
        LogIff(plan, w, n, StepRun(t, j, w.stepOk(t, j)));
      }
    } else {
      forall e | e in log ensures e.pass != t {
        LogIff(plan, w, n, e);
      }
    }
  }
}
