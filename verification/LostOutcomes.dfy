/** Runs in which a phase named like a stub file makes an outcome disappear from the
    merged report. */
module LostOutcomes {
  import opened JUnit
  import opened Json
  import opened PhaseMachine
  import opened PhaseReports
  import opened PytestBridge
  import opened RunResult
  import opened StableOrder
  import opened StepExecutor
  import opened Text
  import opened Validations

  // ---- Phases named like stubs ----

  /** Some `p` comes with no `q` before it. */
  predicate ComesWithout(phases: seq<string>, p: string, q: string) {
    exists a :: 0 <= a < |phases| && phases[a] == p && q !in phases[..a]
  }

  /** Some `p` comes with a `q` before it. */
  predicate ComesAfter(phases: seq<string>, p: string, q: string) {
    exists t :: 0 <= t < |phases| && phases[t] == p && q in phases[..t]
  }

  /** One run can write both the stub of this kind for phase `q` and pytest's file of
      the phase named like that stub. */
  predicate Clash(phases: seq<string>, q: string, kind: FileKind) {
    && q != "" && kind != Plain && q + Suffix(kind) in phases
    && if kind == Unexecuted then q == TEARDOWN || ComesWithout(phases, q + Suffix(kind), q)
       else q in phases && (q == TEARDOWN ==> ComesAfter(phases, TEARDOWN, SETUP))
  }

  /** Steps can belong to the phase. */
  predicate HoldsSteps(phase: string) {
    phase != "" && Lower(phase) == phase
  }

  // ---- What the report is made of ----

  predicate NamedIn(js: JunitState, name: string) {
    exists path :: path in js.dir && FileNames(js.dir[path], name)
  }

  lemma {:induction false} FromSum(bags: seq<multiset<Case>>, c: Case) returns (i: nat)
    requires c in Sum(bags)
    ensures i < |bags| && c in bags[i]
    decreases |bags|
  {
    var last := |bags| - 1;
    if c in bags[last] {
      i := last;
    } else {
      i := FromSum(bags[..last], c);
    }
  }

  lemma {:induction false} FromFile(files: seq<Option<XmlFile>>, s: nat) returns (f: nat, k: nat)
    requires s < |AllSuites(files)|
    ensures f < |files| && k < |SuitesOf(files[f])| && SuitesOf(files[f])[k] == AllSuites(files)[s]
    decreases |files|
  {
    var last := |files| - 1;
    var before := AllSuites(files[..last]);
    if s < |before| {
      f, k := FromFile(files[..last], s);
    } else {
      f, k := last, s - |before|;
    }
  }

  /** Every testcase of the report comes from a file. */
  lemma ReportedIsNamed(plan: Plan, js: JunitState, c: Case)
    requires c in AllCases(MergedReport(plan, js))
    ensures NamedIn(js, c.name)
  {
    var files := Contents(js);
    ReportIsComplete(files, NameOrder(plan));
    var s := FromSum(Bags(AllSuites(files)), c);
    var f, k := FromFile(files, s);
    var cases := Cases(SuitesOf(files[f])[k].children);
    assert c in CaseBag(SuitesOf(files[f])[k].children);
    var n :| 0 <= n < |cases| && cases[n] == c;
    assert files[f].Some? && js.files[f] in js.dir && js.dir[js.files[f]] == files[f].value;
    assert SuiteNames(SuitesOf(files[f])[k], c.name);
    assert FileNames(js.dir[js.files[f]], c.name);
  }

  predicate Lost(plan: Plan, w: World, x: Written, platform: string, i: nat)
    requires i < |plan.entries|
  {
    && |Finish(plan, w).validations| == |plan.entries|
    && forall c | c in AllCases(MergedReport(plan, FinalFiles(plan, w, x, platform))) ::
         c.name != Finish(plan, w).validations[i].entry.name
  }

  lemma NotNamedIsLost(plan: Plan, w: World, x: Written, platform: string, i: nat, name: string)
    requires i < |plan.entries| && !NamedIn(FinalFiles(plan, w, x, platform), name)
    requires |Finish(plan, w).validations| == |plan.entries| && Finish(plan, w).validations[i].entry.name == name
    ensures Lost(plan, w, x, platform, i)
  {
    forall c | c in AllCases(MergedReport(plan, FinalFiles(plan, w, x, platform))) ensures c.name != name {
      ReportedIsNamed(plan, FinalFiles(plan, w, x, platform), c);
    }
  }

  lemma OneCaseFile(suite: Suite, c: Case, name: string)
    requires suite.children == [CaseChild(c)]
    ensures FileNames(Testsuite(suite), name) <==> c.name == name
    ensures FileNames(Testsuites([suite]), name) <==> c.name == name
  {
    assert [CaseChild(c)][..0] == [];
    assert Cases(suite.children) == [c];
    assert SuiteNames(suite, name) <==> c.name == name by {
      assert Cases(suite.children)[0] == c;
    }
    assert SuitesOf(Some(Testsuite(suite)))[0] == suite && SuitesOf(Some(Testsuites([suite])))[0] == suite;
  }

  lemma StubNamesOne(r: ResolvedEntry, suiteName: string, name: string)
    ensures FileNames(Stub([r], suiteName), name) <==> r.entry.name == name
  {
    var file := Stub([r], suiteName);
    assert file.suite.children == [CaseChild(Case(0, r.entry.name))];
    OneCaseFile(file.suite, Case(0, r.entry.name), name);
  }

  // ---- Passes with one entry ----

  lemma FilterOne(i: nat, keep: nat -> bool)
    ensures Filter([i], keep) == if keep(i) then [i] else []
  {
    assert [i][..0] == [];
  }

  lemma SoleName(e: ValidationEntry)
    ensures QualifiedName([e], 0) == e.name
  {
    assert [e][..0] == [];
    assert NameCount([e], e.name) == 1;
  }

  lemma SoleReady(plan: Plan, w: World, pass: nat, i: nat)
    requires pass < |plan.phases| && i < |plan.entries| && IndexesOf(plan, w, pass) == [i]
    requires w.resolution(pass, i).None?
    ensures ReadyOf(plan, w, pass) == [i]
    ensures |ExecutedOf(plan, w, pass)| == 1 && ExecutedOf(plan, w, pass)[0].entry == plan.entries[i]
  {
    FilterOne(i, ReadyAt(w, pass));
    SoleExecuted(plan, [i], i, w.captured(pass));
  }

  lemma SoleExecuted(plan: Plan, indexes: seq<nat>, i: nat, captured: seq<RawResult>)
    requires i < |plan.entries| && indexes == [i]
    ensures |Executed(EntriesAt(plan, indexes), captured)| == 1
    ensures Executed(EntriesAt(plan, indexes), captured)[0].entry == plan.entries[i]
  {
    assert EntriesAt(plan, [i]) == [plan.entries[i]];
    SoleName(plan.entries[i]);
  }

  lemma SoleUndecided(plan: Plan, w: World, pass: nat, i: nat)
    requires i < |plan.entries| && w.resolution(pass, i).None?
    ensures PreResolved(plan, w, pass, [i]) == []
  {
    FilterOne(i, NotReadyAt(w, pass));
    FilterInRange(plan, [i], NotReadyAt(w, pass));
  }

  lemma SoleNotReady(plan: Plan, w: World, pass: nat, i: nat)
    requires pass < |plan.phases| && i < |plan.entries| && IndexesOf(plan, w, pass) == [i]
    requires w.resolution(pass, i).Some?
    ensures ReadyOf(plan, w, pass) == [] && ExecutedOf(plan, w, pass) == []
  {
    FilterOne(i, ReadyAt(w, pass));
  }

  lemma SoleDecided(plan: Plan, w: World, pass: nat, i: nat)
    requires i < |plan.entries| && w.resolution(pass, i).Some?
    ensures PreResolved(plan, w, pass, [i]) == [Terminal(plan.entries[i], w.resolution(pass, i).value)]
  {
    FilterOne(i, NotReadyAt(w, pass));
    FilterInRange(plan, [i], NotReadyAt(w, pass));
  }

  /** The reported name of an entry that is alone in its pass is its own. */
  lemma SoleReported(plan: Plan, w: World, pass: nat, i: nat)
    requires pass < |plan.phases| && i < |plan.entries| && Works(plan, w, pass) && IndexesOf(plan, w, pass) == [i]
    ensures |Finish(plan, w).validations| == |plan.entries|
    ensures Finish(plan, w).validations[i].entry.name == plan.entries[i].name
  {
    if w.resolution(pass, i).None? {
      SoleReady(plan, w, pass, i);
    }
    OutcomeIsOwn(plan, w, pass, 0);
  }

  lemma DecidedFiles(plan: Plan, w: World, x: Written, platform: string, pass: nat, i: nat, js: JunitState)
    requires pass < |plan.phases| && i < |plan.entries| && IndexesOf(plan, w, pass) == [i]
    requires w.resolution(pass, i).Some?
    ensures PassFiles(plan, w, x, platform, pass, js).dir
            == js.dir[PathOf(plan.phases[pass], Resolved) :=
                 Stub([Terminal(plan.entries[i], w.resolution(pass, i).value)], SuiteName(platform, plan.phases[pass]))]
  {
    SoleNotReady(plan, w, pass, i);
    SoleDecided(plan, w, pass, i);
    NothingMissing(FileAt(PytestFiles(plan, w, x, platform, pass, js).dir, PathOf(plan.phases[pass], Plain)));
  }

  lemma NothingMissing(file: Option<XmlFile>)
    ensures Missing([], file) == []
  {
  }

  lemma DeselectedFiles(plan: Plan, w: World, x: Written, platform: string, pass: nat, i: nat, js: JunitState)
    requires pass < |plan.phases| && i < |plan.entries| && IndexesOf(plan, w, pass) == [i]
    requires w.resolution(pass, i).None? && x(pass).None? && PathOf(plan.phases[pass], Plain) !in js.dir
    ensures ExecutedOf(plan, w, pass) != []
    ensures PassFiles(plan, w, x, platform, pass, js).dir
            == js.dir[PathOf(plan.phases[pass], Deselected) :=
                 Stub([ExecutedOf(plan, w, pass)[0]], SuiteName(platform, plan.phases[pass]))]
  {
    SoleReady(plan, w, pass, i);
    SoleUndecided(plan, w, pass, i);
    var executed := ExecutedOf(plan, w, pass);
    assert executed == [executed[0]];
    assert PytestFiles(plan, w, x, platform, pass, js) == js;
    assert Missing(executed, FileAt(js.dir, PathOf(plan.phases[pass], Plain))) == executed;
  }

  lemma CapturedFiles(plan: Plan, w: World, x: Written, platform: string, pass: nat, i: nat, js: JunitState)
    requires pass < |plan.phases| && i < |plan.entries| && IndexesOf(plan, w, pass) == [i]
    requires w.resolution(pass, i).None? && x(pass).Some? && !x(pass).value.Unparseable?
    requires plan.entries[i].name != "" && FileNames(x(pass).value, plan.entries[i].name)
    ensures var path := PathOf(plan.phases[pass], Plain);
            PassFiles(plan, w, x, platform, pass, js) == JunitState(js.dir[path := x(pass).value], js.files + [path])
  {
    SoleReady(plan, w, pass, i);
    SoleUndecided(plan, w, pass, i);
    var path, file := PathOf(plan.phases[pass], Plain), x(pass).value;
    var js1 := PytestFiles(plan, w, x, platform, pass, js);
    assert js1 == JunitState(js.dir[path := file], js.files + [path]);
    NoneMissing(ExecutedOf(plan, w, pass), file);
    assert FileAt(js1.dir, path) == Some(file);
  }

  lemma NoneMissing(executed: seq<ResolvedEntry>, file: XmlFile)
    requires |executed| == 1 && !file.Unparseable?
    requires executed[0].entry.name != "" && FileNames(file, executed[0].entry.name)
    ensures Missing(executed, Some(file)) == []
  {
    var missed := (r: ResolvedEntry) => r.entry.name == "" || !FileNames(file, r.entry.name);
    assert executed[..0] == [] && !missed(executed[0]);
    assert Filter(executed, missed) == [];
    assert Missing(executed, Some(file)) == Filter(executed, missed);
  }

  predicate Idle(plan: Plan, w: World, pass: nat)
    requires pass < |plan.phases|
  {
    Works(plan, w, pass) ==> IndexesOf(plan, w, pass) == []
  }

  lemma DirStaysOnce(plan: Plan, w: World, x: Written, platform: string, pass: nat)
    requires pass < |plan.phases| && Idle(plan, w, pass)
    ensures FilesAfter(plan, w, x, platform, pass + 1).dir == FilesAfter(plan, w, x, platform, pass).dir
  {
    if Works(plan, w, pass) {
      IdleFiles(plan, w, x, platform, pass, FilesAfter(plan, w, x, platform, pass));
    }
  }

  // ---- A lost outcome ----

  const FIRST := "a"
  const SECOND := "b"

  /** Phase `phase` and its stub, the configured phases, and one of them for a step. */
  datatype Loss = Loss(phases: seq<string>, phase: string, kind: FileKind, own: string)

  function Named(l: Loss): string {
    l.phase + Suffix(l.kind)
  }

  /** Teardown works only after a setup step. */
  predicate NeedsSetup(l: Loss) {
    l.kind != Unexecuted && l.phase == TEARDOWN
  }

  predicate LossOk(l: Loss) {
    && Clash(l.phases, l.phase, l.kind)
    && l.own in l.phases && HoldsSteps(l.own) && (NeedsSetup(l) ==> l.own == SETUP)
  }

  /** One step, skipped unless it is needed; one validation in the phase with the stub
      and one in the phase named like it; everything is requested. */
  function LossPlan(l: Loss): Plan {
    Plan(
      l.phases, [Step("step", l.own, !NeedsSetup(l), [], false)],
      [ValidationEntry(FIRST, "", None, Some(l.phase), []), ValidationEntry(SECOND, "", None, Some(Named(l)), [])],
      {ALL}, true)
  }

  predicate IsNamed(l: Loss, pass: nat) {
    pass < |l.phases| && l.phases[pass] == Named(l)
  }

  /** The second validation is run by pytest, in a session that fails if the first is
      to be left over; the first is skipped by resolution if its stub is to say so. */
  function LossWorld(l: Loss): World {
    World(
      (pass, step) => true,
      (pass, i) => if i == 0 && l.kind == Resolved then Some(Skipped) else None,
      (pass: nat) =>
        if IsNamed(l, pass) then [RawResult(SECOND, RawOutcome(false, l.kind != Unexecuted, false))] else [],
      (pass: nat) => if IsNamed(l, pass) && l.kind == Unexecuted then 1 else 0)
  }

  function SecondFile(): XmlFile {
    Testsuites([Suite("", Counters(1, 0, 0, 0), [CaseChild(Case(0, SECOND))])])
  }

  /** Pytest writes a file for the second validation only. */
  function LossFiles(l: Loss): Written {
    (pass: nat) => if IsNamed(l, pass) then Some(SecondFile()) else None
  }

  lemma SecondFileNames(name: string)
    ensures FileNames(SecondFile(), name) <==> name == SECOND
  {
    OneCaseFile(SecondFile().suites[0], Case(0, SECOND), name);
  }

  predicate IsFirst(phases: seq<string>, k: nat, phase: string) {
    k < |phases| && phases[k] == phase && forall j | 0 <= j < k :: phases[j] != phase
  }

  lemma {:induction false} FirstIndex(phases: seq<string>, p: string) returns (a: nat)
    requires p in phases
    ensures IsFirst(phases, a, p)
  {
    if phases[0] == p {
      a := 0;
    } else {
      assert p in phases[1..];
      a := FirstIndex(phases[1..], p);
      a := a + 1;
      assert forall k | 0 < k < a :: phases[k] == phases[1..][k - 1];
    }
  }

  lemma FirstTwo(r: seq<nat>)
    requires Increasing(r)
    ensures |r| >= 2 ==> r[0] < r[1]
  {
  }

  lemma OnlyIndex(r: seq<nat>, i: nat)
    requires Increasing(r) && forall k: nat :: k in r <==> k == i
    ensures r == [i]
  {
    assert i in r;
    FirstTwo(r);
    forall j | 0 <= j < |r| ensures r[j] == i {
      assert r[j] in r;
    }
  }

  /** Before a working pass of its phase an entry is unresolved. */
  lemma UnresolvedBefore(plan: Plan, w: World, a: nat, i: nat)
    requires a <= |plan.phases| && i < |plan.entries|
    requires forall k {:trigger Works(plan, w, k)} | 0 <= k < a && plan.phases[k] == PhaseOf(plan, i) ::
               !Works(plan, w, k)
    ensures i !in After(plan, w, a).resolved
  {
    if HasOutcome(plan, w, a, i) {
      var pass := FirstOutcome(plan, w, a, i);
      PassTakesOwn(plan, w, pass, i);
      assert false;
    }
  }

  /** A name with a stub's suffix is none of the special ones. */
  lemma LastCharacter(q: string, kind: FileKind)
    requires kind != Plain
    ensures q + Suffix(kind) != SETUP && q + Suffix(kind) != TEARDOWN
    ensures q + Suffix(kind) != ALL && q + Suffix(kind) != DEFAULT_VALIDATION_PHASE
  {
    var p := q + Suffix(kind);
    assert Suffix(kind)[|Suffix(kind)| - 1] == 'd';
    assert p[|p| - 1] == 'd';
    assert SETUP[|SETUP| - 1] == 'p' && TEARDOWN[|TEARDOWN| - 1] == 'n' && ALL[|ALL| - 1] == 'l';
    assert DEFAULT_VALIDATION_PHASE[|DEFAULT_VALIDATION_PHASE| - 1] == 't';
  }

  lemma LossPhases(l: Loss)
    requires LossOk(l)
    ensures PhaseOf(LossPlan(l), 0) == l.phase && PhaseOf(LossPlan(l), 1) == Named(l) && l.phase != Named(l)
    ensures Named(l) != TEARDOWN && Named(l) != SETUP
  {
    SuffixTell(l.kind);
    LastCharacter(l.phase, l.kind);
  }

  lemma LossUses(l: Loss, phase: string)
    requires LossOk(l)
    ensures Used(LossPlan(l), phase) <==> phase == l.phase || phase == Named(l)
  {
    var plan := LossPlan(l);
    LossPhases(l);
    assert phase == l.phase ==> PhaseOf(plan, 0) == phase;
    assert phase == Named(l) ==> PhaseOf(plan, 1) == phase;
  }

  // ---- Which passes work ----

  /** Steps succeed, and resolution decides for skipping or leaves entries ready. */
  ghost predicate Calm(plan: Plan, w: World) {
    && (forall pass: nat, step: nat :: w.stepOk(pass, step))
    && (forall pass: nat, i: nat :: w.resolution(pass, i) == None || w.resolution(pass, i) == Some(Skipped))
  }

  /** Pytest ends well in the pass. */
  ghost predicate Fine(w: World, pass: nat) {
    && w.exitCode(pass) == 0
    && forall k | 0 <= k < |w.captured(pass)| :: w.captured(pass)[k].outcome.passed
  }

  lemma {:induction false} LastIsFine(results: seq<RawResult>, name: string)
    requires forall k | 0 <= k < |results| :: results[k].outcome.passed
    ensures LastResult(results, name).None? || LastResult(results, name).value.passed
  {
    if results != [] {
      LastIsFine(results[..|results| - 1], name);
    }
  }

  lemma CalmTerminals(plan: Plan, w: World, pass: nat)
    requires Calm(plan, w) && Fine(w, pass) && pass < |plan.phases|
    ensures AllSucceeded(Terminals(plan, w, pass, IndexesOf(plan, w, pass)))
  {
    var indexes, executed := IndexesOf(plan, w, pass), ExecutedOf(plan, w, pass);
    forall m | 0 <= m < |executed| ensures OutcomeOk(executed[m]) {
      LastIsFine(w.captured(pass), executed[m].entry.name);
    }
    forall j | 0 <= j < |indexes| ensures OutcomeOk(Terminals(plan, w, pass, indexes)[j]) {
      WeaveAt(plan, w, pass, indexes, executed, j);
    }
  }

  lemma CalmEvents(plan: Plan, w: World, pass: nat)
    requires Calm(plan, w) && Fine(w, pass) && pass < |plan.phases|
    ensures LogOk(PassEvents(plan, w, pass))
  {
    forall e | e in PassEvents(plan, w, pass) ensures EventOk(e) {
      PassEventsIff(plan, w, pass, e);
      if e.StepRun? {
        RecordAt(PhaseSteps(plan, plan.phases[pass]), OkIn(w, pass), plan.phases[pass] == TEARDOWN, e.step);
      }
    }
  }

  lemma CalmPass(plan: Plan, w: World, pass: nat)
    requires Calm(plan, w) && Fine(w, pass) && pass < |plan.phases| && After(plan, w, pass).success
    ensures After(plan, w, pass + 1).success
  {
    if Works(plan, w, pass) {
      CalmTerminals(plan, w, pass);
      CalmEvents(plan, w, pass);
      PassSuccess(plan, w, pass);
    } else {
      IdlePass(plan, w, pass);
    }
  }

  lemma {:induction false} CalmSucceeds(plan: Plan, w: World, n: nat)
    requires Calm(plan, w) && n <= |plan.phases| && forall k | 0 <= k < n :: Fine(w, k)
    ensures After(plan, w, n).success
    decreases n
  {
    if n > 0 {
      CalmSucceeds(plan, w, n - 1);
      CalmPass(plan, w, n - 1);
    }
  }

  lemma LossSucceeds(l: Loss, n: nat)
    requires LossOk(l) && n <= |l.phases| && (l.kind == Unexecuted ==> Named(l) !in l.phases[..n])
    ensures After(LossPlan(l), LossWorld(l), n).success
  {
    forall k | 0 <= k < n ensures Fine(LossWorld(l), k) {
      assert l.phases[k] == l.phases[..n][k];
    }
    CalmSucceeds(LossPlan(l), LossWorld(l), n);
  }

  lemma LossSetupSteps(l: Loss)
    requires LossOk(l)
    ensures Runnable(PhaseSteps(LossPlan(l), SETUP)) <==> NeedsSetup(l)
  {
    var steps := LossPlan(l).steps;
    assert steps[..0] == [] && steps == [steps[0]];
    assert StepPhase(steps[0]) == l.own;
    assert Filter([steps[0]], InPhase(SETUP)) == if l.own == SETUP then [steps[0]] else [];
    if NeedsSetup(l) {
      assert !steps[0].skip;
    }
  }

  lemma LossWorks(l: Loss, k: nat)
    requires LossOk(l) && k < |l.phases| && After(LossPlan(l), LossWorld(l), k).success
    requires l.phases[k] == TEARDOWN ==> After(LossPlan(l), LossWorld(l), k).setupRan
    ensures Works(LossPlan(l), LossWorld(l), k)
  {
  }

  /** Teardown works exactly when it is to. */
  lemma TeardownWorks(l: Loss, t: nat)
    requires LossOk(l) && t < |l.phases| && l.phases[t] == TEARDOWN
    ensures Works(LossPlan(l), LossWorld(l), t) ==> NeedsSetup(l)
    ensures NeedsSetup(l) && SETUP in l.phases[..t] ==> Works(LossPlan(l), LossWorld(l), t)
  {
    var plan, w := LossPlan(l), LossWorld(l);
    LossSetupSteps(l);
    SetupRanIff(plan, w, t);
    if NeedsSetup(l) && SETUP in l.phases[..t] {
      var s :| 0 <= s < t && l.phases[..t][s] == SETUP;
      LossSucceeds(l, s);
      LossWorks(l, s);
      assert SetupWorked(plan, w, t);
      LossSucceeds(l, t);
      LossWorks(l, t);
    }
  }

  /** The first pass of the phase that works. */
  predicate FirstToWork(plan: Plan, w: World, b: nat, phase: string) {
    && b < |plan.phases| && plan.phases[b] == phase && Works(plan, w, b)
    && forall k {:trigger Works(plan, w, k)} | 0 <= k < b && plan.phases[k] == phase :: !Works(plan, w, k)
  }

  lemma {:induction false} Earliest(plan: Plan, w: World, t: nat) returns (b: nat)
    requires t < |plan.phases| && Works(plan, w, t)
    ensures FirstToWork(plan, w, b, plan.phases[t])
  {
    if k :| 0 <= k < t && plan.phases[k] == plan.phases[t] && Works(plan, w, k) {
      b := Earliest(plan, w, k);
    } else {
      b := t;
    }
  }

  /** Where the two validations are taken up, when none is to be left over. */
  lemma LossPasses(l: Loss) returns (a: nat, b: nat)
    requires LossOk(l) && l.kind != Unexecuted
    ensures FirstToWork(LossPlan(l), LossWorld(l), a, Named(l))
    ensures FirstToWork(LossPlan(l), LossWorld(l), b, l.phase)
  {
    LossPhases(l);
    var p :| 0 <= p < |l.phases| && l.phases[p] == Named(l);
    LossSucceeds(l, p);
    LossWorks(l, p);
    a := Earliest(LossPlan(l), LossWorld(l), p);
    if l.phase == TEARDOWN {
      var t :| 0 <= t < |l.phases| && l.phases[t] == TEARDOWN && SETUP in l.phases[..t];
      TeardownWorks(l, t);
      b := Earliest(LossPlan(l), LossWorld(l), t);
    } else {
      var q :| 0 <= q < |l.phases| && l.phases[q] == l.phase;
      LossSucceeds(l, q);
      LossWorks(l, q);
      b := Earliest(LossPlan(l), LossWorld(l), q);
    }
  }

  /** The sole entry of a phase is what its first working pass takes up. */
  lemma FirstPassTakes(plan: Plan, w: World, a: nat, i: nat, other: nat)
    requires a < |plan.phases| && |plan.entries| == 2 && {i, other} == {0, 1}
    requires PhaseOf(plan, i) == plan.phases[a] != PhaseOf(plan, other)
    requires FirstToWork(plan, w, a, plan.phases[a])
    ensures IndexesOf(plan, w, a) == [i]
  {
    UnresolvedBefore(plan, w, a, i);
    IndexesIff(plan, w, a);
    OnlyIndex(IndexesOf(plan, w, a), i);
  }

  lemma NoPassElse(plan: Plan, w: World, pass: nat)
    requires pass < |plan.phases| && !Used(plan, plan.phases[pass])
    ensures IndexesOf(plan, w, pass) == []
  {
    if IndexesOf(plan, w, pass) != [] {
      PassUses(plan, w, pass);
    }
  }

  /** A pass of a phase is idle unless it is the first that works. */
  lemma OtherPassIdle(plan: Plan, w: World, b: nat, k: nat)
    requires b < |plan.phases| && FirstToWork(plan, w, b, plan.phases[b])
    requires k < |plan.phases| && k != b && plan.phases[k] == plan.phases[b]
    ensures Idle(plan, w, k)
  {
    if k > b {
      RepeatedPhaseIsIdle(plan, w, b, k);
    }
  }

  /** The run behind a lost outcome: which passes take up what, and that the others are idle. */
  lemma LossRun(l: Loss, a: nat, b: nat)
    requires LossOk(l)
    requires FirstToWork(LossPlan(l), LossWorld(l), a, Named(l)) && FirstToWork(LossPlan(l), LossWorld(l), b, l.phase)
    ensures IndexesOf(LossPlan(l), LossWorld(l), a) == [1] && IndexesOf(LossPlan(l), LossWorld(l), b) == [0]
    ensures forall k {:trigger Idle(LossPlan(l), LossWorld(l), k)} | 0 <= k < |l.phases| && k != a && k != b ::
              Idle(LossPlan(l), LossWorld(l), k)
  {
    var plan, w := LossPlan(l), LossWorld(l);
    LossPhases(l);
    FirstPassTakes(plan, w, a, 1, 0);
    FirstPassTakes(plan, w, b, 0, 1);
    forall k | 0 <= k < |l.phases| && k != a && k != b ensures Idle(plan, w, k) {
      if l.phases[k] == Named(l) {
        OtherPassIdle(plan, w, a, k);
      } else if l.phases[k] == l.phase {
        OtherPassIdle(plan, w, b, k);
      } else {
        LossUses(l, l.phases[k]);
        NoPassElse(plan, w, k);
      }
    }
  }

  // ---- The files of such a run ----

  predicate OnlyAt(js: JunitState, path: string, file: XmlFile) {
    js.dir == map[path := file]
  }

  lemma OnlyFileNames(js: JunitState, path: string, file: XmlFile, name: string)
    requires OnlyAt(js, path, file)
    ensures NamedIn(js, name) <==> FileNames(file, name)
  {
    assert path in js.dir;
  }

  /** After the pass that stubs the first validation the stub is at its path. */
  lemma StubWritten(l: Loss, platform: string, b: nat, js: JunitState)
    requires LossOk(l) && l.kind != Unexecuted && b < |l.phases| && l.phases[b] == l.phase
    requires IndexesOf(LossPlan(l), LossWorld(l), b) == [0]
    requires PathOf(l.phase, Plain) !in js.dir
    ensures PassFiles(LossPlan(l), LossWorld(l), LossFiles(l), platform, b, js).dir
            == js.dir[PathOf(l.phase, l.kind) := Stub([Stubbed(l, b)], SuiteName(platform, l.phase))]
  {
    var plan, w, x := LossPlan(l), LossWorld(l), LossFiles(l);
    LossPhases(l);
    if l.kind == Resolved {
      DecidedFiles(plan, w, x, platform, b, 0, js);
    } else {
      DeselectedFiles(plan, w, x, platform, b, 0, js);
    }
  }

  /** After the pass of the second validation pytest's file is at its path. */
  lemma PytestWritten(l: Loss, platform: string, a: nat, js: JunitState)
    requires LossOk(l) && IsNamed(l, a) && IndexesOf(LossPlan(l), LossWorld(l), a) == [1]
    ensures PassFiles(LossPlan(l), LossWorld(l), LossFiles(l), platform, a, js).dir
            == js.dir[PathOf(Named(l), Plain) := SecondFile()]
  {
    SecondFileNames(SECOND);
    CapturedFiles(LossPlan(l), LossWorld(l), LossFiles(l), platform, a, 1, js);
  }

  lemma FilesOfPass(plan: Plan, w: World, x: Written, platform: string, pass: nat)
    requires pass < |plan.phases| && Works(plan, w, pass)
    ensures FilesAfter(plan, w, x, platform, pass + 1)
            == PassFiles(plan, w, x, platform, pass, FilesAfter(plan, w, x, platform, pass))
  {
  }

  ghost predicate AllResolved(plan: Plan, w: World) {
    forall i: nat | i < |plan.entries| :: i in After(plan, w, |plan.phases|).resolved
  }

  /** All entries resolved: nothing is written after the loop. */
  lemma NoneLeft(plan: Plan, w: World, x: Written, platform: string)
    requires AllResolved(plan, w)
    ensures FinalFiles(plan, w, x, platform) == FilesAfter(plan, w, x, platform, |plan.phases|)
  {
    SomeIndex(RemainingOf(plan, w));
    assert LeftOverGroups(plan, w) == [];
  }

  lemma BothResolved(plan: Plan, w: World)
    requires |plan.entries| == 2
    requires Closed(plan, w, |plan.phases|, PhaseOf(plan, 0)) && Closed(plan, w, |plan.phases|, PhaseOf(plan, 1))
    ensures AllResolved(plan, w)
  {
  }

  lemma LossResolved(l: Loss, a: nat, b: nat)
    requires LossOk(l)
    requires FirstToWork(LossPlan(l), LossWorld(l), a, Named(l)) && FirstToWork(LossPlan(l), LossWorld(l), b, l.phase)
    ensures AllResolved(LossPlan(l), LossWorld(l))
  {
    var plan, w := LossPlan(l), LossWorld(l);
    LossPhases(l);
    ClosedByWork(plan, w, a, |l.phases|);
    ClosedByWork(plan, w, b, |l.phases|);
    BothResolved(plan, w);
  }

  // The directory after each number of passes, as a function of that number.

  type Dirs = nat -> map<string, XmlFile>

  /** Nothing is there, or one file at the path. */
  predicate AtMostAt(dir: map<string, XmlFile>, path: string) {
    dir == map[] || dir.Keys == {path}
  }

  /** Pass `k` puts this file at the path. */
  predicate Puts(d: Dirs, k: nat, path: string, file: XmlFile) {
    AtMostAt(d(k), path) ==> d(k + 1) == map[path := file]
  }

  predicate PutsNothing(d: Dirs, k: nat) {
    d(k + 1) == d(k)
  }

  /** The other passes up to `n` change nothing. */
  ghost predicate OthersPutNothing(d: Dirs, n: nat, a: nat, b: nat) {
    forall k: nat | k < n && k != a && k != b :: PutsNothing(d, k)
  }

  /** Of two files put at one path the later stays. */
  lemma {:induction false} LaterStays(d: Dirs, n: nat, m: nat, k: nat, path: string, f: XmlFile, g: XmlFile)
    requires d(0) == map[] && OthersPutNothing(d, n, m, k) && m < k
    requires Puts(d, m, path, f) && Puts(d, k, path, g)
    ensures n <= m ==> d(n) == map[]
    ensures m < n <= k ==> d(n) == map[path := f]
    ensures k < n ==> d(n) == map[path := g]
    decreases n
  {
    if n > 0 {
      LaterStays(d, n - 1, m, k, path, f, g);
      assert n - 1 != m && n - 1 != k ==> PutsNothing(d, n - 1);
    }
  }

  lemma {:induction false} OneStays(d: Dirs, n: nat, m: nat, path: string, f: XmlFile)
    requires d(0) == map[] && OthersPutNothing(d, n, m, m) && Puts(d, m, path, f)
    ensures d(n) == if n <= m then map[] else map[path := f]
    decreases n
  {
    if n > 0 {
      OneStays(d, n - 1, m, path, f);
      assert n - 1 != m ==> PutsNothing(d, n - 1);
    }
  }

  /** The directories of a run. */
  function DirsOf(plan: Plan, w: World, x: Written, platform: string): Dirs {
    (n: nat) => if n <= |plan.phases| then FilesAfter(plan, w, x, platform, n).dir else map[]
  }

  lemma IdlePutsNothing(plan: Plan, w: World, x: Written, platform: string, k: nat)
    requires k < |plan.phases| && Idle(plan, w, k)
    ensures PutsNothing(DirsOf(plan, w, x, platform), k)
  {
    DirStaysOnce(plan, w, x, platform, k);
  }

  lemma OthersIdle(plan: Plan, w: World, x: Written, platform: string, a: nat, b: nat)
    requires forall k {:trigger Idle(plan, w, k)} | 0 <= k < |plan.phases| && k != a && k != b :: Idle(plan, w, k)
    ensures OthersPutNothing(DirsOf(plan, w, x, platform), |plan.phases|, a, b)
    ensures DirsOf(plan, w, x, platform)(0) == map[]
  {
    forall k: nat | k < |plan.phases| && k != a && k != b ensures PutsNothing(DirsOf(plan, w, x, platform), k) {
      assert Idle(plan, w, k);
      IdlePutsNothing(plan, w, x, platform, k);
    }
  }

  function LossDirs(l: Loss, platform: string): Dirs {
    DirsOf(LossPlan(l), LossWorld(l), LossFiles(l), platform)
  }

  /** The outcome of the first validation. */
  function Stubbed(l: Loss, b: nat): ResolvedEntry
    requires b < |l.phases|
  {
    var plan, w := LossPlan(l), LossWorld(l);
    if l.kind == Deselected && ExecutedOf(plan, w, b) != [] then ExecutedOf(plan, w, b)[0]
    else Terminal(plan.entries[0], Skipped)
  }

  lemma StubWrittenOver(l: Loss, platform: string, b: nat, js: JunitState)
    requires LossOk(l) && l.kind != Unexecuted && b < |l.phases| && l.phases[b] == l.phase
    requires IndexesOf(LossPlan(l), LossWorld(l), b) == [0]
    ensures AtMostAt(js.dir, PathOf(l.phase, l.kind)) ==>
              PassFiles(LossPlan(l), LossWorld(l), LossFiles(l), platform, b, js).dir
              == map[PathOf(l.phase, l.kind) := Stub([Stubbed(l, b)], SuiteName(platform, l.phase))]
  {
    OwnPathsApart(l.phase, l.kind, Plain);
    if AtMostAt(js.dir, PathOf(l.phase, l.kind)) {
      StubWritten(l, platform, b, js);
    }
  }

  lemma StubPuts(l: Loss, platform: string, b: nat)
    requires LossOk(l) && l.kind != Unexecuted && b < |l.phases| && l.phases[b] == l.phase
    requires Works(LossPlan(l), LossWorld(l), b) && IndexesOf(LossPlan(l), LossWorld(l), b) == [0]
    ensures Puts(LossDirs(l, platform), b, PathOf(l.phase, l.kind),
                 Stub([Stubbed(l, b)], SuiteName(platform, l.phase)))
  {
    FilesOfPass(LossPlan(l), LossWorld(l), LossFiles(l), platform, b);
    StubWrittenOver(l, platform, b, FilesAfter(LossPlan(l), LossWorld(l), LossFiles(l), platform, b));
  }

  lemma StubbedName(l: Loss, b: nat)
    requires LossOk(l) && l.kind != Unexecuted && b < |l.phases| && l.phases[b] == l.phase
    requires IndexesOf(LossPlan(l), LossWorld(l), b) == [0]
    ensures Stubbed(l, b).entry.name == FIRST
  {
    if l.kind == Deselected {
      SoleReady(LossPlan(l), LossWorld(l), b, 0);
    }
  }

  lemma PytestPuts(l: Loss, platform: string, a: nat)
    requires LossOk(l) && IsNamed(l, a)
    requires Works(LossPlan(l), LossWorld(l), a) && IndexesOf(LossPlan(l), LossWorld(l), a) == [1]
    ensures Puts(LossDirs(l, platform), a, PathOf(l.phase, l.kind), SecondFile())
  {
    SamePathIff(Named(l), Plain, l.phase, l.kind);
    FilesOfPass(LossPlan(l), LossWorld(l), LossFiles(l), platform, a);
    PytestWritten(l, platform, a, FilesAfter(LossPlan(l), LossWorld(l), LossFiles(l), platform, a));
  }

  /** Of the stub and pytest's file at the shared path the later one is there in the end. */
  lemma LossEndsWith(l: Loss, platform: string, a: nat, b: nat)
    requires LossOk(l) && l.kind != Unexecuted
    requires FirstToWork(LossPlan(l), LossWorld(l), a, Named(l)) && FirstToWork(LossPlan(l), LossWorld(l), b, l.phase)
    ensures a != b && Stubbed(l, b).entry.name == FIRST
    ensures FinalFiles(LossPlan(l), LossWorld(l), LossFiles(l), platform).dir
            == map[PathOf(l.phase, l.kind) :=
                 if b < a then SecondFile() else Stub([Stubbed(l, b)], SuiteName(platform, l.phase))]
  {
    var d, path, stub :=
      LossDirs(l, platform), PathOf(l.phase, l.kind), Stub([Stubbed(l, b)], SuiteName(platform, l.phase));
    LossPhases(l);
    LossRun(l, a, b);
    OthersIdle(LossPlan(l), LossWorld(l), LossFiles(l), platform, a, b);
    StubbedName(l, b);
    StubPuts(l, platform, b);
    PytestPuts(l, platform, a);
    LossResolved(l, a, b);
    NoneLeft(LossPlan(l), LossWorld(l), LossFiles(l), platform);
    if b < a {
      LaterStays(d, |l.phases|, b, a, path, stub, SecondFile());
    } else {
      LaterStays(d, |l.phases|, a, b, path, SecondFile(), stub);
    }
  }

  /** The earlier of the two files is written over, and what it showed is lost. */
  lemma EarlierIsLost(l: Loss, platform: string, a: nat, b: nat)
    requires LossOk(l) && l.kind != Unexecuted
    requires FirstToWork(LossPlan(l), LossWorld(l), a, Named(l)) && FirstToWork(LossPlan(l), LossWorld(l), b, l.phase)
    ensures a != b && Lost(LossPlan(l), LossWorld(l), LossFiles(l), platform, if b < a then 0 else 1)
  {
    var plan, w, x := LossPlan(l), LossWorld(l), LossFiles(l);
    var stub := Stub([Stubbed(l, b)], SuiteName(platform, l.phase));
    LossEndsWith(l, platform, a, b);
    LossRun(l, a, b);
    if b < a {
      SecondFileNames(FIRST);
      OnlyFileNames(FinalFiles(plan, w, x, platform), PathOf(l.phase, l.kind), SecondFile(), FIRST);
      SoleReported(plan, w, b, 0);
      NotNamedIsLost(plan, w, x, platform, 0, FIRST);
    } else {
      StubNamesOne(Stubbed(l, b), SuiteName(platform, l.phase), SECOND);
      OnlyFileNames(FinalFiles(plan, w, x, platform), PathOf(l.phase, l.kind), stub, SECOND);
      SoleReported(plan, w, a, 1);
      NotNamedIsLost(plan, w, x, platform, 1, SECOND);
    }
  }

  // ---- A stub written after the loop ----

  /** The first pass of the phase named like the stub, with no pass of the stub's own
      phase before it that could work. */
  predicate FailsAt(l: Loss, a: nat) {
    && IsNamed(l, a) && Named(l) !in l.phases[..a]
    && (l.phase == TEARDOWN || l.phase !in l.phases[..a])
  }

  lemma FailingPass(l: Loss) returns (a: nat)
    requires LossOk(l) && l.kind == Unexecuted
    ensures FailsAt(l, a)
  {
    a := FirstIndex(l.phases, Named(l));
    if l.phase != TEARDOWN {
      var c :| 0 <= c < |l.phases| && l.phases[c] == Named(l) && l.phase !in l.phases[..c];
      assert l.phases[..a] == l.phases[..c][..a];
    }
  }

  /** It works, and its session fails the run. */
  lemma FailsThere(l: Loss, a: nat)
    requires LossOk(l) && l.kind == Unexecuted && FailsAt(l, a)
    ensures FirstToWork(LossPlan(l), LossWorld(l), a, Named(l)) && IndexesOf(LossPlan(l), LossWorld(l), a) == [1]
    ensures !After(LossPlan(l), LossWorld(l), a + 1).success
  {
    var plan, w := LossPlan(l), LossWorld(l);
    LossPhases(l);
    LossSucceeds(l, a);
    LossWorks(l, a);
    assert forall k | 0 <= k < a :: l.phases[k] == l.phases[..a][k];
    FirstPassTakes(plan, w, a, 1, 0);
    SoleReady(plan, w, a, 1);
    var e := PytestRun(a, [1], 1);
    PassEventsIff(plan, w, a, e);
    assert !EventOk(e);
    PassSuccess(plan, w, a);
  }

  lemma NothingWorksAfter(plan: Plan, w: World, m: nat, k: nat)
    requires m <= k < |plan.phases| && !After(plan, w, m).success && plan.phases[k] != TEARDOWN
    ensures !Works(plan, w, k)
  {
    if After(plan, w, k).success {
      SuccessBefore(plan, w, m, k);
    }
  }

  lemma TeardownIsOff(l: Loss, k: nat)
    requires LossOk(l) && l.kind == Unexecuted && k < |l.phases| && l.phases[k] == TEARDOWN
    ensures !Works(LossPlan(l), LossWorld(l), k)
  {
    TeardownWorks(l, k);
  }

  lemma FailedAfter(l: Loss, a: nat)
    requires LossOk(l) && l.kind == Unexecuted && FailsAt(l, a)
    ensures !After(LossPlan(l), LossWorld(l), a + 1).success
  {
    FailsThere(l, a);
  }

  lemma OtherIsOff(l: Loss, a: nat, k: nat)
    requires LossOk(l) && l.kind == Unexecuted && FailsAt(l, a) && a < k < |l.phases| && l.phases[k] != TEARDOWN
    ensures !Works(LossPlan(l), LossWorld(l), k)
  {
    FailedAfter(l, a);
    NothingWorksAfter(LossPlan(l), LossWorld(l), a + 1, k);
  }

  lemma NothingLater(l: Loss, a: nat, k: nat)
    requires LossOk(l) && l.kind == Unexecuted && FailsAt(l, a) && a < k < |l.phases|
    ensures !Works(LossPlan(l), LossWorld(l), k)
  {
    if l.phases[k] == TEARDOWN {
      TeardownIsOff(l, k);
    } else {
      OtherIsOff(l, a, k);
    }
  }

  lemma TakeLacks(phases: seq<string>, a: nat, phase: string)
    requires a <= |phases| && phase !in phases[..a]
    ensures forall k | 0 <= k < a :: phases[k] != phase
  {
    assert forall k | 0 <= k < a :: phases[k] == phases[..a][k];
  }

  /** No pass of the stub's own phase works. */
  lemma OwnNeverWorks(l: Loss, a: nat, k: nat)
    requires LossOk(l) && l.kind == Unexecuted && FailsAt(l, a) && k < |l.phases| && l.phases[k] == l.phase
    ensures !Works(LossPlan(l), LossWorld(l), k)
  {
    LossPhases(l);
    if l.phase == TEARDOWN {
      TeardownWorks(l, k);
    } else {
      TakeLacks(l.phases, a, l.phase);
      NothingLater(l, a, k);
    }
  }

  /** All passes but that one are idle. */
  lemma OthersAreIdle(l: Loss, a: nat)
    requires LossOk(l) && l.kind == Unexecuted && FailsAt(l, a)
    ensures forall k {:trigger Idle(LossPlan(l), LossWorld(l), k)} | 0 <= k < |l.phases| && k != a ::
              Idle(LossPlan(l), LossWorld(l), k)
  {
    var plan, w := LossPlan(l), LossWorld(l);
    LossPhases(l);
    FailsThere(l, a);
    forall k | 0 <= k < |l.phases| && k != a ensures Idle(plan, w, k) {
      if l.phases[k] == Named(l) {
        OtherPassIdle(plan, w, a, k);
      } else if l.phases[k] == l.phase {
        OwnNeverWorks(l, a, k);
      } else {
        LossUses(l, l.phases[k]);
        NoPassElse(plan, w, k);
      }
    }
  }

  lemma FirstIsLeft(l: Loss, a: nat)
    requires LossOk(l) && l.kind == Unexecuted && FailsAt(l, a)
    ensures RemainingOf(LossPlan(l), LossWorld(l)) == [0]
  {
    var plan, w := LossPlan(l), LossWorld(l);
    LossPhases(l);
    FailsThere(l, a);
    ClosedByWork(plan, w, a, |l.phases|);
    forall k | 0 <= k < |l.phases| && l.phases[k] == l.phase ensures !Works(plan, w, k) {
      OwnNeverWorks(l, a, k);
    }
    UnresolvedBefore(plan, w, |l.phases|, 0);
    OnlyIndex(RemainingOf(plan, w), 0);
  }

  lemma PytestFileStays(l: Loss, platform: string, a: nat)
    requires LossOk(l) && l.kind == Unexecuted && FailsAt(l, a)
    ensures FilesAfter(LossPlan(l), LossWorld(l), LossFiles(l), platform, |l.phases|).dir
            == map[PathOf(l.phase, Unexecuted) := SecondFile()]
  {
    FailsThere(l, a);
    OthersAreIdle(l, a);
    OthersIdle(LossPlan(l), LossWorld(l), LossFiles(l), platform, a, a);
    PytestPuts(l, platform, a);
    OneStays(LossDirs(l, platform), |l.phases|, a, PathOf(l.phase, Unexecuted), SecondFile());
  }

  /** The stub is written last, over pytest's file. */
  lemma UnexecutedOverPytest(l: Loss, platform: string, a: nat)
    requires LossOk(l) && l.kind == Unexecuted && FailsAt(l, a)
    ensures FinalFiles(LossPlan(l), LossWorld(l), LossFiles(l), platform).dir
            == map[PathOf(l.phase, Unexecuted) :=
                 Stub([LeftOver(LossPlan(l), LossWorld(l), 0)], SuiteName(platform, l.phase))]
  {
    LossPhases(l);
    PytestFileStays(l, platform, a);
    FirstIsLeft(l, a);
    OneLeft(LossPlan(l), LossWorld(l), LossFiles(l), platform);
  }

  lemma SecondIsLost(l: Loss, platform: string, a: nat)
    requires LossOk(l) && l.kind == Unexecuted && FailsAt(l, a)
    ensures Lost(LossPlan(l), LossWorld(l), LossFiles(l), platform, 1)
  {
    var plan, w, x := LossPlan(l), LossWorld(l), LossFiles(l);
    var r := LeftOver(plan, w, 0);
    UnexecutedOverPytest(l, platform, a);
    FailsThere(l, a);
    StubNamesOne(r, SuiteName(platform, l.phase), SECOND);
    OnlyFileNames(FinalFiles(plan, w, x, platform), PathOf(l.phase, Unexecuted),
                  Stub([r], SuiteName(platform, l.phase)), SECOND);
    SoleReported(plan, w, a, 1);
    NotNamedIsLost(plan, w, x, platform, 1, SECOND);
  }

  lemma GroupOne(stepPhases: map<string, string>, r: ResolvedEntry)
    ensures GroupByPhase(stepPhases, [r]) == [Group(EntryPhase(r.entry, stepPhases), [r])]
  {
    assert [r][..0] == [];
    assert GroupByPhase(stepPhases, []) == [];
  }

  lemma WriteOneGroup(js: JunitState, platform: string, group: Group)
    ensures WriteAllGroups(js, platform, [group]) == WriteStub(js, platform, group.phase, Unexecuted, group.entries)
  {
    assert WriteGroups(js, platform, [group], 0) == js;
  }

  lemma OneLeft(plan: Plan, w: World, x: Written, platform: string)
    requires RemainingOf(plan, w) == [0] && plan.entries != []
    ensures var r, phase := LeftOver(plan, w, 0), PhaseOf(plan, 0);
            FinalFiles(plan, w, x, platform).dir
            == FilesAfter(plan, w, x, platform, |plan.phases|).dir
               [PathOf(phase, Unexecuted) := Stub([r], SuiteName(platform, phase))]
  {
    var r, phase := LeftOver(plan, w, 0), PhaseOf(plan, 0);
    assert LeftOvers(plan, w, [0]) == [r];
    GroupOne(StepPhases(plan.steps), r);
    WriteOneGroup(FilesAfter(plan, w, x, platform, |plan.phases|), platform, Group(phase, [r]));
  }

  /** One of the two outcomes is missing from the merged report. */
  lemma SomethingIsLost(l: Loss, platform: string) returns (i: nat)
    requires LossOk(l)
    ensures i < 2 && Lost(LossPlan(l), LossWorld(l), LossFiles(l), platform, i)
  {
    if l.kind == Unexecuted {
      var a := FailingPass(l);
      SecondIsLost(l, platform, a);
      i := 1;
    } else {
      var a, b := LossPasses(l);
      EarlierIsLost(l, platform, a, b);
      i := if b < a then 0 else 1;
    }
  }
}
