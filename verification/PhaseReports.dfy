/** The JUnit files of a run: stubs beside pytest's own file, phase by phase, and
    the merged report they end up in. */
module PhaseReports {
  import opened Json
  import opened JUnit
  import opened PhaseMachine
  import opened RunResult
  import opened StableOrder
  import opened Validations

  // ---- File names ----

  /** Pytest's own file of a phase, or one of the stub files beside it. */
  datatype FileKind = Plain | Resolved | Deselected | Unexecuted

  function Suffix(kind: FileKind): string {
    match kind
    case Plain => ""
    case Resolved => "-resolved"
    case Deselected => "-deselected"
    case Unexecuted => "-unexecuted"
  }

  function PathOf(phase: string, kind: FileKind): string {
    "junit-" + (phase + Suffix(kind)) + ".xml"
  }

  lemma SuffixTell(kind: FileKind)
    ensures kind != Plain ==> |Suffix(kind)| >= 4
    ensures kind == Resolved <==> |Suffix(kind)| >= 4 && Suffix(kind)[|Suffix(kind)| - 4] == 'l'
    ensures kind == Deselected <==> |Suffix(kind)| >= 4 && Suffix(kind)[|Suffix(kind)| - 4] == 'c'
    ensures kind == Unexecuted <==> |Suffix(kind)| >= 4 && Suffix(kind)[|Suffix(kind)| - 4] == 'u'
  {
  }

  lemma FourthFromEnd(p: string, end: string)
    ensures |end| >= 4 ==> (p + end)[|p + end| - 4] == end[|end| - 4]
    ensures end == "" ==> p + end == p
    ensures (p + end)[..|p|] == p
  {
  }

  lemma SuffixedIff(p: string, k: FileKind, q: string, l: FileKind)
    ensures p + Suffix(k) == q + Suffix(l) <==>
            || (p == q && k == l)
            || (k == Plain && l != Plain && p == q + Suffix(l))
            || (l == Plain && k != Plain && q == p + Suffix(k))
  {
    SuffixTell(k);
    SuffixTell(l);
    FourthFromEnd(p, Suffix(k));
    FourthFromEnd(q, Suffix(l));
  }

  lemma Unwrap(before: string, a: string, b: string, after: string)
    requires before + a + after == before + b + after
    ensures a == b
  {
    var s := before + a + after;
    assert |a| == |b|;
    assert a == s[|before|..|before| + |a|];
    assert b == (before + b + after)[|before|..|before| + |a|];
  }

  /** Two files share a path exactly when they are the same file, or one is pytest's
      and its phase is named like the other, a stub. */
  lemma SamePathIff(p: string, k: FileKind, q: string, l: FileKind)
    ensures PathOf(p, k) == PathOf(q, l) <==>
            || (p == q && k == l)
            || (k == Plain && l != Plain && p == q + Suffix(l))
            || (l == Plain && k != Plain && q == p + Suffix(k))
  {
    SuffixedIff(p, k, q, l);
    if PathOf(p, k) == PathOf(q, l) {
      Unwrap("junit-", p + Suffix(k), q + Suffix(l), ".xml");
    }
  }

  lemma OwnPathsApart(phase: string, k: FileKind, l: FileKind)
    requires k != l
    ensures PathOf(phase, k) != PathOf(phase, l)
  {
    SamePathIff(phase, k, phase, l);
    SuffixTell(k);
    SuffixTell(l);
  }

  /** Some validation belongs to the phase. */
  predicate Used(plan: Plan, phase: string) {
    exists i :: 0 <= i < |plan.entries| && PhaseOf(plan, i) == phase
  }

  predicate WorksIn(plan: Plan, w: World, phase: string) {
    exists k :: 0 <= k < |plan.phases| && plan.phases[k] == phase && Works(plan, w, k)
  }

  predicate LeftIn(plan: Plan, w: World, phase: string) {
    exists i :: 0 <= i < |plan.entries| && PhaseOf(plan, i) == phase && i !in After(plan, w, |plan.phases|).resolved
  }

  /** The run may write this file. */
  predicate MayWrite(plan: Plan, w: World, phase: string, kind: FileKind) {
    Used(plan, phase) && if kind == Unexecuted then LeftIn(plan, w, phase) else WorksIn(plan, w, phase)
  }

  /** No phase whose own file may be written is named like a stub that may be. */
  ghost predicate NoneLikeStub(may: (string, FileKind) -> bool) {
    forall p, q, kind {:trigger may(p, Plain), may(q, kind)} | may(p, Plain) && may(q, kind) && kind != Plain ::
      p != q + Suffix(kind)
  }

  ghost predicate OwnPaths(may: (string, FileKind) -> bool) {
    forall p, k, q, l | may(p, k) && may(q, l) && (p != q || k != l) :: PathOf(p, k) != PathOf(q, l)
  }

  /** That is what keeps the paths of different files apart. */
  lemma NoneLikeStubIff(may: (string, FileKind) -> bool)
    ensures NoneLikeStub(may) <==> OwnPaths(may)
  {
    forall p, k, q, l | NoneLikeStub(may) && may(p, k) && may(q, l) && (p != q || k != l)
      ensures PathOf(p, k) != PathOf(q, l)
    {
      SamePathIff(p, k, q, l);
    }
    forall p, q, kind | OwnPaths(may) && may(p, Plain) && may(q, kind) && kind != Plain ensures p != q + Suffix(kind) {
      SamePathIff(p, Plain, q, kind);
    }
  }

  /** The files of one run have their own paths. */
  ghost predicate RunApart(plan: Plan, w: World) {
    NoneLikeStub((phase, kind) => MayWrite(plan, w, phase, kind))
  }

  lemma PathsApart(plan: Plan, w: World, p: string, k: FileKind, q: string, l: FileKind)
    requires RunApart(plan, w) && MayWrite(plan, w, p, k) && MayWrite(plan, w, q, l) && (p != q || k != l)
    ensures PathOf(p, k) != PathOf(q, l)
  {
    var may := (phase, kind) => MayWrite(plan, w, phase, kind);
    assert may(p, k) && may(q, l);
    NoneLikeStubIff(may);
  }

  // ---- Files ----

  datatype JunitState = JunitState(dir: map<string, XmlFile>, files: seq<string>)

  function CountState(entries: seq<ResolvedEntry>, state: State): nat {
    if entries == [] then 0
    else
      CountState(entries[..|entries| - 1], state)
      + if entries[|entries| - 1].Terminal? && entries[|entries| - 1].state == state then 1 else 0
  }

  function StubCase(r: ResolvedEntry): Child {
    CaseChild(Case(0, r.entry.name))
  }

  function StubCases(entries: seq<ResolvedEntry>): seq<Child> {
    seq(|entries|, j requires 0 <= j < |entries| => StubCase(entries[j]))
  }

  /** `_write_terminal_junit_xml`. */
  function Stub(entries: seq<ResolvedEntry>, suiteName: string): XmlFile {
    Testsuite(Suite(
      suiteName, Counters(|entries|, 0, CountState(entries, Error), CountState(entries, Skipped)), StubCases(entries)))
  }

  function SuiteName(platform: string, phase: string): string {
    platform + "/" + phase
  }

  function WriteStub(
      js: JunitState, platform: string, phase: string, kind: FileKind, entries: seq<ResolvedEntry>): JunitState
  {
    if entries == [] then js
    else JunitState(js.dir[PathOf(phase, kind) := Stub(entries, SuiteName(platform, phase))],
                    js.files + [PathOf(phase, kind)])
  }

  function InState(state: State): ResolvedEntry -> bool {
    (r: ResolvedEntry) => r.Terminal? && r.state == state
  }

  lemma {:induction false} CountStateIs(entries: seq<ResolvedEntry>, state: State)
    ensures CountState(entries, state) == |Filter(entries, InState(state))|
    decreases |entries|
  {
    if entries != [] {
      CountStateIs(entries[..|entries| - 1], state);
    }
  }

  /** A stub counts its entries, and those in error and skipped among them; a failed one
      has no counter, so all that did not succeed are counted exactly when none failed. */
  lemma StubCounts(entries: seq<ResolvedEntry>, suiteName: string)
    ensures var suite := Stub(entries, suiteName).suite;
            && suite.name == suiteName && suite.counters.tests == |entries| == |Cases(suite.children)|
            && suite.counters.errors == |Filter(entries, InState(Error))|
            && suite.counters.skipped == |Filter(entries, InState(Skipped))|
    ensures (forall j | 0 <= j < |entries| :: entries[j].Terminal?) ==>
              var c := Stub(entries, suiteName).suite.counters;
              c.failures + c.errors == |Filter(entries, (r: ResolvedEntry) => !OutcomeOk(r))| <==>
              forall j | 0 <= j < |entries| :: !entries[j].state.Failed?
  {
    CountStateIs(entries, Error);
    CountStateIs(entries, Skipped);
    StubCaseList(entries);
    if forall j | 0 <= j < |entries| :: entries[j].Terminal? {
      BadAreErrorsAndFailures(entries);
      FilterMembers(entries, InState(Failed));
      var failed := Filter(entries, InState(Failed));
      if failed == [] {
        forall j | 0 <= j < |entries| ensures !entries[j].state.Failed? {
          assert entries[j] in entries;
        }
      } else {
        assert failed[0] in failed;
      }
    }
  }

  lemma StubCaseList(entries: seq<ResolvedEntry>)
    ensures |Cases(StubCases(entries))| == |entries|
    ensures forall j | 0 <= j < |entries| :: Cases(StubCases(entries))[j].name == entries[j].entry.name
  {
    var cases := seq(|entries|, i requires 0 <= i < |entries| => Case(0, entries[i].entry.name));
    assert StubCases(entries) == AsChildren(cases);
    CasesOfCases(cases);
  }

  lemma {:induction false} BadAreErrorsAndFailures(entries: seq<ResolvedEntry>)
    requires forall j | 0 <= j < |entries| :: entries[j].Terminal?
    ensures |Filter(entries, (r: ResolvedEntry) => !OutcomeOk(r))|
            == |Filter(entries, InState(Error))| + |Filter(entries, InState(Failed))|
    decreases |entries|
  {
    if entries != [] {
      BadAreErrorsAndFailures(entries[..|entries| - 1]);
    }
  }

  predicate SuiteNames(suite: Suite, name: string) {
    exists k :: 0 <= k < |Cases(suite.children)| && Cases(suite.children)[k].name == name
  }

  /** Some testcase of the file has this name. */
  predicate FileNames(file: XmlFile, name: string) {
    exists s :: 0 <= s < |SuitesOf(Some(file))| && SuiteNames(SuitesOf(Some(file))[s], name)
  }

  /** `_entries_missing_from_junit`. */
  function Missing(entries: seq<ResolvedEntry>, file: Option<XmlFile>): seq<ResolvedEntry> {
    match file
    case None => entries
    case Some(Unparseable) => entries
    case Some(f) => Filter(entries, (r: ResolvedEntry) => r.entry.name == "" || !FileNames(f, r.entry.name))
  }

  function FileAt(dir: map<string, XmlFile>, path: string): Option<XmlFile> {
    if path in dir then Some(dir[path]) else None
  }

  function NotReadyAt(w: World, pass: nat): nat -> bool {
    (i: nat) => w.resolution(pass, i).Some?
  }

  lemma {:induction false} FilterInRange(plan: Plan, indexes: seq<nat>, keep: nat -> bool)
    requires InRange(plan, indexes)
    ensures InRange(plan, Filter(indexes, keep))
  {
    if indexes != [] {
      FilterInRange(plan, indexes[..|indexes| - 1], keep);
    }
  }

  /** The entries of a pass that resolution has decided. */
  function PreResolved(plan: Plan, w: World, pass: nat, indexes: seq<nat>): seq<ResolvedEntry>
    requires InRange(plan, indexes)
  {
    FilterInRange(plan, indexes, NotReadyAt(w, pass));
    var decided := Filter(indexes, NotReadyAt(w, pass));
    seq(|decided|, j requires 0 <= j < |decided| => ResolvedAt(plan, w, pass, decided[j]))
  }

  /** What pytest writes in a pass, if anything. */
  type Written = nat -> Option<XmlFile>

  /** After the stub of the decided entries and pytest's own writing. */
  function PytestFiles(plan: Plan, w: World, x: Written, platform: string, pass: nat, js: JunitState): JunitState
    requires pass < |plan.phases|
  {
    var phase, path := plan.phases[pass], PathOf(plan.phases[pass], Plain);
    var js1 := WriteStub(js, platform, phase, Resolved, PreResolved(plan, w, pass, IndexesOf(plan, w, pass)));
    var dir := if ReadyOf(plan, w, pass) != [] && x(pass).Some? then js1.dir[path := x(pass).value] else js1.dir;
    JunitState(dir, if path in dir then js1.files + [path] else js1.files)
  }

  function PassFiles(plan: Plan, w: World, x: Written, platform: string, pass: nat, js: JunitState): JunitState
    requires pass < |plan.phases|
  {
    var js1 := PytestFiles(plan, w, x, platform, pass, js);
    WriteStub(js1, platform, plan.phases[pass], Deselected,
              Missing(ExecutedOf(plan, w, pass), FileAt(js1.dir, PathOf(plan.phases[pass], Plain))))
  }

  function FilesAfter(plan: Plan, w: World, x: Written, platform: string, n: nat): JunitState
    requires n <= |plan.phases|
  {
    if n == 0 then JunitState(map[], [])
    else if Works(plan, w, n - 1) then PassFiles(plan, w, x, platform, n - 1, FilesAfter(plan, w, x, platform, n - 1))
    else FilesAfter(plan, w, x, platform, n - 1)
  }

  function WriteGroups(js: JunitState, platform: string, groups: seq<Group>, n: nat): JunitState
    requires n <= |groups|
  {
    if n == 0 then js
    else WriteStub(WriteGroups(js, platform, groups, n - 1), platform,
                   groups[n - 1].phase, Unexecuted, groups[n - 1].entries)
  }

  function WriteAllGroups(js: JunitState, platform: string, groups: seq<Group>): JunitState {
    WriteGroups(js, platform, groups, |groups|)
  }

  function LeftOverGroups(plan: Plan, w: World): seq<Group> {
    GroupByPhase(StepPhases(plan.steps), LeftOvers(plan, w, RemainingOf(plan, w)))
  }

  function FinalFiles(plan: Plan, w: World, x: Written, platform: string): JunitState {
    WriteAllGroups(FilesAfter(plan, w, x, platform, |plan.phases|), platform, LeftOverGroups(plan, w))
  }

  function Contents(js: JunitState): seq<Option<XmlFile>> {
    seq(|js.files|, f requires 0 <= f < |js.files| => FileAt(js.dir, js.files[f]))
  }

  function NameOrder(plan: Plan): seq<string> {
    seq(|plan.entries|, i requires 0 <= i < |plan.entries| => plan.entries[i].name)
  }

  function MergedReport(plan: Plan, js: JunitState): seq<Suite> {
    MergeReport(Contents(js), NameOrder(plan))
  }

  /** Validation `i` is the first one called `name`. */
  predicate FirstEntry(plan: Plan, name: string, i: int) {
    0 <= i < |plan.entries| && plan.entries[i].name == name && forall k | 0 <= k < i :: plan.entries[k].name != name
  }

  lemma FirstEntryRank(plan: Plan, name: string, i: int)
    ensures FirstEntry(plan, name, i) <==> 0 <= i < |plan.entries| && i == Rank(NameOrder(plan), name)
  {
    var order, rank := NameOrder(plan), Rank(NameOrder(plan), name);
    RankIsFirst(order, name);
    assert forall k | 0 <= k < |order| :: order[k] == plan.entries[k].name;
    if FirstEntry(plan, name, i) {
      assert order[i] == name;
      assert rank < |order| ==> order[rank] == name;
    }
  }

  /** In a run's report the testcases of a suite stand in configuration order, those
      of no configured name last: where the later of two belongs to a validation, the
      earlier belongs to the same one or to one before. */
  lemma ReportInConfigOrder(plan: Plan, js: JunitState, s: nat, a: nat, b: nat, j: nat)
    requires s < |MergedReport(plan, js)| && a < b < |Cases(MergedReport(plan, js)[s].children)|
    requires FirstEntry(plan, ParentName(Cases(MergedReport(plan, js)[s].children)[b].name), j)
    ensures exists i | 0 <= i <= j :: FirstEntry(plan, ParentName(Cases(MergedReport(plan, js)[s].children)[a].name), i)
  {
    var cases := Cases(MergedReport(plan, js)[s].children);
    var order := NameOrder(plan);
    ReportIsInOrder(Contents(js), order, s);
    assert SortedBy(cases, CaseRank(order));
    var first := Rank(order, ParentName(cases[a].name));
    assert CaseRank(order)(cases[a]) <= CaseRank(order)(cases[b]);
    FirstEntryRank(plan, ParentName(cases[b].name), j);
    FirstEntryRank(plan, ParentName(cases[a].name), first);
  }

  // ---- Nothing is left out of the report ----

  /** A testcase called `name` is in the listed file at `path`. */
  predicate ShownAt(js: JunitState, path: string, name: string) {
    path in js.files && path in js.dir && FileNames(js.dir[path], name)
  }

  lemma ShownReachesReport(plan: Plan, js: JunitState, path: string, name: string) returns (c: Case)
    requires ShownAt(js, path, name)
    ensures c in AllCases(MergedReport(plan, js)) && c.name == name
  {
    var f :| 0 <= f < |js.files| && js.files[f] == path;
    var suites := SuitesOf(Contents(js)[f]);
    var s :| 0 <= s < |suites| && SuiteNames(suites[s], name);
    var cases := Cases(suites[s].children);
    var k :| 0 <= k < |cases| && cases[k].name == name;
    c := cases[k];
    CaseReachesReport(Contents(js), NameOrder(plan), f, s, c);
  }

  lemma StubNames(entries: seq<ResolvedEntry>, suiteName: string, j: nat)
    requires j < |entries|
    ensures FileNames(Stub(entries, suiteName), entries[j].entry.name)
  {
    var cases := seq(|entries|, i requires 0 <= i < |entries| => Case(0, entries[i].entry.name));
    assert StubCases(entries) == AsChildren(cases);
    CasesOfCases(cases);
    var file := Stub(entries, suiteName);
    assert Cases(file.suite.children)[j].name == entries[j].entry.name;
    assert SuiteNames(SuitesOf(Some(file))[0], entries[j].entry.name);
  }

  lemma WriteShows(js: JunitState, platform: string, phase: string, kind: FileKind, entries: seq<ResolvedEntry>, j: nat)
    requires j < |entries|
    ensures ShownAt(WriteStub(js, platform, phase, kind, entries), PathOf(phase, kind), entries[j].entry.name)
  {
    StubNames(entries, SuiteName(platform, phase), j);
  }

  lemma WriteKeeps(js: JunitState, platform: string, phase: string, kind: FileKind, entries: seq<ResolvedEntry>,
                   path: string, name: string)
    requires ShownAt(js, path, name) && path != PathOf(phase, kind)
    ensures ShownAt(WriteStub(js, platform, phase, kind, entries), path, name)
  {
  }

  /** A decided entry is shown by the stub of its pass. */
  lemma DecidedShown(plan: Plan, w: World, x: Written, platform: string, pass: nat, js: JunitState, j: nat)
    requires pass < |plan.phases| && j < |IndexesOf(plan, w, pass)|
    requires w.resolution(pass, IndexesOf(plan, w, pass)[j]).Some?
    ensures ShownAt(PassFiles(plan, w, x, platform, pass, js), PathOf(plan.phases[pass], Resolved),
                    plan.entries[IndexesOf(plan, w, pass)[j]].name)
  {
    var phase, indexes := plan.phases[pass], IndexesOf(plan, w, pass);
    var decided := Filter(indexes, NotReadyAt(w, pass));
    FilterMembers(indexes, NotReadyAt(w, pass));
    FilterInRange(plan, indexes, NotReadyAt(w, pass));
    assert indexes[j] in decided;
    var d :| 0 <= d < |decided| && decided[d] == indexes[j];
    var entries := PreResolved(plan, w, pass, indexes);
    assert entries[d].entry == plan.entries[indexes[j]];
    var js1 := WriteStub(js, platform, phase, Resolved, entries);
    WriteShows(js, platform, phase, Resolved, entries, d);
    OwnPathsApart(phase, Resolved, Plain);
    OwnPathsApart(phase, Resolved, Deselected);
    var js2 := PytestFiles(plan, w, x, platform, pass, js);
    assert ShownAt(js2, PathOf(phase, Resolved), entries[d].entry.name);
    WriteKeeps(js2, platform, phase, Deselected,
               Missing(ExecutedOf(plan, w, pass), FileAt(js2.dir, PathOf(phase, Plain))),
               PathOf(phase, Resolved), entries[d].entry.name);
  }

  lemma MissingOrNamed(entries: seq<ResolvedEntry>, file: Option<XmlFile>, m: nat)
    requires m < |entries|
    ensures entries[m] in Missing(entries, file) || (file.Some? && FileNames(file.value, entries[m].entry.name))
  {
    if file.Some? && !file.value.Unparseable? {
      FilterMembers(entries, (r: ResolvedEntry) => r.entry.name == "" || !FileNames(file.value, r.entry.name));
    }
  }

  /** An executed entry is shown by pytest's own file, or else by the stub for it. */
  lemma ExecutedShown(plan: Plan, w: World, x: Written, platform: string, pass: nat, js: JunitState, m: nat)
    returns (kind: FileKind)
    requires pass < |plan.phases| && m < |ExecutedOf(plan, w, pass)|
    ensures ShownAt(PassFiles(plan, w, x, platform, pass, js), PathOf(plan.phases[pass], kind),
                    ExecutedOf(plan, w, pass)[m].entry.name)
    ensures kind != Unexecuted
  {
    var phase, executed := plan.phases[pass], ExecutedOf(plan, w, pass);
    var js1 := PytestFiles(plan, w, x, platform, pass, js);
    var file := FileAt(js1.dir, PathOf(phase, Plain));
    var missing := Missing(executed, file);
    MissingOrNamed(executed, file, m);
    if executed[m] in missing {
      kind := Deselected;
      var j :| 0 <= j < |missing| && missing[j] == executed[m];
      WriteShows(js1, platform, phase, Deselected, missing, j);
    } else {
      kind := Plain;
      OwnPathsApart(phase, Plain, Deselected);
      assert ShownAt(js1, PathOf(phase, Plain), executed[m].entry.name);
      WriteKeeps(js1, platform, phase, Deselected, missing, PathOf(phase, Plain), executed[m].entry.name);
    }
  }

  /** A pass without entries writes nothing; pytest's file, if it is there, is listed again. */
  lemma IdleFiles(plan: Plan, w: World, x: Written, platform: string, pass: nat, js: JunitState)
    requires pass < |plan.phases| && IndexesOf(plan, w, pass) == []
    ensures PassFiles(plan, w, x, platform, pass, js).dir == js.dir
    ensures var path := PathOf(plan.phases[pass], Plain);
            PassFiles(plan, w, x, platform, pass, js).files == if path in js.dir then js.files + [path] else js.files
  {
  }

  /** A later pass leaves the files of a phase alone, unless it has entries of that phase itself. */
  lemma PassKeeps(plan: Plan, w: World, x: Written, platform: string, pass: nat, js: JunitState,
                  phase: string, kind: FileKind, name: string)
    requires pass < |plan.phases| && Works(plan, w, pass) && RunApart(plan, w)
    requires MayWrite(plan, w, phase, kind) && kind != Unexecuted
    requires ShownAt(js, PathOf(phase, kind), name)
    requires IndexesOf(plan, w, pass) != [] ==> phase != plan.phases[pass]
    ensures ShownAt(PassFiles(plan, w, x, platform, pass, js), PathOf(phase, kind), name)
  {
    var own, path := plan.phases[pass], PathOf(phase, kind);
    if IndexesOf(plan, w, pass) == [] {
      IdleFiles(plan, w, x, platform, pass, js);
    } else {
      PassUses(plan, w, pass);
      PathsApart(plan, w, phase, kind, own, Resolved);
      PathsApart(plan, w, phase, kind, own, Plain);
      PathsApart(plan, w, phase, kind, own, Deselected);
      OtherPathKept(plan, w, x, platform, pass, js, path, name);
    }
  }

  lemma OtherPathKept(
      plan: Plan, w: World, x: Written, platform: string, pass: nat, js: JunitState, path: string, name: string)
    requires pass < |plan.phases| && ShownAt(js, path, name)
    requires forall kind | kind != Unexecuted :: path != PathOf(plan.phases[pass], kind)
    ensures ShownAt(PassFiles(plan, w, x, platform, pass, js), path, name)
  {
    var own := plan.phases[pass];
    assert path != PathOf(own, Resolved) && path != PathOf(own, Plain) && path != PathOf(own, Deselected);
    WriteKeeps(js, platform, own, Resolved, PreResolved(plan, w, pass, IndexesOf(plan, w, pass)), path, name);
    var js1 := PytestFiles(plan, w, x, platform, pass, js);
    assert ShownAt(js1, path, name);
    WriteKeeps(js1, platform, own, Deselected,
               Missing(ExecutedOf(plan, w, pass), FileAt(js1.dir, PathOf(own, Plain))), path, name);
  }

  lemma PassUses(plan: Plan, w: World, pass: nat)
    requires pass < |plan.phases| && IndexesOf(plan, w, pass) != []
    ensures Used(plan, plan.phases[pass])
    ensures Works(plan, w, pass) ==>
              forall kind | kind != Unexecuted :: MayWrite(plan, w, plan.phases[pass], kind)
  {
    var i := IndexesOf(plan, w, pass)[0];
    IndexesIff(plan, w, pass);
    assert i in IndexesOf(plan, w, pass);
    assert PhaseOf(plan, i) == plan.phases[pass];
  }

  lemma SomeIndex(r: seq<nat>)
    ensures r != [] ==> exists i: nat :: i in r
  {
    if r != [] {
      assert r[0] in r;
    }
  }

  /** Every entry of a phase has an outcome. */
  predicate Closed(plan: Plan, w: World, n: nat, phase: string)
    requires n <= |plan.phases|
  {
    forall i: nat {:trigger PhaseOf(plan, i)} | i < |plan.entries| && PhaseOf(plan, i) == phase ::
      i in After(plan, w, n).resolved
  }

  lemma WorkCloses(plan: Plan, w: World, k: nat)
    requires k < |plan.phases| && Works(plan, w, k)
    ensures Closed(plan, w, k + 1, plan.phases[k])
  {
    forall i: nat | i < |plan.entries| && PhaseOf(plan, i) == plan.phases[k]
      ensures i in After(plan, w, k + 1).resolved
    {
      if i in After(plan, w, k).resolved {
        ResolvedLater(plan, w, k, k + 1, i);
      } else {
        PassTakesOwn(plan, w, k, i);
      }
    }
  }

  lemma ClosedStays(plan: Plan, w: World, m: nat, n: nat, phase: string)
    requires m <= n <= |plan.phases| && Closed(plan, w, m, phase)
    ensures Closed(plan, w, n, phase)
  {
    forall i: nat | i < |plan.entries| && PhaseOf(plan, i) == phase ensures i in After(plan, w, n).resolved {
      ResolvedLater(plan, w, m, n, i);
    }
  }

  lemma ClosedByWork(plan: Plan, w: World, k: nat, n: nat)
    requires k < n <= |plan.phases|
    ensures Works(plan, w, k) ==> Closed(plan, w, n, plan.phases[k])
  {
    if Closed(plan, w, k + 1, plan.phases[k]) {
      ClosedStays(plan, w, k + 1, n, plan.phases[k]);
    } else if Works(plan, w, k) {
      WorkCloses(plan, w, k);
      assert false;
    }
  }

  lemma ClosedIsIdle(plan: Plan, w: World, pass: nat)
    requires pass < |plan.phases| && Closed(plan, w, pass, plan.phases[pass])
    ensures IndexesOf(plan, w, pass) == []
  {
    IndexesIff(plan, w, pass);
    SomeIndex(IndexesOf(plan, w, pass));
  }

  /** After a phase has done its work, no later pass of that phase has entries. */
  lemma RepeatedPhaseIsIdle(plan: Plan, w: World, k: nat, pass: nat)
    requires k < pass < |plan.phases| && Works(plan, w, k) && plan.phases[pass] == plan.phases[k]
    ensures IndexesOf(plan, w, pass) == []
  {
    ClosedByWork(plan, w, k, pass);
    ClosedIsIdle(plan, w, pass);
  }

  predicate ShownAfter(plan: Plan, w: World, x: Written, platform: string, n: nat, path: string, name: string)
    requires n <= |plan.phases|
  {
    ShownAt(FilesAfter(plan, w, x, platform, n), path, name)
  }

  /** No pass after `k` has entries of its phase. */
  ghost predicate Settled(plan: Plan, w: World, k: nat)
    requires k < |plan.phases|
  {
    forall pass {:trigger IndexesOf(plan, w, pass)} | k < pass < |plan.phases| && plan.phases[pass] == plan.phases[k] ::
      IndexesOf(plan, w, pass) == []
  }

  lemma SettledByWork(plan: Plan, w: World, k: nat)
    requires k < |plan.phases| && Works(plan, w, k)
    ensures Settled(plan, w, k)
  {
    forall pass | k < pass < |plan.phases| && plan.phases[pass] == plan.phases[k]
      ensures IndexesOf(plan, w, pass) == []
    {
      RepeatedPhaseIsIdle(plan, w, k, pass);
    }
  }

  lemma LaterPassKeeps(
      plan: Plan, w: World, x: Written, platform: string, pass: nat, k: nat, kind: FileKind, name: string)
    requires RunApart(plan, w) && k < pass < |plan.phases| && Settled(plan, w, k)
    requires MayWrite(plan, w, plan.phases[k], kind) && kind != Unexecuted
    requires ShownAfter(plan, w, x, platform, pass, PathOf(plan.phases[k], kind), name)
    ensures ShownAfter(plan, w, x, platform, pass + 1, PathOf(plan.phases[k], kind), name)
  {
    if Works(plan, w, pass) {
      PassKeeps(plan, w, x, platform, pass, FilesAfter(plan, w, x, platform, pass), plan.phases[k], kind, name);
    }
  }

  lemma {:induction false} LaterPassesKeep(
      plan: Plan, w: World, x: Written, platform: string, k: nat, n: nat, kind: FileKind, name: string)
    requires RunApart(plan, w) && k < n <= |plan.phases| && Settled(plan, w, k)
    requires MayWrite(plan, w, plan.phases[k], kind) && kind != Unexecuted
    requires ShownAfter(plan, w, x, platform, k + 1, PathOf(plan.phases[k], kind), name)
    ensures ShownAfter(plan, w, x, platform, n, PathOf(plan.phases[k], kind), name)
    decreases n
  {
    if k + 1 < n {
      LaterPassesKeep(plan, w, x, platform, k, n - 1, kind, name);
      LaterPassKeeps(plan, w, x, platform, n - 1, k, kind, name);
    }
  }

  lemma {:induction false} GroupsKeep(
      js: JunitState, platform: string, groups: seq<Group>, n: nat, path: string, name: string)
    requires n <= |groups| && ShownAt(js, path, name)
    requires forall g | 0 <= g < n :: path != PathOf(groups[g].phase, Unexecuted)
    ensures ShownAt(WriteGroups(js, platform, groups, n), path, name)
    decreases n
  {
    if n > 0 {
      GroupsKeep(js, platform, groups, n - 1, path, name);
      WriteKeeps(WriteGroups(js, platform, groups, n - 1), platform, groups[n - 1].phase, Unexecuted,
                 groups[n - 1].entries, path, name);
    }
  }

  predicate DistinctGroups(groups: seq<Group>) {
    forall g, h | 0 <= g < h < |groups| :: groups[g].phase != groups[h].phase
  }

  lemma {:induction false} GroupShown(js: JunitState, platform: string, groups: seq<Group>, n: nat, g: nat, j: nat)
    requires DistinctGroups(groups) && g < n <= |groups| && j < |groups[g].entries|
    ensures ShownAt(WriteGroups(js, platform, groups, n), PathOf(groups[g].phase, Unexecuted),
                    groups[g].entries[j].entry.name)
    decreases n
  {
    var before, last := WriteGroups(js, platform, groups, n - 1), groups[n - 1];
    if g == n - 1 {
      WriteShows(before, platform, last.phase, Unexecuted, last.entries, j);
    } else {
      GroupShown(js, platform, groups, n - 1, g, j);
      SamePathIff(groups[g].phase, Unexecuted, last.phase, Unexecuted);
      WriteKeeps(before, platform, last.phase, Unexecuted, last.entries,
                 PathOf(groups[g].phase, Unexecuted), groups[g].entries[j].entry.name);
    }
  }

  predicate Grouped(groups: seq<Group>, e: ResolvedEntry) {
    exists g :: 0 <= g < |groups| && e in groups[g].entries
  }

  lemma GroupedCons(group: Group, groups: seq<Group>, e: ResolvedEntry)
    ensures Grouped([group] + groups, e) <==> e in group.entries || Grouped(groups, e)
  {
    var all := [group] + groups;
    assert all[0] == group;
    assert forall g | 0 <= g < |groups| :: all[g + 1] == groups[g];
  }

  lemma {:induction false} AddToGroupMembers(groups: seq<Group>, phase: string, e: ResolvedEntry, d: ResolvedEntry)
    ensures Grouped(AddToGroup(groups, phase, e), d) <==> Grouped(groups, d) || d == e
  {
    if groups == [] {
      GroupedCons(Group(phase, [e]), [], d);
      assert [Group(phase, [e])] + [] == [Group(phase, [e])];
    } else {
      GroupedCons(groups[0], groups[1..], d);
      assert groups == [groups[0]] + groups[1..];
      if groups[0].phase == phase {
        GroupedCons(Group(phase, groups[0].entries + [e]), groups[1..], d);
      } else {
        AddToGroupMembers(groups[1..], phase, e, d);
        GroupedCons(groups[0], AddToGroup(groups[1..], phase, e), d);
      }
    }
  }

  function PhasesOf(groups: seq<Group>): seq<string> {
    seq(|groups|, g requires 0 <= g < |groups| => groups[g].phase)
  }

  lemma {:induction false} AddToGroupPhases(groups: seq<Group>, phase: string, e: ResolvedEntry)
    ensures PhasesOf(AddToGroup(groups, phase, e))
            == if phase in PhasesOf(groups) then PhasesOf(groups) else PhasesOf(groups) + [phase]
  {
    if groups != [] {
      var tail := AddToGroup(groups[1..], phase, e);
      AddToGroupPhases(groups[1..], phase, e);
      assert PhasesOf(groups) == [groups[0].phase] + PhasesOf(groups[1..]);
      assert PhasesOf([groups[0]] + tail) == [groups[0].phase] + PhasesOf(tail);
    }
  }

  lemma AddToGroupDistinct(groups: seq<Group>, phase: string, e: ResolvedEntry)
    requires DistinctGroups(groups)
    ensures DistinctGroups(AddToGroup(groups, phase, e))
  {
    var r := AddToGroup(groups, phase, e);
    AddToGroupPhases(groups, phase, e);
    assert forall g | 0 <= g < |groups| :: PhasesOf(groups)[g] == groups[g].phase;
    assert forall g | 0 <= g < |r| :: PhasesOf(r)[g] == r[g].phase;
  }

  lemma {:induction false} GroupingKeeps(stepPhases: map<string, string>, entries: seq<ResolvedEntry>)
    ensures DistinctGroups(GroupByPhase(stepPhases, entries))
    ensures forall e | e in entries :: Grouped(GroupByPhase(stepPhases, entries), e)
    decreases |entries|
  {
    if entries != [] {
      var front, last := entries[..|entries| - 1], entries[|entries| - 1];
      GroupingKeeps(stepPhases, front);
      AddToGroupDistinct(GroupByPhase(stepPhases, front), EntryPhase(last.entry, stepPhases), last);
      forall e | e in entries ensures Grouped(GroupByPhase(stepPhases, entries), e) {
        AddToGroupMembers(GroupByPhase(stepPhases, front), EntryPhase(last.entry, stepPhases), last, e);
        assert e in front || e == last;
      }
    }
  }

  lemma LeftOverShown(plan: Plan, w: World, x: Written, platform: string, i: nat) returns (path: string)
    requires i < |plan.entries| && i !in After(plan, w, |plan.phases|).resolved
    ensures ShownAt(FinalFiles(plan, w, x, platform), path, plan.entries[i].name)
  {
    var remaining, groups := RemainingOf(plan, w), LeftOverGroups(plan, w);
    var left := LeftOvers(plan, w, remaining);
    var j :| 0 <= j < |remaining| && remaining[j] == i;
    assert left[j] in left && left[j].entry == plan.entries[i];
    GroupingKeeps(StepPhases(plan.steps), left);
    var g :| 0 <= g < |groups| && left[j] in groups[g].entries;
    var d :| 0 <= d < |groups[g].entries| && groups[g].entries[d] == left[j];
    GroupShown(FilesAfter(plan, w, x, platform, |plan.phases|), platform, groups, |groups|, g, d);
    path := PathOf(groups[g].phase, Unexecuted);
  }

  lemma TakenUpInPass(plan: Plan, w: World, pass: nat, i: nat) returns (j: nat)
    requires pass < |plan.phases| && i in After(plan, w, pass + 1).resolved && i !in After(plan, w, pass).resolved
    ensures Works(plan, w, pass) && j < |IndexesOf(plan, w, pass)| && IndexesOf(plan, w, pass)[j] == i
  {
    PassResolves(plan, w, pass);
    j :| 0 <= j < |IndexesOf(plan, w, pass)| && IndexesOf(plan, w, pass)[j] == i;
  }

  predicate HasOutcome(plan: Plan, w: World, n: nat, i: nat)
    requires n <= |plan.phases|
  {
    i in After(plan, w, n).resolved
  }

  lemma {:induction false} FirstOutcome(plan: Plan, w: World, n: nat, i: nat) returns (pass: nat)
    requires n <= |plan.phases| && HasOutcome(plan, w, n, i)
    ensures pass < n && HasOutcome(plan, w, pass + 1, i) && !HasOutcome(plan, w, pass, i)
    decreases n
  {
    assert n > 0;
    if HasOutcome(plan, w, n - 1, i) {
      pass := FirstOutcome(plan, w, n - 1, i);
    } else {
      pass := n - 1;
    }
  }

  /** The phases of the groups are those of the entries. */
  lemma {:induction false} GroupPhases(stepPhases: map<string, string>, entries: seq<ResolvedEntry>, g: nat)
    requires g < |GroupByPhase(stepPhases, entries)|
    ensures exists j :: 0 <= j < |entries|
                        && EntryPhase(entries[j].entry, stepPhases) == GroupByPhase(stepPhases, entries)[g].phase
    decreases |entries|
  {
    if entries != [] {
      var front, last := entries[..|entries| - 1], entries[|entries| - 1];
      var before := GroupByPhase(stepPhases, front);
      AddToGroupPhases(before, EntryPhase(last.entry, stepPhases), last);
      var after := GroupByPhase(stepPhases, entries);
      assert PhasesOf(after)[g] == after[g].phase;
      if g < |before| {
        assert PhasesOf(before)[g] == before[g].phase;
        GroupPhases(stepPhases, front, g);
        var j :| 0 <= j < |front| && EntryPhase(front[j].entry, stepPhases) == before[g].phase;
        assert entries[j] == front[j];
      }
    }
  }

  lemma LeftOverGroupsUsed(plan: Plan, w: World, g: nat)
    requires g < |LeftOverGroups(plan, w)|
    ensures MayWrite(plan, w, LeftOverGroups(plan, w)[g].phase, Unexecuted)
  {
    var remaining := RemainingOf(plan, w);
    GroupPhases(StepPhases(plan.steps), LeftOvers(plan, w, remaining), g);
    var j :| 0 <= j < |remaining|
             && EntryPhase(LeftOvers(plan, w, remaining)[j].entry, StepPhases(plan.steps))
                == LeftOverGroups(plan, w)[g].phase;
    assert remaining[j] in remaining;
    assert PhaseOf(plan, remaining[j]) == LeftOverGroups(plan, w)[g].phase;
  }

  lemma OutcomeShownByPass(plan: Plan, w: World, x: Written, platform: string, pass: nat, j: nat)
    returns (kind: FileKind)
    requires pass < |plan.phases| && Works(plan, w, pass) && j < |IndexesOf(plan, w, pass)|
    ensures kind != Unexecuted && |Finish(plan, w).validations| == |plan.entries|
    ensures ShownAfter(plan, w, x, platform, pass + 1, PathOf(plan.phases[pass], kind),
                       Finish(plan, w).validations[IndexesOf(plan, w, pass)[j]].entry.name)
  {
    var indexes, js := IndexesOf(plan, w, pass), FilesAfter(plan, w, x, platform, pass);
    OutcomeIsOwn(plan, w, pass, j);
    if w.resolution(pass, indexes[j]).None? {
      kind := ExecutedShown(plan, w, x, platform, pass, js, ReadyBefore(w, pass, indexes, j));
    } else {
      kind := Resolved;
      DecidedShown(plan, w, x, platform, pass, js, j);
    }
  }

  /** Every outcome of the run, under its reported name, is a testcase of the merged
      report, whatever pytest writes: decided beforehand, run, deselected, not
      executed, or run with a missing or unparseable file. */
  lemma EveryOutcomeReported(plan: Plan, w: World, x: Written, platform: string, i: nat) returns (c: Case)
    requires RunApart(plan, w) && i < |plan.entries|
    ensures |Finish(plan, w).validations| == |plan.entries|
    ensures c in AllCases(MergedReport(plan, FinalFiles(plan, w, x, platform)))
    ensures c.name == Finish(plan, w).validations[i].entry.name
  {
    var n, groups, final := |plan.phases|, LeftOverGroups(plan, w), FinalFiles(plan, w, x, platform);
    var path;
    OneOutcomeEach(plan, w);
    FinalResolvedAt(plan, w, i);
    var name := Finish(plan, w).validations[i].entry.name;
    if i in After(plan, w, n).resolved {
      var pass := FirstOutcome(plan, w, n, i);
      var j := TakenUpInPass(plan, w, pass, i);
      var kind := OutcomeShownByPass(plan, w, x, platform, pass, j);
      PassUses(plan, w, pass);
      SettledByWork(plan, w, pass);
      LaterPassesKeep(plan, w, x, platform, pass, n, kind, name);
      path := PathOf(plan.phases[pass], kind);
      forall g | 0 <= g < |groups| ensures path != PathOf(groups[g].phase, Unexecuted) {
        LeftOverGroupsUsed(plan, w, g);
        PathsApart(plan, w, plan.phases[pass], kind, groups[g].phase, Unexecuted);
      }
      GroupsKeep(FilesAfter(plan, w, x, platform, n), platform, groups, |groups|, path, name);
    } else {
      path := LeftOverShown(plan, w, x, platform, i);
    }
    c := ShownReachesReport(plan, final, path, name);
  }
}
