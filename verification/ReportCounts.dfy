/** How often an outcome appears in the merged report, and what the counters of its
    suites say. */
module ReportCounts {
  import opened JUnit
  import opened Json
  import opened PhaseMachine
  import opened PhaseReports
  import opened RunResult
  import opened StableOrder
  import opened Validations

  // ---- Testcases by name ----

  function CaseCalled(name: string): Case -> bool {
    (c: Case) => c.name == name
  }

  function OutcomeCalled(name: string): ResolvedEntry -> bool {
    (r: ResolvedEntry) => r.entry.name == name
  }

  function CaseCount(cases: seq<Case>, name: string): nat {
    |Filter(cases, CaseCalled(name))|
  }

  /** How many outcomes are reported under the name. */
  function OutcomeCount(outcomes: seq<ResolvedEntry>, name: string): nat {
    |Filter(outcomes, OutcomeCalled(name))|
  }

  /** How many testcases of the suites have the name. */
  function Total(suites: seq<Suite>, name: string): nat {
    if suites == [] then 0
    else Total(suites[..|suites| - 1], name) + CaseCount(Cases(suites[|suites| - 1].children), name)
  }

  lemma CaseCountConcat(a: seq<Case>, b: seq<Case>, name: string)
    ensures CaseCount(a + b, name) == CaseCount(a, name) + CaseCount(b, name)
  {
    FilterConcat(a, b, CaseCalled(name));
  }

  lemma OutcomeCountConcat(a: seq<ResolvedEntry>, b: seq<ResolvedEntry>, name: string)
    ensures OutcomeCount(a + b, name) == OutcomeCount(a, name) + OutcomeCount(b, name)
  {
    FilterConcat(a, b, OutcomeCalled(name));
  }

  lemma OutcomeCountOne(r: ResolvedEntry, name: string)
    ensures OutcomeCount([r], name) == if r.entry.name == name then 1 else 0
  {
    FilterSnoc([], r, OutcomeCalled(name));
    assert [] + [r] == [r];
  }

  lemma CaseCountOne(c: Case, name: string)
    ensures CaseCount([c], name) == if c.name == name then 1 else 0
  {
    FilterSnoc([], c, CaseCalled(name));
    assert [] + [c] == [c];
  }

  lemma TotalOne(suite: Suite, name: string)
    ensures Total([suite], name) == CaseCount(Cases(suite.children), name)
  {
    assert [suite][..0] == [];
  }

  lemma {:induction false} TotalConcat(a: seq<Suite>, b: seq<Suite>, name: string)
    ensures Total(a + b, name) == Total(a, name) + Total(b, name)
    decreases |b|
  {
    if b == [] {
      assert a + b == a;
    } else {
      assert (a + b)[..|a + b| - 1] == a + b[..|b| - 1];
      TotalConcat(a, b[..|b| - 1], name);
    }
  }

  lemma {:induction false} TotalUpdate(suites: seq<Suite>, i: nat, s: Suite, name: string)
    requires i < |suites|
    ensures Total(suites[i := s], name)
            == Total(suites, name) - CaseCount(Cases(suites[i].children), name) + CaseCount(Cases(s.children), name)
    decreases |suites|
  {
    var last := |suites| - 1;
    if i == last {
      assert suites[i := s][..last] == suites[..last];
    } else {
      assert suites[i := s][..last] == suites[..last][i := s];
      TotalUpdate(suites[..last], i, s, name);
    }
  }

  lemma AddSuiteTotal(before: seq<Suite>, s: Suite, name: string)
    ensures Total(AddSuite(before, s), name) == Total(before, name) + CaseCount(Cases(s.children), name)
  {
    IndexOfFinds(before, s.name);
    match IndexOf(before, s.name)
    case None =>
      assert (before + [s])[..|before|] == before;
    case Some(i) =>
      FoldCases(before[i], s);
      CaseCountConcat(Cases(before[i].children), Cases(s.children), name);
      TotalUpdate(before, i, Fold(before[i], s), name);
  }

  lemma {:induction false} MergeTotal(suites: seq<Suite>, name: string)
    ensures Total(MergeSuites(suites), name) == Total(suites, name)
  {
    if suites != [] {
      MergeTotal(suites[..|suites| - 1], name);
      AddSuiteTotal(MergeSuites(suites[..|suites| - 1]), suites[|suites| - 1], name);
    }
  }

  lemma {:induction false} InsertCount<T(!new)>(s: seq<T>, x: T, key: T -> nat, p: T -> bool)
    ensures |Filter(Insert(s, x, key), p)| == |Filter(s, p)| + if p(x) then 1 else 0
    decreases |s|
  {
    if s == [] || key(s[|s| - 1]) <= key(x) {
      FilterSnoc(s, x, p);
    } else {
      InsertCount(s[..|s| - 1], x, key, p);
      FilterSnoc(Insert(s[..|s| - 1], x, key), s[|s| - 1], p);
    }
  }

  lemma {:induction false} SortCount<T(!new)>(s: seq<T>, key: T -> nat, p: T -> bool)
    ensures |Filter(StableSort(s, key), p)| == |Filter(s, p)|
    decreases |s|
  {
    if s != [] {
      SortCount(s[..|s| - 1], key, p);
      InsertCount(StableSort(s[..|s| - 1], key), s[|s| - 1], key, p);
    }
  }

  lemma {:induction false} SortTotal(suites: seq<Suite>, order: seq<string>, name: string)
    ensures Total(SortSuites(suites, order), name) == Total(suites, name)
    decreases |suites|
  {
    if suites != [] {
      var front, last := suites[..|suites| - 1], suites[|suites| - 1];
      SortTotal(front, order, name);
      assert SortSuites(suites, order)[..|front|] == SortSuites(front, order);
      SortedChildrenParts(last.children, order);
      SortCount(Cases(last.children), CaseRank(order), CaseCalled(name));
    }
  }

  lemma ReportTotal(files: seq<Option<XmlFile>>, order: seq<string>, name: string)
    ensures Total(MergeReport(files, order), name) == Total(AllSuites(files), name)
  {
    MergeTotal(AllSuites(files), name);
    SortTotal(MergeSuites(AllSuites(files)), order, name);
  }

  lemma {:induction false} TotalIsPositiveIff(suites: seq<Suite>, name: string)
    ensures Total(suites, name) > 0 <==> exists s :: 0 <= s < |suites| && SuiteNames(suites[s], name)
    decreases |suites|
  {
    if suites != [] {
      var front, last := suites[..|suites| - 1], suites[|suites| - 1];
      TotalIsPositiveIff(front, name);
      CountIsPositiveIff(last, name);
      if s :| 0 <= s < |front| && SuiteNames(front[s], name) {
        assert SuiteNames(suites[s], name);
      }
      if s :| 0 <= s < |suites| && SuiteNames(suites[s], name) {
        assert s < |front| ==> SuiteNames(front[s], name);
      }
    }
  }

  lemma CountIsPositiveIff(suite: Suite, name: string)
    ensures CaseCount(Cases(suite.children), name) > 0 <==> SuiteNames(suite, name)
  {
    var cases, called := Cases(suite.children), Filter(Cases(suite.children), CaseCalled(name));
    FilterMembers(cases, CaseCalled(name));
    if called != [] {
      assert called[0] in called;
    }
    if k :| 0 <= k < |cases| && cases[k].name == name {
      assert cases[k] in called;
    }
  }

  // ---- Files ----

  /** How many testcases of the listed files have the name. */
  function FilesTotal(js: JunitState, name: string): nat {
    Total(AllSuites(Contents(js)), name)
  }

  /** Listing one more file adds what it holds, whatever is listed already. */
  lemma ListedAdds(js: JunitState, dir: map<string, XmlFile>, path: string, name: string)
    requires forall p | p in js.files :: FileAt(dir, p) == FileAt(js.dir, p)
    ensures FilesTotal(JunitState(dir, js.files + [path]), name)
            == FilesTotal(js, name) + Total(SuitesOf(FileAt(dir, path)), name)
  {
    var after := Contents(JunitState(dir, js.files + [path]));
    assert after[..|js.files|] == Contents(js);
    TotalConcat(AllSuites(Contents(js)), SuitesOf(FileAt(dir, path)), name);
  }

  lemma {:induction false} StubCount(entries: seq<ResolvedEntry>, name: string)
    ensures CaseCount(Cases(StubCases(entries)), name) == OutcomeCount(entries, name)
    decreases |entries|
  {
    if entries != [] {
      var front, last := entries[..|entries| - 1], entries[|entries| - 1];
      StubCount(front, name);
      assert StubCases(entries)[..|front|] == StubCases(front);
      CaseCountConcat(Cases(StubCases(front)), [Case(0, last.entry.name)], name);
      CaseCountOne(Case(0, last.entry.name), name);
      OutcomeCountConcat(front, [last], name);
      OutcomeCountOne(last, name);
      assert entries == front + [last];
    }
  }

  lemma StubTotal(entries: seq<ResolvedEntry>, suiteName: string, name: string)
    ensures Total(SuitesOf(Some(Stub(entries, suiteName))), name) == OutcomeCount(entries, name)
  {
    StubCount(entries, name);
    TotalOne(Stub(entries, suiteName).suite, name);
  }

  lemma StubAdds(
      js: JunitState, platform: string, phase: string, kind: FileKind, entries: seq<ResolvedEntry>, name: string)
    requires PathOf(phase, kind) !in js.files
    ensures FilesTotal(WriteStub(js, platform, phase, kind, entries), name)
            == FilesTotal(js, name) + OutcomeCount(entries, name)
  {
    if entries != [] {
      var file := Stub(entries, SuiteName(platform, phase));
      ListedAdds(js, js.dir[PathOf(phase, kind) := file], PathOf(phase, kind), name);
      StubTotal(entries, SuiteName(platform, phase), name);
    }
  }

  // ---- One pass ----

  /** Pytest's file of a pass has no testcase of this name, or one for each executed
      entry reported under it. */
  predicate Faithful(plan: Plan, w: World, x: Written, pass: nat, name: string)
    requires pass < |plan.phases|
  {
    ReadyOf(plan, w, pass) != [] && x(pass).Some? ==>
      Accounts(x(pass), ExecutedOf(plan, w, pass), name)
  }

  predicate Accounts(file: Option<XmlFile>, executed: seq<ResolvedEntry>, name: string) {
    || Total(SuitesOf(file), name) == 0
    || (name != "" && Total(SuitesOf(file), name) == OutcomeCount(executed, name))
  }

  lemma {:induction false} FilteredCount(entries: seq<ResolvedEntry>, keep: ResolvedEntry -> bool, name: string)
    ensures (forall r | r in entries && r.entry.name == name :: keep(r)) ==>
              OutcomeCount(Filter(entries, keep), name) == OutcomeCount(entries, name)
    ensures (forall r | r in entries && r.entry.name == name :: !keep(r)) ==>
              OutcomeCount(Filter(entries, keep), name) == 0
    decreases |entries|
  {
    if entries != [] {
      var front, last := entries[..|entries| - 1], entries[|entries| - 1];
      assert entries == front + [last] && last in entries;
      assert forall r | r in front :: r in entries;
      FilteredCount(front, keep, name);
      FilterSnoc(front, last, keep);
      assert Filter(front, keep) + [] == Filter(front, keep);
      OutcomeCountConcat(front, [last], name);
      OutcomeCountConcat(Filter(front, keep), [last], name);
      OutcomeCountOne(last, name);
    }
  }

  lemma MissingCount(executed: seq<ResolvedEntry>, file: Option<XmlFile>, name: string)
    requires Accounts(file, executed, name)
    ensures Total(SuitesOf(file), name) + OutcomeCount(Missing(executed, file), name) == OutcomeCount(executed, name)
  {
    if file.Some? && !file.value.Unparseable? {
      TotalIsPositiveIff(SuitesOf(file), name);
      FilteredCount(executed, (r: ResolvedEntry) => r.entry.name == "" || !FileNames(file.value, r.entry.name), name);
    }
  }

  lemma DecidedSnoc(plan: Plan, w: World, pass: nat, front: seq<nat>, i: nat)
    requires InRange(plan, front) && i < |plan.entries|
    ensures InRange(plan, front + [i])
    ensures PreResolved(plan, w, pass, front + [i])
            == PreResolved(plan, w, pass, front)
               + if w.resolution(pass, i).Some? then [ResolvedAt(plan, w, pass, i)] else []
  {
    FilterSnoc(front, i, NotReadyAt(w, pass));
    FilterInRange(plan, front, NotReadyAt(w, pass));
    FilterInRange(plan, front + [i], NotReadyAt(w, pass));
  }

  /** The outcomes of a pass are the decided ones and the executed ones. */
  lemma {:induction false} WeaveCount(
      plan: Plan, w: World, pass: nat, indexes: seq<nat>, executed: seq<ResolvedEntry>, name: string)
    requires InRange(plan, indexes) && |executed| == |ReadyIndexes(w, pass, indexes)|
    ensures OutcomeCount(Weave(plan, w, pass, indexes, executed), name)
            == OutcomeCount(PreResolved(plan, w, pass, indexes), name) + OutcomeCount(executed, name)
    decreases |indexes|
  {
    if indexes != [] {
      var front, i := indexes[..|indexes| - 1], indexes[|indexes| - 1];
      assert indexes == front + [i];
      DecidedSnoc(plan, w, pass, front, i);
      if ReadyAt(w, pass)(i) {
        var done, last := executed[..|executed| - 1], executed[|executed| - 1];
        assert executed == done + [last];
        assert PreResolved(plan, w, pass, front) + [] == PreResolved(plan, w, pass, front);
        assert Weave(plan, w, pass, indexes, executed) == Weave(plan, w, pass, front, done) + [last];
        WeaveCount(plan, w, pass, front, done, name);
        OutcomeCountConcat(Weave(plan, w, pass, front, done), [last], name);
        OutcomeCountConcat(done, [last], name);
      } else {
        var decided := [ResolvedAt(plan, w, pass, i)];
        WeaveCount(plan, w, pass, front, executed, name);
        OutcomeCountConcat(Weave(plan, w, pass, front, executed), decided, name);
        OutcomeCountConcat(PreResolved(plan, w, pass, front), decided, name);
      }
    }
  }

  /** None of the pass's own files is there yet. */
  predicate Untouched(js: JunitState, phase: string) {
    && PathOf(phase, Plain) !in js.dir
    && forall kind | kind != Unexecuted :: PathOf(phase, kind) !in js.files
  }

  /** Writing and listing a file that may not be there adds what it holds. */
  lemma MaybeListed(js: JunitState, path: string, file: Option<XmlFile>, name: string)
    requires path !in js.dir && path !in js.files
    ensures var dir := if file.Some? then js.dir[path := file.value] else js.dir;
            var after := JunitState(dir, if path in dir then js.files + [path] else js.files);
            FilesTotal(after, name) == FilesTotal(js, name) + Total(SuitesOf(file), name)
  {
    if file.Some? {
      ListedAdds(js, js.dir[path := file.value], path, name);
    }
  }

  function PytestFile(plan: Plan, w: World, x: Written, pass: nat): Option<XmlFile>
    requires pass < |plan.phases|
  {
    if ReadyOf(plan, w, pass) != [] then x(pass) else None
  }

  function Stubbed(plan: Plan, w: World, platform: string, pass: nat, js: JunitState): JunitState
    requires pass < |plan.phases|
  {
    WriteStub(js, platform, plan.phases[pass], Resolved, PreResolved(plan, w, pass, IndexesOf(plan, w, pass)))
  }

  lemma StubbedIsNew(plan: Plan, w: World, platform: string, pass: nat, js: JunitState)
    requires pass < |plan.phases| && Untouched(js, plan.phases[pass])
    ensures var stubbed, phase := Stubbed(plan, w, platform, pass, js), plan.phases[pass];
            && PathOf(phase, Plain) !in stubbed.dir && PathOf(phase, Plain) !in stubbed.files
            && PathOf(phase, Deselected) !in stubbed.files && PathOf(phase, Deselected) != PathOf(phase, Plain)
  {
    var phase := plan.phases[pass];
    OwnPathsApart(phase, Plain, Resolved);
    OwnPathsApart(phase, Plain, Deselected);
    OwnPathsApart(phase, Resolved, Deselected);
  }

  /** Pytest's file, once the stub of the decided entries is written. */
  lemma PytestListed(plan: Plan, w: World, x: Written, platform: string, pass: nat, js: JunitState, name: string)
    requires pass < |plan.phases| && Untouched(js, plan.phases[pass])
    ensures var js1, file := PytestFiles(plan, w, x, platform, pass, js), PytestFile(plan, w, x, pass);
            && FilesTotal(js1, name)
               == FilesTotal(Stubbed(plan, w, platform, pass, js), name) + Total(SuitesOf(file), name)
            && FileAt(js1.dir, PathOf(plan.phases[pass], Plain)) == file
            && PathOf(plan.phases[pass], Deselected) !in js1.files
  {
    StubbedIsNew(plan, w, platform, pass, js);
    MaybeListed(Stubbed(plan, w, platform, pass, js), PathOf(plan.phases[pass], Plain),
                PytestFile(plan, w, x, pass), name);
  }

  /** A pass adds as many testcases of the name as outcomes. */
  lemma PassAdds(plan: Plan, w: World, x: Written, platform: string, pass: nat, js: JunitState, name: string)
    requires pass < |plan.phases| && Untouched(js, plan.phases[pass]) && Faithful(plan, w, x, pass, name)
    ensures FilesTotal(PassFiles(plan, w, x, platform, pass, js), name)
            == FilesTotal(js, name) + OutcomeCount(Terminals(plan, w, pass, IndexesOf(plan, w, pass)), name)
  {
    var js1 := PytestFiles(plan, w, x, platform, pass, js);
    var file, executed := PytestFile(plan, w, x, pass), ExecutedOf(plan, w, pass);
    PytestListed(plan, w, x, platform, pass, js, name);
    StubAdds(js, platform, plan.phases[pass], Resolved, PreResolved(plan, w, pass, IndexesOf(plan, w, pass)), name);
    MissingCount(executed, file, name);
    StubAdds(js1, platform, plan.phases[pass], Deselected, Missing(executed, file), name);
    WeaveCount(plan, w, pass, IndexesOf(plan, w, pass), executed, name);
  }

  lemma IdleAdds(plan: Plan, w: World, x: Written, platform: string, pass: nat, js: JunitState, name: string)
    requires pass < |plan.phases| && IndexesOf(plan, w, pass) == [] && PathOf(plan.phases[pass], Plain) !in js.dir
    ensures FilesTotal(PassFiles(plan, w, x, platform, pass, js), name)
            == FilesTotal(js, name) + OutcomeCount(Terminals(plan, w, pass, IndexesOf(plan, w, pass)), name)
  {
    IdleFiles(plan, w, x, platform, pass, js);
    assert PassFiles(plan, w, x, platform, pass, js) == js;
  }

  // ---- Outcomes in index order ----

  lemma NextInOrder(resolved: map<nat, ResolvedEntry>, i: nat, name: string)
    ensures OutcomeCount(InIndexOrder(resolved, i + 1), name)
            == OutcomeCount(InIndexOrder(resolved, i), name)
               + if i in resolved && resolved[i].entry.name == name then 1 else 0
  {
    if i in resolved {
      OutcomeCountConcat(InIndexOrder(resolved, i), [resolved[i]], name);
      OutcomeCountOne(resolved[i], name);
    } else {
      assert InIndexOrder(resolved, i) + [] == InIndexOrder(resolved, i);
    }
  }

  lemma {:induction false} UpdateCount(
      resolved: map<nat, ResolvedEntry>, n: nat, i: nat, r: ResolvedEntry, name: string)
    requires i !in resolved
    ensures OutcomeCount(InIndexOrder(resolved[i := r], n), name)
            == OutcomeCount(InIndexOrder(resolved, n), name) + if i < n && r.entry.name == name then 1 else 0
    decreases n
  {
    if n > 0 {
      UpdateCount(resolved, n - 1, i, r, name);
      NextInOrder(resolved, n - 1, name);
      NextInOrder(resolved[i := r], n - 1, name);
    }
  }

  /** Recording outcomes for entries that have none counts each of them. */
  lemma {:induction false} RecordCount(
      resolved: map<nat, ResolvedEntry>, indexes: seq<nat>, terminals: seq<ResolvedEntry>, n: nat, name: string)
    requires |indexes| == |terminals| && Increasing(indexes)
    requires forall j | 0 <= j < |indexes| :: indexes[j] < n && indexes[j] !in resolved
    ensures OutcomeCount(InIndexOrder(Record(resolved, indexes, terminals), n), name)
            == OutcomeCount(InIndexOrder(resolved, n), name) + OutcomeCount(terminals, name)
    decreases |indexes|
  {
    if indexes != [] {
      var last := |indexes| - 1;
      var before := Record(resolved, indexes[..last], terminals[..last]);
      RecordCount(resolved, indexes[..last], terminals[..last], n, name);
      RecordKeys(resolved, indexes[..last], terminals[..last]);
      UpdateCount(before, n, indexes[last], terminals[last], name);
      assert terminals == terminals[..last] + [terminals[last]];
      OutcomeCountConcat(terminals[..last], [terminals[last]], name);
      OutcomeCountOne(terminals[last], name);
    }
  }

  // ---- The whole run ----

  /** No two passes of a phase with validations work. */
  predicate WorksOnce(plan: Plan, w: World) {
    forall j, k {:trigger plan.phases[j], plan.phases[k]}
      | 0 <= j < k < |plan.phases| && Works(plan, w, j) && Works(plan, w, k) && Used(plan, plan.phases[j]) ::
        plan.phases[j] != plan.phases[k]
  }

  /** No phase that works is named like a stub the run may write. */
  ghost predicate ListsApart(plan: Plan, w: World) {
    forall k, q, kind {:trigger plan.phases[k], MayWrite(plan, w, q, kind)}
      | 0 <= k < |plan.phases| && Works(plan, w, k) && MayWrite(plan, w, q, kind) && kind != Plain ::
        plan.phases[k] != q + Suffix(kind)
  }

  /** A file of one of the first `n` passes. */
  predicate PassPath(plan: Plan, w: World, n: nat, path: string)
    requires n <= |plan.phases|
  {
    exists k, kind :: 0 <= k < n && IsPassPath(plan, w, k, kind, path)
  }

  predicate IsPassPath(plan: Plan, w: World, k: nat, kind: FileKind, path: string)
    requires k < |plan.phases|
  {
    Works(plan, w, k) && IndexesOf(plan, w, k) != [] && kind != Unexecuted && path == PathOf(plan.phases[k], kind)
  }

  predicate There(js: JunitState, path: string) {
    path in js.files || path in js.dir
  }

  /** Pass `k` lists the path for the first time. */
  predicate ListsIn(plan: Plan, w: World, k: nat, path: string)
    requires k < |plan.phases|
  {
    exists kind :: kind != Unexecuted && IsPassPath(plan, w, k, kind, path)
  }

  lemma OnlyOwnPaths(plan: Plan, w: World, x: Written, platform: string, pass: nat, js: JunitState, path: string)
    requires pass < |plan.phases| && forall kind | kind != Unexecuted :: path != PathOf(plan.phases[pass], kind)
    requires var after := PassFiles(plan, w, x, platform, pass, js); path in after.files || path in after.dir
    ensures path in js.files || path in js.dir
  {
    var phase := plan.phases[pass];
    assert path != PathOf(phase, Resolved) && path != PathOf(phase, Plain) && path != PathOf(phase, Deselected);
    var js1 := PytestFiles(plan, w, x, platform, pass, js);
    assert path in js1.files || path in js1.dir;
  }

  lemma FilesNeedEntries(plan: Plan, w: World, x: Written, platform: string, pass: nat, js: JunitState, path: string)
    requires pass < |plan.phases| && !There(js, path) && There(PassFiles(plan, w, x, platform, pass, js), path)
    ensures Works(plan, w, pass) ==> ListsIn(plan, w, pass, path)
  {
    if IndexesOf(plan, w, pass) == [] {
      IdleFiles(plan, w, x, platform, pass, js);
    } else if kind :| kind != Unexecuted && path == PathOf(plan.phases[pass], kind) {
      assert Works(plan, w, pass) ==> IsPassPath(plan, w, pass, kind, path);
    } else {
      OnlyOwnPaths(plan, w, x, platform, pass, js, path);
    }
  }

  // The files after each number of passes, as a function of that number.

  type Listing = nat -> JunitState

  function ListingOf(plan: Plan, w: World, x: Written, platform: string): Listing {
    (n: nat) => if n <= |plan.phases| then FilesAfter(plan, w, x, platform, n) else JunitState(map[], [])
  }

  lemma ListingStep(plan: Plan, w: World, x: Written, platform: string, k: nat)
    requires k < |plan.phases|
    ensures var f := ListingOf(plan, w, x, platform);
            f(k + 1) == if Works(plan, w, k) then PassFiles(plan, w, x, platform, k, f(k)) else f(k)
  {
  }

  lemma {:induction false} FirstThere(f: Listing, n: nat, path: string) returns (k: nat)
    requires !There(f(0), path) && There(f(n), path)
    ensures k < n && !There(f(k), path) && There(f(k + 1), path)
    decreases n
  {
    if There(f(n - 1), path) {
      k := FirstThere(f, n - 1, path);
    } else {
      k := n - 1;
    }
  }

  lemma PathComesFrom(plan: Plan, w: World, k: nat, path: string, before: JunitState, after: JunitState,
                      x: Written, platform: string)
    requires k < |plan.phases| && !There(before, path) && There(after, path)
    requires after == if Works(plan, w, k) then PassFiles(plan, w, x, platform, k, before) else before
    ensures ListsIn(plan, w, k, path)
  {
    FilesNeedEntries(plan, w, x, platform, k, before, path);
  }

  lemma ListedInPass(plan: Plan, w: World, n: nat, k: nat, path: string)
    requires k < n <= |plan.phases| && ListsIn(plan, w, k, path)
    ensures PassPath(plan, w, n, path)
  {
  }

  lemma FilesAreOwn(plan: Plan, w: World, x: Written, platform: string, n: nat, path: string)
    requires n <= |plan.phases| && There(FilesAfter(plan, w, x, platform, n), path)
    ensures PassPath(plan, w, n, path)
  {
    var f := ListingOf(plan, w, x, platform);
    var k := FirstThere(f, n, path);
    ListingStep(plan, w, x, platform, k);
    PathComesFrom(plan, w, k, path, f(k), f(k + 1), x, platform);
    ListedInPass(plan, w, n, k, path);
  }

  /** A file of another kind than pytest's needs validations in the pass. */
  predicate CanList(plan: Plan, w: World, pass: nat, l: FileKind)
    requires pass < |plan.phases|
  {
    Works(plan, w, pass) && l != Unexecuted && (l != Plain ==> IndexesOf(plan, w, pass) != [])
  }

  lemma PassesApart(plan: Plan, w: World, k: nat, kind: FileKind, pass: nat, l: FileKind)
    requires k < pass < |plan.phases| && WorksOnce(plan, w) && ListsApart(plan, w) && CanList(plan, w, pass, l)
    requires Works(plan, w, k) && IndexesOf(plan, w, k) != [] && kind != Unexecuted
    ensures PathOf(plan.phases[k], kind) != PathOf(plan.phases[pass], l)
  {
    SamePathIff(plan.phases[k], kind, plan.phases[pass], l);
    PassUses(plan, w, k);
    assert MayWrite(plan, w, plan.phases[k], kind) && plan.phases[k] != plan.phases[pass];
    if l != Plain {
      PassUses(plan, w, pass);
      assert MayWrite(plan, w, plan.phases[pass], l);
    }
  }

  /** A pass does not meet the files of earlier ones. */
  lemma NewPath(plan: Plan, w: World, pass: nat, l: FileKind)
    requires pass < |plan.phases| && WorksOnce(plan, w) && ListsApart(plan, w) && CanList(plan, w, pass, l)
    ensures !PassPath(plan, w, pass, PathOf(plan.phases[pass], l))
  {
    if k, kind :| 0 <= k < pass && IsPassPath(plan, w, k, kind, PathOf(plan.phases[pass], l)) {
      PassesApart(plan, w, k, kind, pass, l);
      assert false;
    }
  }

  lemma NewPathIsGone(plan: Plan, w: World, x: Written, platform: string, pass: nat, l: FileKind)
    requires pass < |plan.phases| && WorksOnce(plan, w) && ListsApart(plan, w)
    requires CanList(plan, w, pass, l)
    ensures !There(FilesAfter(plan, w, x, platform, pass), PathOf(plan.phases[pass], l))
  {
    var path := PathOf(plan.phases[pass], l);
    NewPath(plan, w, pass, l);
    if There(FilesAfter(plan, w, x, platform, pass), path) {
      FilesAreOwn(plan, w, x, platform, pass, path);
    }
  }

  lemma WorkingPassCounts(plan: Plan, w: World, x: Written, platform: string, pass: nat, name: string)
    requires pass < |plan.phases| && Works(plan, w, pass) && WorksOnce(plan, w) && ListsApart(plan, w)
    requires Faithful(plan, w, x, pass, name)
    ensures FilesTotal(FilesAfter(plan, w, x, platform, pass + 1), name)
            == FilesTotal(FilesAfter(plan, w, x, platform, pass), name)
               + OutcomeCount(Terminals(plan, w, pass, IndexesOf(plan, w, pass)), name)
  {
    var js := FilesAfter(plan, w, x, platform, pass);
    NewPathIsGone(plan, w, x, platform, pass, Plain);
    if IndexesOf(plan, w, pass) == [] {
      IdleAdds(plan, w, x, platform, pass, js, name);
    } else {
      NewPathIsGone(plan, w, x, platform, pass, Resolved);
      NewPathIsGone(plan, w, x, platform, pass, Deselected);
      PassAdds(plan, w, x, platform, pass, js, name);
    }
  }

  lemma PassResolvesCount(plan: Plan, w: World, pass: nat, name: string)
    requires pass < |plan.phases| && Works(plan, w, pass)
    ensures OutcomeCount(InIndexOrder(After(plan, w, pass + 1).resolved, |plan.entries|), name)
            == OutcomeCount(InIndexOrder(After(plan, w, pass).resolved, |plan.entries|), name)
               + OutcomeCount(Terminals(plan, w, pass, IndexesOf(plan, w, pass)), name)
  {
    var indexes := IndexesOf(plan, w, pass);
    PassResolves(plan, w, pass);
    IndexesIff(plan, w, pass);
    assert forall j | 0 <= j < |indexes| :: indexes[j] in indexes;
    RecordCount(After(plan, w, pass).resolved, indexes, Terminals(plan, w, pass, indexes), |plan.entries|, name);
  }

  predicate AllFaithful(plan: Plan, w: World, x: Written, name: string) {
    forall pass | 0 <= pass < |plan.phases| && Works(plan, w, pass) :: Faithful(plan, w, x, pass, name)
  }

  lemma {:induction false} NoneResolved(n: nat)
    ensures InIndexOrder(map[], n) == []
  {
    if n > 0 {
      NoneResolved(n - 1);
    }
  }

  /** Testcases of the name in the files, and outcomes under it, after each number of passes. */
  function FileTotals(plan: Plan, w: World, x: Written, platform: string, name: string): nat -> nat {
    (n: nat) => if n <= |plan.phases| then FilesTotal(FilesAfter(plan, w, x, platform, n), name) else 0
  }

  function OutcomeTotals(plan: Plan, w: World, name: string): nat -> nat {
    (n: nat) =>
      if n <= |plan.phases| then OutcomeCount(InIndexOrder(After(plan, w, n).resolved, |plan.entries|), name) else 0
  }

  /** How many outcomes under the name a pass makes. */
  function PassCount(plan: Plan, w: World, name: string): nat -> nat {
    (k: nat) =>
      if k < |plan.phases| && Works(plan, w, k) then OutcomeCount(Terminals(plan, w, k, IndexesOf(plan, w, k)), name)
      else 0
  }

  predicate StepsBy(f: nat -> nat, d: nat -> nat, k: nat) {
    f(k + 1) == f(k) + d(k)
  }

  lemma {:induction false} SameSteps(f: nat -> nat, g: nat -> nat, d: nat -> nat, n: nat)
    requires f(0) == g(0) && forall k | 0 <= k < n :: StepsBy(f, d, k) && StepsBy(g, d, k)
    ensures f(n) == g(n)
    decreases n
  {
    if n > 0 {
      SameSteps(f, g, d, n - 1);
      assert StepsBy(f, d, n - 1) && StepsBy(g, d, n - 1);
    }
  }

  lemma FilesStepBy(plan: Plan, w: World, x: Written, platform: string, k: nat, name: string)
    requires k < |plan.phases| && WorksOnce(plan, w) && ListsApart(plan, w)
    requires Works(plan, w, k) ==> Faithful(plan, w, x, k, name)
    ensures StepsBy(FileTotals(plan, w, x, platform, name), PassCount(plan, w, name), k)
  {
    if Works(plan, w, k) {
      WorkingPassCounts(plan, w, x, platform, k, name);
    }
  }

  lemma OutcomesStepBy(plan: Plan, w: World, k: nat, name: string)
    requires k < |plan.phases|
    ensures StepsBy(OutcomeTotals(plan, w, name), PassCount(plan, w, name), k)
  {
    if Works(plan, w, k) {
      PassResolvesCount(plan, w, k, name);
    } else {
      IdlePass(plan, w, k);
    }
  }

  lemma PassesCount(plan: Plan, w: World, x: Written, platform: string, name: string)
    requires WorksOnce(plan, w) && ListsApart(plan, w) && AllFaithful(plan, w, x, name)
    ensures FilesTotal(FilesAfter(plan, w, x, platform, |plan.phases|), name)
            == OutcomeCount(InIndexOrder(After(plan, w, |plan.phases|).resolved, |plan.entries|), name)
  {
    var f, g := FileTotals(plan, w, x, platform, name), OutcomeTotals(plan, w, name);
    var d := PassCount(plan, w, name);
    NoneResolved(|plan.entries|);
    forall k | 0 <= k < |plan.phases| ensures StepsBy(f, d, k) && StepsBy(g, d, k) {
      FilesStepBy(plan, w, x, platform, k, name);
      OutcomesStepBy(plan, w, k, name);
    }
    SameSteps(f, g, d, |plan.phases|);
  }

  // ---- After the loop ----

  function GroupTotal(groups: seq<Group>, name: string): nat {
    if groups == [] then 0
    else GroupTotal(groups[..|groups| - 1], name) + OutcomeCount(groups[|groups| - 1].entries, name)
  }

  lemma {:induction false} GroupTotalConcat(a: seq<Group>, b: seq<Group>, name: string)
    ensures GroupTotal(a + b, name) == GroupTotal(a, name) + GroupTotal(b, name)
    decreases |b|
  {
    if b == [] {
      assert a + b == a;
    } else {
      assert (a + b)[..|a + b| - 1] == a + b[..|b| - 1];
      GroupTotalConcat(a, b[..|b| - 1], name);
    }
  }

  lemma GroupTotalCons(group: Group, groups: seq<Group>, name: string)
    ensures GroupTotal([group] + groups, name) == OutcomeCount(group.entries, name) + GroupTotal(groups, name)
  {
    GroupTotalConcat([group], groups, name);
    assert [group][..0] == [];
  }

  lemma {:induction false} AddToGroupTotal(groups: seq<Group>, phase: string, e: ResolvedEntry, name: string)
    ensures GroupTotal(AddToGroup(groups, phase, e), name)
            == GroupTotal(groups, name) + if e.entry.name == name then 1 else 0
  {
    OutcomeCountOne(e, name);
    if groups == [] {
      GroupTotalCons(Group(phase, [e]), [], name);
      assert [Group(phase, [e])] + [] == [Group(phase, [e])];
    } else {
      GroupTotalCons(groups[0], groups[1..], name);
      assert groups == [groups[0]] + groups[1..];
      if groups[0].phase == phase {
        OutcomeCountConcat(groups[0].entries, [e], name);
        GroupTotalCons(Group(phase, groups[0].entries + [e]), groups[1..], name);
      } else {
        AddToGroupTotal(groups[1..], phase, e, name);
        GroupTotalCons(groups[0], AddToGroup(groups[1..], phase, e), name);
      }
    }
  }

  lemma {:induction false} GroupingTotal(stepPhases: map<string, string>, entries: seq<ResolvedEntry>, name: string)
    ensures GroupTotal(GroupByPhase(stepPhases, entries), name) == OutcomeCount(entries, name)
    decreases |entries|
  {
    if entries != [] {
      var front, last := entries[..|entries| - 1], entries[|entries| - 1];
      assert entries == front + [last];
      GroupingTotal(stepPhases, front, name);
      AddToGroupTotal(GroupByPhase(stepPhases, front), EntryPhase(last.entry, stepPhases), last, name);
      OutcomeCountConcat(front, [last], name);
      OutcomeCountOne(last, name);
    }
  }

  lemma {:induction false} LaterGroupsAreNew(js: JunitState, platform: string, groups: seq<Group>, n: nat, g: nat)
    requires DistinctGroups(groups) && n <= g < |groups| && PathOf(groups[g].phase, Unexecuted) !in js.files
    ensures PathOf(groups[g].phase, Unexecuted) !in WriteGroups(js, platform, groups, n).files
    decreases n
  {
    if n > 0 {
      LaterGroupsAreNew(js, platform, groups, n - 1, g);
      SamePathIff(groups[g].phase, Unexecuted, groups[n - 1].phase, Unexecuted);
    }
  }

  lemma GroupTotalNext(groups: seq<Group>, n: nat, name: string)
    requires 0 < n <= |groups|
    ensures GroupTotal(groups[..n], name)
            == GroupTotal(groups[..n - 1], name) + OutcomeCount(groups[n - 1].entries, name)
  {
    assert groups[..n][..n - 1] == groups[..n - 1];
  }

  /** The stubs of left-over entries add as many testcases as there are entries. */
  lemma {:induction false} GroupsAdd(js: JunitState, platform: string, groups: seq<Group>, n: nat, name: string)
    requires DistinctGroups(groups) && n <= |groups|
    requires forall g | 0 <= g < |groups| :: PathOf(groups[g].phase, Unexecuted) !in js.files
    ensures FilesTotal(WriteGroups(js, platform, groups, n), name)
            == FilesTotal(js, name) + GroupTotal(groups[..n], name)
    decreases n
  {
    if n > 0 {
      GroupsAdd(js, platform, groups, n - 1, name);
      GroupTotalNext(groups, n, name);
      LaterGroupsAreNew(js, platform, groups, n - 1, n - 1);
      StubAdds(WriteGroups(js, platform, groups, n - 1), platform, groups[n - 1].phase, Unexecuted,
               groups[n - 1].entries, name);
    }
  }

  lemma UnexecutedIsNew(plan: Plan, w: World, x: Written, platform: string, g: nat)
    requires ListsApart(plan, w) && g < |LeftOverGroups(plan, w)|
    ensures PathOf(LeftOverGroups(plan, w)[g].phase, Unexecuted)
            !in FilesAfter(plan, w, x, platform, |plan.phases|).files
  {
    var q := LeftOverGroups(plan, w)[g].phase;
    var path := PathOf(q, Unexecuted);
    LeftOverGroupsUsed(plan, w, g);
    if path in FilesAfter(plan, w, x, platform, |plan.phases|).files {
      FilesAreOwn(plan, w, x, platform, |plan.phases|, path);
      var k, kind :| 0 <= k < |plan.phases| && IsPassPath(plan, w, k, kind, path);
      SamePathIff(plan.phases[k], kind, q, Unexecuted);
      assert false;
    }
  }

  lemma LeftOversAdd(plan: Plan, w: World, x: Written, platform: string, name: string)
    requires ListsApart(plan, w)
    ensures FilesTotal(FinalFiles(plan, w, x, platform), name)
            == FilesTotal(FilesAfter(plan, w, x, platform, |plan.phases|), name)
               + OutcomeCount(LeftOvers(plan, w, RemainingOf(plan, w)), name)
  {
    var groups, left := LeftOverGroups(plan, w), LeftOvers(plan, w, RemainingOf(plan, w));
    GroupingKeeps(StepPhases(plan.steps), left);
    GroupingTotal(StepPhases(plan.steps), left, name);
    forall g | 0 <= g < |groups|
      ensures PathOf(groups[g].phase, Unexecuted) !in FilesAfter(plan, w, x, platform, |plan.phases|).files
    {
      UnexecutedIsNew(plan, w, x, platform, g);
    }
    GroupsAdd(FilesAfter(plan, w, x, platform, |plan.phases|), platform, groups, |groups|, name);
    assert groups[..|groups|] == groups;
  }

  lemma LeftOversCount(plan: Plan, w: World, name: string)
    ensures OutcomeCount(Finish(plan, w).validations, name)
            == OutcomeCount(InIndexOrder(After(plan, w, |plan.phases|).resolved, |plan.entries|), name)
               + OutcomeCount(LeftOvers(plan, w, RemainingOf(plan, w)), name)
  {
    var remaining := RemainingOf(plan, w);
    assert forall j | 0 <= j < |remaining| :: remaining[j] in remaining;
    RecordCount(After(plan, w, |plan.phases|).resolved, remaining, LeftOvers(plan, w, remaining), |plan.entries|, name);
  }

  /** When every pytest file accounts for its entries, no phase works twice and none
      is named like a stub, the merged report has exactly as many testcases of a name
      as there are outcomes reported under it. */
  lemma OutcomesAreCounted(plan: Plan, w: World, x: Written, platform: string, name: string)
    requires WorksOnce(plan, w) && ListsApart(plan, w) && AllFaithful(plan, w, x, name)
    ensures Total(MergedReport(plan, FinalFiles(plan, w, x, platform)), name)
            == OutcomeCount(Finish(plan, w).validations, name)
  {
    PassesCount(plan, w, x, platform, name);
    LeftOversAdd(plan, w, x, platform, name);
    LeftOversCount(plan, w, name);
    ReportTotal(Contents(FinalFiles(plan, w, x, platform)), NameOrder(plan), name);
  }

  // ---- A phase that works twice ----

  lemma {:induction false} CountersConcat(a: seq<Suite>, b: seq<Suite>, suite: string)
    ensures CountersNamed(a + b, suite) == Add(CountersNamed(a, suite), CountersNamed(b, suite))
    decreases |b|
  {
    if b == [] {
      assert a + b == a;
    } else {
      assert (a + b)[..|a + b| - 1] == a + b[..|b| - 1];
      CountersConcat(a, b[..|b| - 1], suite);
    }
  }

  lemma ListedAgain(js: JunitState, path: string, name: string, suite: string)
    ensures var after, again := JunitState(js.dir, js.files + [path]), SuitesOf(FileAt(js.dir, path));
            && FilesTotal(after, name) == FilesTotal(js, name) + Total(again, name)
            && CountersNamed(AllSuites(Contents(after)), suite)
               == Add(CountersNamed(AllSuites(Contents(js)), suite), CountersNamed(again, suite))
  {
    ListedAdds(js, js.dir, path, name);
    assert Contents(JunitState(js.dir, js.files + [path]))[..|js.files|] == Contents(js);
    CountersConcat(AllSuites(Contents(js)), SuitesOf(FileAt(js.dir, path)), suite);
  }

  /** A second pass of a phase has no validations, and lists pytest's file again. */
  lemma RepeatedPhaseLists(plan: Plan, w: World, x: Written, platform: string, k: nat, m: nat)
    requires k < m < |plan.phases| && Works(plan, w, k) && Works(plan, w, m) && plan.phases[m] == plan.phases[k]
    requires PathOf(plan.phases[k], Plain) in FilesAfter(plan, w, x, platform, m).dir
    ensures var js := FilesAfter(plan, w, x, platform, m);
            FilesAfter(plan, w, x, platform, m + 1) == JunitState(js.dir, js.files + [PathOf(plan.phases[k], Plain)])
  {
    RepeatedPhaseIsIdle(plan, w, k, m);
    IdleFiles(plan, w, x, platform, m, FilesAfter(plan, w, x, platform, m));
  }

  /** All its testcases and its counters go into the report once more. */
  lemma RepeatedPhaseCountsAgain(
      plan: Plan, w: World, x: Written, platform: string, k: nat, m: nat, name: string, suite: string)
    requires k < m < |plan.phases| && Works(plan, w, k) && Works(plan, w, m) && plan.phases[m] == plan.phases[k]
    requires PathOf(plan.phases[k], Plain) in FilesAfter(plan, w, x, platform, m).dir
    ensures var before, after := FilesAfter(plan, w, x, platform, m), FilesAfter(plan, w, x, platform, m + 1);
            var again := SuitesOf(FileAt(before.dir, PathOf(plan.phases[k], Plain)));
            && FilesTotal(after, name) == FilesTotal(before, name) + Total(again, name)
            && CountersNamed(AllSuites(Contents(after)), suite)
               == Add(CountersNamed(AllSuites(Contents(before)), suite), CountersNamed(again, suite))
  {
    RepeatedPhaseLists(plan, w, x, platform, k, m);
    ListedAgain(FilesAfter(plan, w, x, platform, m), PathOf(plan.phases[k], Plain), name, suite);
  }

  // ---- Counters ----

  /** The `tests` counter of every suite says how many testcases it has. */
  predicate TestsRight(suites: seq<Suite>) {
    forall s | 0 <= s < |suites| :: suites[s].counters.tests == |Cases(suites[s].children)|
  }

  lemma {:induction false} NamedTests(suites: seq<Suite>, suite: string)
    requires TestsRight(suites)
    ensures CountersNamed(suites, suite).tests == |CasesNamed(suites, suite)|
  {
    if suites != [] {
      NamedTests(suites[..|suites| - 1], suite);
    }
  }

  /** Merging keeps it so. */
  lemma MergeKeepsTests(files: seq<Option<XmlFile>>, order: seq<string>)
    requires TestsRight(AllSuites(files))
    ensures TestsRight(MergeReport(files, order))
  {
    var r := MergeReport(files, order);
    ReportIsComplete(files, order);
    forall s | 0 <= s < |r| ensures r[s].counters.tests == |Cases(r[s].children)| {
      NamedTests(AllSuites(files), r[s].name);
      assert |CaseBag(r[s].children)| == |multiset(CasesNamed(AllSuites(files), r[s].name))|;
    }
  }

  predicate FileRight(file: XmlFile) {
    TestsRight(SuitesOf(Some(file)))
  }

  predicate DirRight(dir: map<string, XmlFile>) {
    forall path | path in dir :: FileRight(dir[path])
  }

  lemma StubRight(entries: seq<ResolvedEntry>, suiteName: string)
    ensures FileRight(Stub(entries, suiteName))
  {
    var cases := seq(|entries|, i requires 0 <= i < |entries| => Case(0, entries[i].entry.name));
    assert StubCases(entries) == AsChildren(cases);
    CasesOfCases(cases);
  }

  lemma WriteKeepsRight(js: JunitState, platform: string, phase: string, kind: FileKind, entries: seq<ResolvedEntry>)
    requires DirRight(js.dir)
    ensures DirRight(WriteStub(js, platform, phase, kind, entries).dir)
  {
    StubRight(entries, SuiteName(platform, phase));
  }

  /** What pytest writes is right. */
  ghost predicate PytestRight(x: Written) {
    forall pass: nat | x(pass).Some? :: FileRight(x(pass).value)
  }

  lemma PassKeepsRight(plan: Plan, w: World, x: Written, platform: string, pass: nat, js: JunitState)
    requires pass < |plan.phases| && DirRight(js.dir) && PytestRight(x)
    ensures DirRight(PassFiles(plan, w, x, platform, pass, js).dir)
  {
    var phase := plan.phases[pass];
    WriteKeepsRight(js, platform, phase, Resolved, PreResolved(plan, w, pass, IndexesOf(plan, w, pass)));
    var js1 := PytestFiles(plan, w, x, platform, pass, js);
    assert DirRight(js1.dir);
    WriteKeepsRight(js1, platform, phase, Deselected,
                    Missing(ExecutedOf(plan, w, pass), FileAt(js1.dir, PathOf(phase, Plain))));
  }

  predicate RightStep(f: Listing, k: nat) {
    DirRight(f(k).dir) ==> DirRight(f(k + 1).dir)
  }

  lemma {:induction false} RightSteps(f: Listing, n: nat)
    requires DirRight(f(0).dir) && forall k | 0 <= k < n :: RightStep(f, k)
    ensures DirRight(f(n).dir)
    decreases n
  {
    if n > 0 {
      RightSteps(f, n - 1);
      assert RightStep(f, n - 1);
    }
  }

  lemma PassesKeepRight(plan: Plan, w: World, x: Written, platform: string)
    requires PytestRight(x)
    ensures DirRight(FilesAfter(plan, w, x, platform, |plan.phases|).dir)
  {
    var f := ListingOf(plan, w, x, platform);
    forall k | 0 <= k < |plan.phases| ensures RightStep(f, k) {
      ListingStep(plan, w, x, platform, k);
      if DirRight(f(k).dir) {
        PassKeepsRight(plan, w, x, platform, k, f(k));
      }
    }
    RightSteps(f, |plan.phases|);
  }

  lemma {:induction false} GroupsKeepRight(js: JunitState, platform: string, groups: seq<Group>, n: nat)
    requires n <= |groups| && DirRight(js.dir)
    ensures DirRight(WriteGroups(js, platform, groups, n).dir)
    decreases n
  {
    if n > 0 {
      GroupsKeepRight(js, platform, groups, n - 1);
      WriteKeepsRight(WriteGroups(js, platform, groups, n - 1), platform,
                      groups[n - 1].phase, Unexecuted, groups[n - 1].entries);
    }
  }

  lemma {:induction false} AllRight(files: seq<Option<XmlFile>>)
    requires forall f | 0 <= f < |files| && files[f].Some? :: FileRight(files[f].value)
    ensures TestsRight(AllSuites(files))
    decreases |files|
  {
    if files != [] {
      AllRight(files[..|files| - 1]);
    }
  }

  /** In every run whose pytest files have right counters, so has the merged report,
      repeated phases and shared paths or not. */
  lemma CountersAreRight(plan: Plan, w: World, x: Written, platform: string)
    requires PytestRight(x)
    ensures TestsRight(MergedReport(plan, FinalFiles(plan, w, x, platform)))
  {
    var groups, js := LeftOverGroups(plan, w), FinalFiles(plan, w, x, platform);
    PassesKeepRight(plan, w, x, platform);
    GroupsKeepRight(FilesAfter(plan, w, x, platform, |plan.phases|), platform, groups, |groups|);
    AllRight(Contents(js));
    MergeKeepsTests(Contents(js), NameOrder(plan));
  }
}
