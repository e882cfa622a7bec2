/** After the phase loop: validations no phase has taken up, and the run's result. */
module RunResult {
  import opened Json
  import opened PhaseMachine
  import opened Validations

  datatype Report = Report(success: bool, results: seq<PhaseResult>, validations: seq<ResolvedEntry>)

  datatype Group = Group(phase: string, entries: seq<ResolvedEntry>)

  /** Indexes below `n` that have no outcome yet. */
  function Unresolved(done: set<nat>, n: nat): (r: seq<nat>)
    ensures forall i: nat :: i in r <==> i < n && i !in done
    ensures forall j | 0 <= j < |r| :: r[j] < n
    ensures Increasing(r)
  {
    if n == 0 then []
    else if n - 1 in done then Unresolved(done, n - 1)
    else Unresolved(done, n - 1) + [n - 1]
  }

  /** A left-over entry: terminal already, or skipped because its phase did not run. */
  function LeftOver(plan: Plan, w: World, i: nat): ResolvedEntry
    requires i < |plan.entries|
  {
    match w.resolution(|plan.phases|, i)
    case None => Terminal(plan.entries[i], Skipped)
    case Some(state) => Terminal(plan.entries[i], state)
  }

  function LeftOvers(plan: Plan, w: World, indexes: seq<nat>): seq<ResolvedEntry>
    requires InRange(plan, indexes)
  {
    seq(|indexes|, j requires 0 <= j < |indexes| => LeftOver(plan, w, indexes[j]))
  }

  function AddToGroup(groups: seq<Group>, phase: string, e: ResolvedEntry): seq<Group> {
    if groups == [] then [Group(phase, [e])]
    else if groups[0].phase == phase then [Group(phase, groups[0].entries + [e])] + groups[1..]
    else [groups[0]] + AddToGroup(groups[1..], phase, e)
  }

  /** Entries by phase, phases in order of first appearance. */
  function GroupByPhase(stepPhases: map<string, string>, entries: seq<ResolvedEntry>): seq<Group> {
    if entries == [] then []
    else
      var last := entries[|entries| - 1];
      AddToGroup(GroupByPhase(stepPhases, entries[..|entries| - 1]), EntryPhase(last.entry, stepPhases), last)
  }

  function GroupResult(group: Group): PhaseResult {
    PhaseResult(KindOf(group.phase), AllSucceeded(group.entries), None, [], group.entries, None)
  }

  function GroupResults(groups: seq<Group>): seq<PhaseResult> {
    seq(|groups|, g requires 0 <= g < |groups| => GroupResult(groups[g]))
  }

  function InIndexOrder(resolved: map<nat, ResolvedEntry>, n: nat): seq<ResolvedEntry> {
    if n == 0 then []
    else InIndexOrder(resolved, n - 1) + if n - 1 in resolved then [resolved[n - 1]] else []
  }

  function RemainingOf(plan: Plan, w: World): (r: seq<nat>)
    ensures InRange(plan, r) && Increasing(r)
  {
    Unresolved(After(plan, w, |plan.phases|).resolved.Keys, |plan.entries|)
  }

  function FinalResolved(plan: Plan, w: World): map<nat, ResolvedEntry> {
    var remaining := RemainingOf(plan, w);
    Record(After(plan, w, |plan.phases|).resolved, remaining, LeftOvers(plan, w, remaining))
  }

  /** The result of a run that reached the phase loop. */
  function Finish(plan: Plan, w: World): Report {
    var st, left := After(plan, w, |plan.phases|), LeftOvers(plan, w, RemainingOf(plan, w));
    Report(
      st.success && AllSucceeded(left),
      st.results + GroupResults(GroupByPhase(StepPhases(plan.steps), left)),
      InIndexOrder(FinalResolved(plan, w), |plan.entries|))
  }

  // ---- Exactly one outcome each ----

  lemma {:induction false} InIndexOrderAt(resolved: map<nat, ResolvedEntry>, n: nat, i: nat)
    requires i < n && forall k: nat | k < n :: k in resolved
    ensures |InIndexOrder(resolved, n)| == n && InIndexOrder(resolved, n)[i] == resolved[i]
    decreases n
  {
    if i < n - 1 {
      InIndexOrderAt(resolved, n - 1, i);
    } else if i > 0 {
      InIndexOrderAt(resolved, n - 1, 0);
    }
  }

  /** The outcome of an entry: what its pass left, else what is left over. */
  lemma FinalResolvedAt(plan: Plan, w: World, i: nat)
    requires i < |plan.entries|
    ensures i in FinalResolved(plan, w)
    ensures FinalResolved(plan, w)[i]
            == if i in After(plan, w, |plan.phases|).resolved
               then After(plan, w, |plan.phases|).resolved[i]
               else LeftOver(plan, w, i)
  {
    var resolved, remaining := After(plan, w, |plan.phases|).resolved, RemainingOf(plan, w);
    RecordKeys(resolved, remaining, LeftOvers(plan, w, remaining));
    if i !in resolved {
      var j :| 0 <= j < |remaining| && remaining[j] == i;
      RecordAdds(resolved, remaining, LeftOvers(plan, w, remaining), j);
    }
  }

  /** Every configured validation has exactly one outcome, in configuration order,
      whatever phases are skipped, not requested or not configured. */
  lemma OneOutcomeEach(plan: Plan, w: World)
    ensures var r := Finish(plan, w).validations;
            && |r| == |plan.entries|
            && forall i | 0 <= i < |r| ::
                 OutcomeOf(plan, i, r[i]) && i in FinalResolved(plan, w) && r[i] == FinalResolved(plan, w)[i]
  {
    var n, r := |plan.entries|, Finish(plan, w).validations;
    AfterTracked(plan, w, |plan.phases|);
    forall i: nat | i < n ensures i in FinalResolved(plan, w) && OutcomeOf(plan, i, FinalResolved(plan, w)[i]) {
      FinalResolvedAt(plan, w, i);
    }
    forall i: nat | i < n ensures |r| == n && r[i] == FinalResolved(plan, w)[i] {
      InIndexOrderAt(FinalResolved(plan, w), n, i);
    }
  }

  /** The outcome of an entry taken up by a pass is the one made for it: its own
      executed entry if it was ready, else the decision of resolution. */
  lemma OutcomeIsOwn(plan: Plan, w: World, pass: nat, j: nat)
    requires pass < |plan.phases| && Works(plan, w, pass) && j < |IndexesOf(plan, w, pass)|
    ensures |Finish(plan, w).validations| == |plan.entries|
    ensures var i := IndexesOf(plan, w, pass)[j];
            var m := ReadyBefore(w, pass, IndexesOf(plan, w, pass), j);
            if w.resolution(pass, i).None?
            then m < |ReadyOf(plan, w, pass)| && ReadyOf(plan, w, pass)[m] == i
                 && Finish(plan, w).validations[i] == ExecutedOf(plan, w, pass)[m]
            else Finish(plan, w).validations[i] == Terminal(plan.entries[i], w.resolution(pass, i).value)
  {
    var indexes := IndexesOf(plan, w, pass);
    OneOutcomeEach(plan, w);
    PassResolves(plan, w, pass);
    WeaveAt(plan, w, pass, indexes, ExecutedOf(plan, w, pass), j);
    FinalResolvedAt(plan, w, indexes[j]);
    ResolvedStays(plan, w, pass + 1, |plan.phases|, indexes[j], After(plan, w, pass + 1).resolved[indexes[j]]);
  }

  /** A validation whose phase did no work, and that resolution would have let run,
      is reported as skipped. */
  lemma IdlePhaseIsSkipped(plan: Plan, w: World, i: nat)
    requires i < |plan.entries| && w.resolution(|plan.phases|, i).None?
    requires forall k | 0 <= k < |plan.phases| && plan.phases[k] == PhaseOf(plan, i) :: !Works(plan, w, k)
    ensures |Finish(plan, w).validations| == |plan.entries|
    ensures Finish(plan, w).validations[i] == Terminal(plan.entries[i], Skipped)
  {
    OneOutcomeEach(plan, w);
    NotTakenUp(plan, w, |plan.phases|, i);
    FinalResolvedAt(plan, w, i);
  }

  lemma {:induction false} NotTakenUp(plan: Plan, w: World, n: nat, i: nat)
    requires i < |plan.entries| && n <= |plan.phases|
    requires forall k | 0 <= k < |plan.phases| && plan.phases[k] == PhaseOf(plan, i) :: !Works(plan, w, k)
    ensures i !in After(plan, w, n).resolved
    decreases n
  {
    if n > 0 {
      NotTakenUp(plan, w, n - 1, i);
      PassTakesOwn(plan, w, n - 1, i);
    }
  }

  lemma PassTakesOwn(plan: Plan, w: World, pass: nat, i: nat)
    requires pass < |plan.phases| && i !in After(plan, w, pass).resolved
    ensures i in After(plan, w, pass + 1).resolved <==>
            Works(plan, w, pass) && i < |plan.entries| && PhaseOf(plan, i) == plan.phases[pass]
  {
    PassResolves(plan, w, pass);
    IndexesIff(plan, w, pass);
  }

  // ---- Success ----

  predicate GroupsSucceed(groups: seq<Group>) {
    forall g | 0 <= g < |groups| :: AllSucceeded(groups[g].entries)
  }

  lemma AllSucceededSnoc(entries: seq<ResolvedEntry>, e: ResolvedEntry)
    ensures AllSucceeded(entries + [e]) <==> AllSucceeded(entries) && OutcomeOk(e)
  {
    assert (entries + [e])[|entries|] == e;
    assert forall j | 0 <= j < |entries| :: (entries + [e])[j] == entries[j];
  }

  lemma GroupsSucceedCons(group: Group, groups: seq<Group>)
    ensures GroupsSucceed([group] + groups) <==> AllSucceeded(group.entries) && GroupsSucceed(groups)
  {
    assert ([group] + groups)[0] == group;
    assert forall g | 0 <= g < |groups| :: ([group] + groups)[g + 1] == groups[g];
  }

  lemma {:induction false} AddToGroupSucceeds(groups: seq<Group>, phase: string, e: ResolvedEntry)
    ensures GroupsSucceed(AddToGroup(groups, phase, e)) <==> GroupsSucceed(groups) && OutcomeOk(e)
  {
    if groups == [] {
      assert [Group(phase, [e])][0].entries == [e];
      AllSucceededSnoc([], e);
      assert [] + [e] == [e];
    } else {
      assert groups == [groups[0]] + groups[1..];
      GroupsSucceedCons(groups[0], groups[1..]);
      if groups[0].phase == phase {
        AllSucceededSnoc(groups[0].entries, e);
        GroupsSucceedCons(Group(phase, groups[0].entries + [e]), groups[1..]);
      } else {
        AddToGroupSucceeds(groups[1..], phase, e);
        GroupsSucceedCons(groups[0], AddToGroup(groups[1..], phase, e));
      }
    }
  }

  lemma {:induction false} GroupingSucceeds(stepPhases: map<string, string>, entries: seq<ResolvedEntry>)
    ensures GroupsSucceed(GroupByPhase(stepPhases, entries)) <==> AllSucceeded(entries)
    decreases |entries|
  {
    if entries != [] {
      var front, last := entries[..|entries| - 1], entries[|entries| - 1];
      GroupingSucceeds(stepPhases, front);
      AddToGroupSucceeds(GroupByPhase(stepPhases, front), EntryPhase(last.entry, stepPhases), last);
      AllSucceededSnoc(front, last);
      assert entries == front + [last];
    }
  }

  lemma ResultsOkConcat(a: seq<PhaseResult>, b: seq<PhaseResult>)
    ensures ResultsOk(a + b) <==> ResultsOk(a) && ResultsOk(b)
  {
    assert forall j | 0 <= j < |a| :: (a + b)[j] == a[j];
    assert forall j | 0 <= j < |b| :: (a + b)[|a| + j] == b[j];
  }

  lemma ReportResultsOk(plan: Plan, w: World)
    ensures ResultsOk(Finish(plan, w).results) <==>
            ResultsOk(After(plan, w, |plan.phases|).results) && AllSucceeded(LeftOvers(plan, w, RemainingOf(plan, w)))
  {
    var left := LeftOvers(plan, w, RemainingOf(plan, w));
    var groups := GroupByPhase(StepPhases(plan.steps), left);
    ResultsOkConcat(After(plan, w, |plan.phases|).results, GroupResults(groups));
    GroupingSucceeds(StepPhases(plan.steps), left);
    assert forall g | 0 <= g < |groups| :: GroupResults(groups)[g].success == AllSucceeded(groups[g].entries);
  }

  lemma SplitOutcomes(
      resolved: map<nat, ResolvedEntry>, remaining: seq<nat>, left: seq<ResolvedEntry>, r: seq<ResolvedEntry>)
    requires |remaining| == |left| && (forall i | i in resolved :: i < |r| && r[i] == resolved[i])
    requires forall j | 0 <= j < |remaining| :: remaining[j] < |r| && r[remaining[j]] == left[j]
    requires forall i: nat | i < |r| :: i in resolved || i in remaining
    ensures AllSucceeded(r) <==> OutcomesOk(resolved) && AllSucceeded(left)
  {
  }

  lemma FinalOutcomesOk(plan: Plan, w: World)
    ensures AllSucceeded(Finish(plan, w).validations) <==>
            OutcomesOk(After(plan, w, |plan.phases|).resolved) && AllSucceeded(LeftOvers(plan, w, RemainingOf(plan, w)))
  {
    var resolved, remaining := After(plan, w, |plan.phases|).resolved, RemainingOf(plan, w);
    var r, left := Finish(plan, w).validations, LeftOvers(plan, w, remaining);
    OneOutcomeEach(plan, w);
    AfterTracked(plan, w, |plan.phases|);
    forall i | i in resolved ensures i < |r| && r[i] == resolved[i] {
      assert OutcomeOf(plan, i, resolved[i]);
      FinalResolvedAt(plan, w, i);
    }
    forall j | 0 <= j < |remaining| ensures remaining[j] < |r| && r[remaining[j]] == left[j] {
      assert remaining[j] in remaining;
      FinalResolvedAt(plan, w, remaining[j]);
    }
    SplitOutcomes(resolved, remaining, left, r);
  }

  /** The run succeeds exactly when every attempted step succeeded, every pytest
      session ended well, and every validation passed or was skipped; equivalently,
      when every phase result is a success. */
  lemma RunSucceedsIff(plan: Plan, w: World)
    ensures var r := Finish(plan, w);
            && (r.success <==> LogOk(After(plan, w, |plan.phases|).log) && AllSucceeded(r.validations))
            && (r.success <==> ResultsOk(r.results))
  {
    SuccessIff(plan, w, |plan.phases|);
    FinalOutcomesOk(plan, w);
    ReportResultsOk(plan, w);
  }
}
