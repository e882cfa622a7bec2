# A verified model of the ISV lab tooling

This project models, in Dafny 4.11, the parts of the repository that coordinate,
merge, persist and swap things, and proves what they keep. `dafny verify
dfyconfig.toml` checks everything.

What the repository does, and where it is modelled:

- **Configuration** (`isvctl/src/isvctl/config/merger.py`): a deep merge of mappings,
  a recursive import loader with cycle detection, and an in-place setter for one
  path. `Json`, `ConfigMerge`, `ConfigImports`, `ConfigSet`. Merging turns out not to
  be associative; the exact condition is proved, and from it that loading layers the
  files of an import graph in post-order whenever every import composes with what is
  loaded before it, as it does when every path is a mapping in all files or in none.
  The setter works on dictionary objects in a heap and is proved
  against a function on values.
- **Node cordon protocol** (`isvctl/configs/shared/breakfix/cordon_node.py`): any
  number of runs race for one Kubernetes node by conditional JSON patches (RFC 6902).
  `JsonPatch`, `NodeCordon`, `CordonRuns` (a state machine of N runs, a network that
  delivers sent patches at any later time or never, and other writers), `CordonMain`
  (one run as the code performs it, with lost responses and failed reads).
- **Orchestrator** (`isvctl/src/isvctl/orchestrator/loop.py`, `step_executor.py`,
  `isvtest/src/isvtest/main.py`): steps and validations phase by phase, with failure
  gating, a teardown rule, and results paired back by name. `Validations`,
  `PytestBridge`, `StepExecutor`, `PhaseMachine` (the loop as a function of what the
  outside world answers), `RunResult`, `RunRules` (which phases act, which calls they
  make and where each outcome comes from, said of the configuration, the answers and the
  calls alone), `Orchestrator` (the object that updates its fields, proved to compute
  that function).
- **JUnit reports** (`loop.py`): suites of several files folded by name, testcases put
  into configuration order in place, stubs for what pytest did not write. `StableOrder`,
  `JUnit`, `PhaseReports`, `ReportCounts` (how often an outcome appears), `LostOutcomes`
  (runs that lose one), `ReportCoverage` and `ReportExactness` (for which phase lists no
  run loses an outcome, and none shows one twice).
- **User configuration** (`user.py`, `env_catalog.py`): two sectioned files that behave
  as one map. `EnvCatalog`, `UserConfig`.
- **Catalog digest** (`isvtest/src/isvtest/catalog.py`): a canonical payload. `TextOrder`,
  `JsonText` (compact JSON text, RFC 8259 section 7 for strings), `CatalogDigest`.
- **Provider fetch** (`isvctl/src/isvctl/cli/provider.py`): stage, rename, roll back.
  `ProviderFetch` records every intermediate state of the file system.
- **Build references** (`isvreporter/src/isvreporter/version.py`): `BuildRef`.
- **Release notes** (`scripts/generate_release_notes.py`): `ReleaseNotes`.

Calls to the outside (commands, kubectl, git, pytest, resolution of validations) are
oracles or arbitrary choices, and the file system may fail at any operation, so every
statement holds whatever they answer.

Where a property fails, the model keeps the code as it is, and states when it holds:

- Merging three mappings is associative exactly when, at every path where the outer two
  both have a mapping and the middle one has something: if that is a mapping, the three
  compose there in turn; otherwise the last decides every path the first has below
  (`MergeAssociatesIff`; `MergeDoesNotAssociate` gives three for which it is not).
- Setting a path is merging a one-path mapping exactly when the value is no mapping, or
  the path held no mapping, or the new mapping decides every path the old one has
  (`SetIsMergeIff`; `SetIsNotMerge` gives a case).
- A finished run's node stays released exactly when its claim patch would no longer be
  accepted (`StaysReleasedIff`); a claim whose response is lost can commit after a
  clean finish (`CleanFinishWithPendingClaim`).
- Results are paired back correctly exactly when the qualified names are distinct
  (`PairsBackIff`), which is when no category is another one of the same name followed
  by a hyphen and a number in use, and no check name is a shared one continued with a
  hyphen the way that one is qualified (`QualifiedDistinctIff`). `QualifiedNamesCanClash`
  and `HyphenatedNameCanClash` give a clash of each kind; where no shared name is
  continued by another, the categories alone decide (`DistinctByCategories`).
- Every outcome of every run with a given list of phases reaches the merged report
  exactly when no run can write two files at one path (`AlwaysReportedIff`). It can when
  a phase p of the list is named like the stub of a phase q: q with `-resolved` or
  `-deselected`, if q is in the list too (behind setup, when it is teardown), or q with
  `-unexecuted`, if q is teardown or some p comes with no q before it. With phases x and
  x-resolved a decided outcome is lost (`DecidedOutcomeLost`); x followed by
  x-unexecuted loses nothing, x-unexecuted followed by x does (`OrderDecides`). Where no
  phase is one a step can belong to, all in lower case, there is no run to lose it in.
- A phase that comes twice loses no outcome, but its second pass lists pytest's file
  again: every testcase and counter of the phase goes into the report once more
  (`RepeatedPhaseCountsAgain`). As long as pytest's files account for their entries,
  every run shows each outcome exactly once exactly when no run can write two files at
  one path and no phase comes twice (`AlwaysExactIff`).
- A stub has counters for its skipped entries and those in error, none for failed ones:
  it counts all that did not succeed exactly when none failed (`StubCounts`). A validation
  that failed and that pytest's file does not name is in the report without its failure.
- The section translation is a bijection exactly when no keys collide after lower-casing
  (`BijectionIff`; `CollidingKeysLoseName` gives two names of which one is lost).

## Model

| member | source | states |
|---|---|---|
| ConfigMerge.DeepMerge | isvctl/src/isvctl/config/merger.py:41-64 | the merging loop computes the recursive merge `Merge`, whose laws follow |
| ConfigMerge.MergeWithEmpty | isvctl/src/isvctl/config/merger.py:41-64 | merging with an empty mapping on either side changes nothing |
| ConfigMerge.MergeAbsorbsIff | isvctl/src/isvctl/config/merger.py:41-64 | the merge equals the override exactly when the override decides every path of the base |
| ConfigMerge.MergeAssociatesIff | isvctl/src/isvctl/config/merger.py:41-64 | the two groupings of three mappings agree exactly when, wherever the outer two both have a mapping and the middle one has something, the three compose in turn below it if that is a mapping, and otherwise the last decides every path of the first |
| ConfigMerge.MergeDoesNotAssociate | isvctl/src/isvctl/config/merger.py:41-64 | three concrete mappings for which the two groupings differ |
| ConfigMerge.AgreeWithMerge | isvctl/src/isvctl/config/merger.py:41-64 | a mapping that agrees with two others on what is a mapping agrees with their merge |
| ConfigMerge.AgreeingLayersCompose | isvctl/src/isvctl/config/merger.py:41-64 | mappings that agree pairwise on what is a mapping merge associatively |
| ConfigMerge.LayerFromBase | isvctl/src/isvctl/config/merger.py:179-187 | layering a list on a base is merging the layered list onto it at once, when the base, the layers so far and the next one compose at every layer |
| ConfigMerge.StepsComposeIff | isvctl/src/isvctl/config/merger.py:179-187 | that premise holds exactly when the equation does for the list and everything it starts with |
| ConfigMerge.AgreeingStepsCompose | isvctl/src/isvctl/config/merger.py:179-187 | it holds for layers that agree with each other and with the base on what is a mapping |
| ConfigImports.LoadYamlWithImports | isvctl/src/isvctl/config/merger.py:120-187 | the recursive loader with its visited set terminates and computes `Load`, errors included |
| ConfigImports.LoadIgnoresVisited | isvctl/src/isvctl/config/merger.py:145-187 | a load that succeeds succeeds with the same value for any smaller visited set |
| ConfigImports.LoadIsPathIndependent | isvctl/src/isvctl/config/merger.py:174-183 | two successful loads of a file agree, however it was reached, so diamonds are not flagged |
| ConfigImports.LoadedWalksAreClean | isvctl/src/isvctl/config/merger.py:145-187 | after a successful load every import walk is simple, leaves the visited set alone and meets readable files only |
| ConfigImports.FailedLoadHasCulprit | isvctl/src/isvctl/config/merger.py:145-187 | a failed load has a walk to what its error says: a missing file, one that is no mapping, one with a malformed import, or a visited one or a cycle |
| ConfigImports.LoadSucceedsIff | isvctl/src/isvctl/config/merger.py:145-187 | loading succeeds exactly when every reachable file is readable and no cycle is reachable |
| ConfigImports.CircularErrorIffCycle | isvctl/src/isvctl/config/merger.py:148-151 | when every reachable file is a readable mapping, the circular-import error comes exactly when a cycle is reachable |
| ConfigImports.LoadLayersPostOrder | isvctl/src/isvctl/config/merger.py:167-187 | a successful load is the left-to-right layering of every reachable file's own content in post-order, diamonds repeated, when every import, at every depth, composes step by step with what is loaded before it |
| ConfigImports.LoadComposesIff | isvctl/src/isvctl/config/merger.py:145-187 | in a successful load they do exactly when, in every reachable file, each prefix of the import list and each prefix of the contents the next import brings are layered together as their merge |
| ConfigImports.AgreeingFilesCompose | isvctl/src/isvctl/config/merger.py:167-187 | every import does so when each path is a mapping in all reachable files or in none |
| ConfigImports.ForkLayersIff | isvctl/src/isvctl/config/merger.py:167-187 | for two files imported side by side, one importing a third, that equation holds exactly when the three contents merge associatively |
| ConfigImports.ForkComposesIff | isvctl/src/isvctl/config/merger.py:167-187 | and that is exactly what the premise of the general equation asks of them |
| ConfigImports.MergeYamlFiles | isvctl/src/isvctl/config/merger.py:247-252 | the loop over the given files, stopping at the first error, computes `LoadFiles` |
| ConfigImports.FilesLayerLikeImports | isvctl/src/isvctl/config/merger.py:247-252 | giving files in a row layers them the way a list of imports does |
| ConfigSet.ConfigStore.ApplySetValue | isvctl/src/isvctl/config/merger.py:100-117 | the in-place walk over dictionary objects, new ones created on the way, leaves the heap holding `SetPath` of the old value |
| ConfigSet.SetThenLookup | isvctl/src/isvctl/config/merger.py:100-117 | the path reads back as set, for any value |
| ConfigSet.SetKeepsDivergingPaths | isvctl/src/isvctl/config/merger.py:100-117 | every path that diverges from the set one reads as before |
| ConfigSet.SetIsMergeIff | isvctl/src/isvctl/config/merger.py:41-64 | setting equals deep-merging the one-path mapping exactly when the value is no mapping, or the path held no mapping, or the new mapping decides every path of the old one |
| ConfigSet.SetIsNotMerge | isvctl/src/isvctl/config/merger.py:100-117 | a mapping and a path for which setting and merging differ |
| ConfigSet.SetPlainValueIsMerge | isvctl/src/isvctl/config/merger.py:100-117 | for a value that is no mapping, setting is that merge, overwriting non-mappings on the way included |
| JsonPatch.PutThenLookup | isvctl/configs/shared/breakfix/cordon_node.py:218-222 | after an add (RFC 6902 section 4.1) the path holds the value |
| JsonPatch.PutKeepsDiverging | isvctl/configs/shared/breakfix/cordon_node.py:218-222 | an add leaves diverging paths alone |
| JsonPatch.DeleteThenLookup | isvctl/configs/shared/breakfix/cordon_node.py:293-305 | after a remove (section 4.2) the path is gone |
| JsonPatch.DeleteKeepsDiverging | isvctl/configs/shared/breakfix/cordon_node.py:293-305 | a remove leaves diverging paths alone |
| JsonPatch.PutSucceedsIff | isvctl/configs/shared/breakfix/cordon_node.py:218-222 | an add applies exactly when the parent is a mapping |
| JsonPatch.DeleteSucceedsIff | isvctl/configs/shared/breakfix/cordon_node.py:293-305 | a remove applies exactly when the target exists |
| JsonPatch.ReplaceIff | isvctl/configs/shared/breakfix/cordon_node.py:298-304 | a replace (section 4.3) applies exactly when the target exists, and then the path holds the value |
| JsonPatch.ApplyConcat | isvctl/configs/shared/breakfix/cordon_node.py:201-222 | a patch applies all or nothing, operation after operation (section 5) |
| NodeCordon.ClaimPatchEffect | isvctl/configs/shared/breakfix/cordon_node.py:198-222 | a claim commits only on the version it was made from and leaves the run's marker on an unschedulable node |
| NodeCordon.ClaimAppliesToItsSnapshotIff | isvctl/configs/shared/breakfix/cordon_node.py:207-222 | on its own snapshot the claim commits exactly when the node has a spec in which the schedulability field is absent or literally false; a node without a spec can be selected but never claimed |
| NodeCordon.ReleasePatchEffect | isvctl/configs/shared/breakfix/cordon_node.py:293-305 | a release commits only on the run's own marker, removes it, and uncordons if that was asked |
| NodeCordon.CommitEffect | isvctl/configs/shared/breakfix/cordon_node.py:198-246 | storing a new resource version touches neither marker nor schedulability |
| NodeCordon.SelectedIff | isvctl/configs/shared/breakfix/cordon_node.py:126-176 | exactly which nodes are selected: with a Ready condition that is True, a version and a host name, not unschedulable, without any marker, and with usable annotations and spec |
| NodeCordon.ReleaseAppliesToItsSnapshotIff | isvctl/configs/shared/breakfix/cordon_node.py:293-305 | on its own snapshot a release commits exactly when the node is schedulable or literally unschedulable |
| NodeCordon.ClaimThenReleaseRestores | isvctl/configs/shared/breakfix/cordon_node.py:198-330 | a claim followed by its release gives back everything else of the node, unmarked and schedulable |
| NodeCordon.ClaimThenReleaseKeepsAnnotations | isvctl/configs/shared/breakfix/cordon_node.py:215-222 | and so do all annotations but the marker, whether the node had any or not |
| CordonRuns.StepKeepsInv | isvctl/configs/shared/breakfix/cordon_node.py:198-330 | every step of any run, of the network and of other writers keeps the protocol invariant |
| CordonRuns.ReachableInv | isvctl/configs/shared/breakfix/cordon_node.py:198-330 | so does every run of the system |
| CordonRuns.CordonIntervalsAreExclusive | isvctl/configs/shared/breakfix/cordon_node.py:198-330 | committed claims start from an unclaimed schedulable node, releases from the run's own marker; intervals of different runs never overlap, and the node stays unschedulable in an open one |
| CordonRuns.FinishMeans | isvctl/configs/shared/breakfix/cordon_node.py:270-330 | a run ends cleanly only with its marker off the node, having seen it unmarked and schedulable or with its release committed; with an error only having seen the node without its marker or a version, or after all attempts |
| CordonRuns.StaysReleasedIff | isvctl/configs/shared/breakfix/cordon_node.py:521-528 | a finished run's marker stays off for good exactly when its claim would no longer be accepted |
| CordonRuns.CleanFinishWithPendingClaim | isvctl/configs/shared/breakfix/cordon_node.py:270-291 | a concrete interleaving in which a run finishes cleanly with its claim still to commit |
| CordonMain.Cluster.ClaimNode | isvctl/configs/shared/breakfix/cordon_node.py:198-246 | success is reported only for a claim that committed, also when its response was lost; at most one claim commits, from a free node and with the patch made for it; without trouble it succeeds exactly when that patch applies |
| CordonMain.Cluster.ReleaseNode | isvctl/configs/shared/breakfix/cordon_node.py:270-330 | the retry loop returns without an error only when the node is unmarked and schedulable; every patch of its that commits takes the marker of this run off and leaves the node schedulable; it gives up only after all its attempts; without trouble its result and its commit are exactly those of the node it finds |
| CordonMain.Cluster.Cleanup | isvctl/configs/shared/breakfix/cordon_node.py:410-441 | no errors from an owned cleanup means the node is unmarked and schedulable; without trouble its errors are exactly those of the release |
| CordonMain.Cluster.CordonTest | isvctl/configs/shared/breakfix/cordon_node.py:455-578 | on every exit, the marker still on the node means a cleanup error is reported and success is false; success of a run not skipped means that it claimed a free node and left it unmarked and schedulable; at most two commits, a claim and a release; without trouble it succeeds exactly on a node that can be claimed |
| PytestBridge.CountNames | isvtest/src/isvtest/main.py:157-160 | the counting loop counts every name |
| PytestBridge.EntriesWithPytestNames | isvtest/src/isvtest/main.py:155-175 | the renaming loop gives entry `i` its qualified name and changes nothing else |
| PytestBridge.SameNameIff | isvtest/src/isvtest/main.py:155-175 | two entries run under one name exactly when they agree in check name and suffix, or one check name is the shared other one continued the way that is qualified |
| PytestBridge.QualifiedDistinctIff | isvtest/src/isvtest/main.py:155-175 | for any entries, the names are distinct exactly when no category is a used number behind another one of the same name and no check name continues a shared one the way that is qualified |
| PytestBridge.DistinctByCategories | isvtest/src/isvtest/main.py:155-175 | where no check name continues a shared one with a hyphen, the condition on categories alone decides |
| PytestBridge.HyphenFreeIsDistinct | isvtest/src/isvtest/main.py:155-175 | without hyphens in check names and categories the names are distinct |
| PytestBridge.QualifiedNamesCanClash | isvtest/src/isvtest/main.py:162-175 | one name in categories x, x and x-2 gives the same qualified name twice |
| PytestBridge.HyphenatedNameCanClash | isvtest/src/isvtest/main.py:162-175 | a name shared by categories c and d, and another check called that name, a hyphen and c, give the same qualified name twice with no numbered category |
| PytestBridge.ApplyPytestResults | isvtest/src/isvtest/main.py:201-270 | one terminal entry per entry, in order: skipped without a record under its name, else by the last one skipped if that is, passed if it is not and passed, in error or failed otherwise as it was a runtime exception or not |
| PytestBridge.PairsBackIff | isvtest/src/isvtest/main.py:201-219 | whatever the tests report, every entry gets its own result exactly when the qualified names are distinct |
| PytestBridge.RunAndPairBack | isvtest/src/isvtest/main.py:48-147 | with distinct names each entry comes back skipped, passed, failed or in error exactly as its own test reported, or skipped if it did not run |
| StepExecutor.ExecuteSteps | isvctl/src/isvctl/orchestrator/step_executor.py:264-316 | the loop with its early break computes the records of the steps reached; success exactly when all of them succeeded |
| StepExecutor.StepResults.AddStep | isvctl/src/isvctl/orchestrator/step_executor.py:235-241 | a failed step makes the results fail for good |
| StepExecutor.StopsAtFirstFailure | isvctl/src/isvctl/orchestrator/step_executor.py:307-314 | without best effort a step is reached exactly when every earlier one was skipped, succeeded or may fail; an early end means a failure |
| StepExecutor.BestEffortReachesAll | isvctl/src/isvctl/orchestrator/step_executor.py:307-314 | in best effort every step that is not skipped is attempted |
| StepExecutor.AttemptedIff | isvctl/src/isvctl/orchestrator/loop.py:624-629 | some step is attempted exactly when some step is not skipped, which is what the teardown gate looks at |
| StepExecutor.ApplyCapabilityStepGates | isvctl/src/isvctl/orchestrator/loop.py:324-349 | every step keeps its place and everything but its skip flag, which is set exactly when it was, or the capability is missing from the step's own requirements, or from those of every validation bound to it, of which there are some |
| StepExecutor.AllowedValidationKeepsStep | isvctl/src/isvctl/orchestrator/loop.py:334-348 | a bound validation the capability allows keeps the step, unless the step's own requirements exclude the capability |
| PhaseMachine.WeaveAt | isvctl/src/isvctl/orchestrator/loop.py:687-691 | each place of a phase gets the executed entry made for it, or resolution's decision |
| PhaseMachine.PassResolves | isvctl/src/isvctl/orchestrator/loop.py:635-693 | a pass resolves exactly the unresolved entries of its phase and changes no earlier outcome |
| PhaseMachine.ResolvedStays | isvctl/src/isvctl/orchestrator/loop.py:636-641 | an outcome, once recorded, is never changed |
| PhaseMachine.LogIff | isvctl/src/isvctl/orchestrator/loop.py:583-675 | exactly which outside calls a run makes |
| PhaseMachine.LogInOrder | isvctl/src/isvctl/orchestrator/loop.py:583-675 | calls come phase after phase, and pytest last in its phase |
| PhaseMachine.PytestAtMostOnce | isvctl/src/isvctl/orchestrator/loop.py:635-675 | each validation goes to pytest at most once, only in its own phase, after that pass's steps |
| PhaseMachine.SuccessIff | isvctl/src/isvctl/orchestrator/loop.py:697-703 | at every point: success exactly when all attempted steps, all outcomes and all pytest sessions so far are fine, and exactly when all phase results are |
| PhaseMachine.NothingAfterFailure | isvctl/src/isvctl/orchestrator/loop.py:589-617 | a non-teardown phase makes a call only if everything before it was fine |
| PhaseMachine.SetupRanIff | isvctl/src/isvctl/orchestrator/loop.py:624-629 | setup counts as run exactly after a setup pass that works, with a step to run |
| PhaseMachine.SetupAttempts | isvctl/src/isvctl/orchestrator/loop.py:624-629 | a phase makes a step call exactly when it does its work and has a step to run |
| PhaseMachine.TeardownRule | isvctl/src/isvctl/orchestrator/loop.py:589-629 | with setup before teardown, both requested: teardown acts only if a setup step was attempted, and then attempts all its steps whatever fails |
| RunResult.OneOutcomeEach | isvctl/src/isvctl/orchestrator/loop.py:705-751 | one terminal outcome per configured validation, in configuration order, in every run that reaches the loop |
| RunResult.OutcomeIsOwn | isvctl/src/isvctl/orchestrator/loop.py:687-693 | the outcome is the one made for that entry in its pass |
| RunResult.IdlePhaseIsSkipped | isvctl/src/isvctl/orchestrator/loop.py:861-895 | a ready validation whose phase did no work ends as skipped |
| RunResult.RunSucceedsIff | isvctl/src/isvctl/orchestrator/loop.py:697-751 | the run succeeds exactly when all attempted steps, validations and pytest sessions are fine, equivalently when every phase result is a success |
| RunResult.GroupingSucceeds | isvctl/src/isvctl/orchestrator/loop.py:897-920 | all phase results added for left-over validations succeed exactly when all those validations do |
| RunRules.StepCallIff | isvctl/src/isvctl/orchestrator/loop.py:583-621 | exactly which steps are attempted and with which answer: in a phase that is asked for and that neither a failure before it nor the teardown rule stops, those not switched off that no failure of the phase stops before, and in teardown all |
| RunRules.PytestCallIff | isvctl/src/isvctl/orchestrator/loop.py:635-675 | exactly which validations pytest gets: in such a phase those of the phase that no earlier acting pass has taken up and that resolution lets run, in configuration order, if there are any |
| RunRules.ResolvedIff | isvctl/src/isvctl/orchestrator/loop.py:636-693 | a validation is decided by the first pass of its phase that acts |
| RunRules.NoTeardownAfterFailure | isvctl/src/isvctl/orchestrator/loop.py:605-606 | with teardown on failure off, teardown makes a call only if every earlier call went well and every result and outcome before it is a success |
| RunRules.TeardownStepIff | isvctl/src/isvctl/orchestrator/loop.py:595-606 | a requested teardown attempts a step that is not switched off exactly when setup was not requested or some setup step was attempted before, and nothing has failed before or teardown on failure is on |
| RunRules.ResultOfPass | isvctl/src/isvctl/orchestrator/loop.py:583-617 | what each pass adds to the results: nothing when not asked for, at most one when it acts, else one marked with the reason |
| RunRules.ExecutedOutcome | isvtest/src/isvtest/main.py:222-270 | the final outcome of a validation pytest got is what its last record there says, and skipped without one |
| RunRules.SuccessNeedsRecords | isvctl/src/isvctl/orchestrator/loop.py:697-751 | a run that succeeds has executed no validation whose record neither passed nor skipped |
| RunRules.UnexecutedOutcome | isvctl/src/isvctl/orchestrator/loop.py:705-720 | a validation no pass executes has the decision of resolution in the pass that takes it up, or after the last pass, where one that could run is skipped |
| RunRules.PhaseOfEntry | isvtest/src/isvtest/core/resolution.py:433-439 | a validation belongs to the phase it names, else to that of the last step of its name that is not switched off, else to the test phase |
| RunRules.PhaseOfStep | isvctl/src/isvctl/orchestrator/loop.py:538-552 | a step without a phase is a setup step, and case does not matter in the phase of another |
| Orchestrator.Run.RunStepsMode | isvctl/src/isvctl/orchestrator/loop.py:442-751 | the in-place run, early exits included, returns the report, makes the calls and merges the files that the functions above describe |
| Orchestrator.Run.RunPhase | isvctl/src/isvctl/orchestrator/loop.py:583-703 | one turn of the phase loop takes the state after a phase to the state after the next |
| Orchestrator.Run.Conclude | isvctl/src/isvctl/orchestrator/loop.py:697-703 | the phase result is appended, and a failed one fails the run |
| Orchestrator.WeaveBack | isvctl/src/isvctl/orchestrator/loop.py:687-691 | the iterator over executed entries puts each into its ready place |
| Orchestrator.SuccessOutsideLoopIff | isvctl/src/isvctl/orchestrator/loop.py:466-537 | a run that ends before the loop succeeds only for a switched-off platform, with all its results marked so; else it has one failed result, of the test phase without commands and of setup with them |
| Orchestrator.ValidationsOnly | isvctl/src/isvctl/orchestrator/loop.py:466-472 | without commands a run makes no calls but pytest's, in the test phase |
| Orchestrator.StepsByPhase | isvctl/src/isvctl/orchestrator/loop.py:538-541 | every phase gets its steps in configuration order |
| JUnit.Merger.FoldSuite | isvctl/src/isvctl/orchestrator/loop.py:102-115 | the source's testcases go to the end one by one and its counters are added |
| JUnit.Merger.RemoveAndAppend | isvctl/src/isvctl/orchestrator/loop.py:138-144 | removing and appending each testcase in turn leaves the other children in order, then the testcases in the given order |
| JUnit.Merger.MergeJunitXmls | isvctl/src/isvctl/orchestrator/loop.py:147-197 | the merging loop with its lookup table computes `MergeReport`, missing and unparseable files passed over |
| JUnit.MergedNames | isvctl/src/isvctl/orchestrator/loop.py:185-192 | merged suite names are pairwise distinct and cover all input names |
| JUnit.MergeKeepsNamed | isvctl/src/isvctl/orchestrator/loop.py:102-115 | under each name the merge has the testcases of that name in order and the sums of their counters |
| JUnit.SortedChildrenCorrect | isvctl/src/isvctl/orchestrator/loop.py:118-144 | sorting keeps the testcases and the other children, puts the latter first, and ranks stably by the parent's first position |
| JUnit.ParentOfSubtest | isvctl/src/isvctl/orchestrator/loop.py:134-136 | a subtest sorts by the name before its double colon |
| JUnit.RankIsFirst | isvctl/src/isvctl/orchestrator/loop.py:129-136 | the rank is the first position of the name, or past the end for unknown names |
| JUnit.ReportIsComplete | isvctl/src/isvctl/orchestrator/loop.py:147-197 | distinct suites, counters and testcases per name as in the input, no testcase lost or duplicated |
| JUnit.ReportIsInOrder | isvctl/src/isvctl/orchestrator/loop.py:118-197 | every suite of the report is arranged: without a configuration order the children of the first suite of its name and then the testcases of the later ones; with one, that suite's other children and then all testcases of the name by the rank of their names, in order within a rank; suites come in the order in which their names first appear |
| JUnit.CaseInReportIff | isvctl/src/isvctl/orchestrator/loop.py:169-192 | a testcase is in the report exactly when some readable file has it in a suite at its top |
| JUnit.ParentEndsAtColons | isvctl/src/isvctl/orchestrator/loop.py:134-136 | the parent name is the longest start of the name before a double colon |
| StableOrder.StableSortCorrect | isvctl/src/isvctl/orchestrator/loop.py:142-144 | sorted, a permutation, and stable |
| StableOrder.StableSortUnique | isvctl/src/isvctl/orchestrator/loop.py:142-144 | nothing else is sorted and stable |
| PhaseReports.SamePathIff | isvctl/src/isvctl/orchestrator/loop.py:633-684 | two files share a path exactly when they are the same file, or one is pytest's and its phase is named like the other's phase with a stub's suffix |
| PhaseReports.NoneLikeStubIff | isvctl/src/isvctl/orchestrator/loop.py:633-684 | the files that may be written all have their own paths exactly when no phase whose pytest file may be is named like a stub that may be |
| PhaseReports.PathsApart | isvctl/src/isvctl/orchestrator/loop.py:633-684 | in such a run different files have different paths |
| PhaseReports.RepeatedPhaseIsIdle | isvctl/src/isvctl/orchestrator/loop.py:636-641 | once a phase has done its work, a later pass of the same phase has no validations left |
| PhaseReports.MissingOrNamed | isvctl/src/isvctl/orchestrator/loop.py:207-227 | an executed entry is named in pytest's file or stubbed |
| PhaseReports.DecidedShown | isvctl/src/isvctl/orchestrator/loop.py:651-658 | an entry decided before pytest is shown by its phase's stub |
| PhaseReports.ExecutedShown | isvctl/src/isvctl/orchestrator/loop.py:677-685 | an executed entry is shown by pytest's file or by the stub for it |
| PhaseReports.EveryOutcomeReported | isvctl/src/isvctl/orchestrator/loop.py:653-740 | in such a run every outcome, under its reported name, is a testcase of the merged report, whatever pytest writes, repeated phases included |
| PhaseReports.ReportInConfigOrder | isvctl/src/isvctl/orchestrator/loop.py:735-740 | in a run's report the testcases of a suite stand in configuration order, those of no configured name last |
| PhaseReports.StubCounts | isvctl/src/isvctl/orchestrator/loop.py:230-249 | a stub counts its entries, and those skipped and in error among them; all that did not succeed are counted exactly when none failed |
| ReportCoverage.AlwaysReportedIff | isvctl/src/isvctl/orchestrator/loop.py:442-740 | every outcome of every run with these phases, over all configurations that lead into the loop and all requests there are, is in the merged report exactly when no run can write two files at one path |
| ReportCoverage.SomethingLost | isvctl/src/isvctl/orchestrator/loop.py:442-740 | for every other list of phases there is a configuration that leads into the loop, with everything requested, and answers with which an outcome is missing |
| ReportCoverage.DecidedOutcomeLost | isvctl/src/isvctl/orchestrator/loop.py:651-684 | a configuration with phases x and x-resolved and everything requested whose run succeeds with a skipped and a passed validation, the first of which is not in the merged report |
| ReportCoverage.OrderDecides | isvctl/src/isvctl/orchestrator/loop.py:653-740 | with x before x-unexecuted every run reports every outcome; the other way round some run does not |
| ReportCounts.OutcomesAreCounted | isvctl/src/isvctl/orchestrator/loop.py:651-740 | when pytest's files account for their entries, no phase with validations works twice and none is named like a stub, the merged report has exactly as many testcases of a name as outcomes reported under it |
| ReportCounts.MissingCount | isvctl/src/isvctl/orchestrator/loop.py:207-227 | pytest's testcases of a name and the entries stubbed because it has none add up to the executed entries of that name |
| ReportCounts.RepeatedPhaseCountsAgain | isvctl/src/isvctl/orchestrator/loop.py:633-685 | a second pass of a phase adds all testcases and counters of pytest's file once more |
| ReportCounts.CountersAreRight | isvctl/src/isvctl/orchestrator/loop.py:147-197 | whenever pytest's files have as many testcases as their suites say, so has the merged report, in every run |
| ReportExactness.RepeatIsNotExact | isvctl/src/isvctl/orchestrator/loop.py:583-740 | for every list in which a phase comes twice, a run with one outcome whose testcase is in the merged report at least twice |
| ReportExactness.AlwaysExactIff | isvctl/src/isvctl/orchestrator/loop.py:442-740 | when pytest's files account for their entries, every run with these phases shows each outcome exactly once exactly when no run can write two files at one path and no phase comes twice |
| EnvCatalog.BuildSectionMaps | isvctl/src/isvctl/config/env_catalog.py:254-273 | the loop builds both tables, or stops at the first variable without section or with a wrong prefix |
| EnvCatalog.PairFrom | isvctl/src/isvctl/config/env_catalog.py:254-273 | a pair leads to the last variable that has it |
| EnvCatalog.PairOfIs | isvctl/src/isvctl/config/env_catalog.py:250-272 | a variable has the name of the last section of its group and, in lower case, what follows that section's prefix; without the prefix it is refused, and so is a persistable one without a section |
| EnvCatalog.BijectionIff | isvctl/src/isvctl/config/env_catalog.py:254-291 | the two tables are inverse exactly when no keys collide after lower-casing |
| EnvCatalog.CaseCollision | isvctl/src/isvctl/config/env_catalog.py:254-273 | any two variables of a section whose names differ only in case are accepted and do not both come back from the tables |
| EnvCatalog.CollidingKeysLoseName | isvctl/src/isvctl/config/env_catalog.py:254-291 | an accepted catalog of two such variables |
| EnvCatalog.PersistableHasPair | isvctl/src/isvctl/config/env_catalog.py:257-258 | every persistable variable has a pair in a known section |
| UserConfig.CatalogRules | isvctl/src/isvctl/config/user.py:57-71 | such catalogs without a section called version satisfy what the store needs |
| UserConfig.ReadEnvFile | isvctl/src/isvctl/config/user.py:160-214 | the reading loops accept exactly the well-formed files and collect exactly their values |
| UserConfig.ReadsIff | isvctl/src/isvctl/config/user.py:111-214 | exactly which documents are read: empty ones, and mappings without a version or with version 1 whose other members are known sections, empty or with keys that lead to variables of this file and strings |
| UserConfig.ReadGives | isvctl/src/isvctl/config/user.py:195-214 | what they give: the strings at the places of the known names |
| UserConfig.ToSections | isvctl/src/isvctl/config/user.py:247-258 | the grouping loop puts every variable under its section and key, and nothing else |
| UserConfig.WrittenReadsBack | isvctl/src/isvctl/config/user.py:160-214 | reading undoes writing |
| UserConfig.UserStore.WriteUserConfig | isvctl/src/isvctl/config/user.py:321-366 | values are routed to the two files; a file is replaced only when it gains a value, refused input changes nothing |
| UserConfig.UserStore.UnsetUserConfig | isvctl/src/isvctl/config/user.py:369-405 | the named values go, a file without values is removed, untouched files stay |
| UserConfig.UserStore.ClearUserConfig | isvctl/src/isvctl/config/user.py:408-416 | both files go, config first |
| UserConfig.UserStore.Perform | isvctl/src/isvctl/config/user.py:321-416 | each operation does to the two files what it does to one map, failing file operations included |
| UserConfig.SetAt | isvctl/src/isvctl/config/user.py:321-366 | what setting does to each name and how it ends: nothing when a name is unknown or a value no string; else the given values get in whose file, and any file before it that changes, could be replaced |
| UserConfig.UnsetAt | isvctl/src/isvctl/config/user.py:369-416 | what unsetting and clearing do to each name and how they end, in the same way |
| UserConfig.UserStore.Run | isvctl/src/isvctl/config/user.py:217-227 | after any operations from no files, loading succeeds with the single map, secrets and others in their own files |
| UserConfig.WriteAll | isvctl/src/isvctl/config/user.py:261-268 | everything is written in order, or some call took nothing, and exactly what the calls before it took is written |
| TextOrder.SortedSetIff | isvtest/src/isvtest/catalog.py:435-440 | sorting a set depends on the set alone and tells sets apart |
| TextOrder.SortedUnique | isvtest/src/isvtest/catalog.py:442 | with a key that tells elements apart the sorted permutation is unique |
| JsonText.EscapePrefixFree | isvtest/src/isvtest/catalog.py:442-449 | escaped characters, surrogate pairs included, are prefix-free |
| JsonText.ClosedPrefixFree | isvtest/src/isvtest/catalog.py:442-449 | a string's text determines the string and where it ends |
| JsonText.EncodePrefixFree | isvtest/src/isvtest/catalog.py:442-449 | text that starts with a value's encoding starts with only one value's |
| JsonText.EncodeInjective | isvtest/src/isvtest/catalog.py:442-449 | compact JSON text determines the value |
| JsonText.EncodePrintable | isvtest/src/isvtest/catalog.py:442-449 | the text has no control characters, and in ASCII mode nothing but printable ASCII |
| JsonText.SampleText | isvtest/src/isvtest/catalog.py:442-449 | how a line break and a letter outside ASCII are written in both modes |
| JsonText.SampleList | isvtest/src/isvtest/catalog.py:442-449 | items are separated by commas alone |
| CatalogDigest.EntryKeysInOrder | isvtest/src/isvtest/catalog.py:431-442 | an entry's members are written in sorted order |
| CatalogDigest.ContractKeysInOrder | isvtest/src/isvtest/catalog.py:443-449 | so are the contract's |
| CatalogDigest.EntryWritten | isvtest/src/isvtest/catalog.py:431-441 | which member of an entry is written under which key, missing fields with their defaults and lists as strictly sorted sets |
| CatalogDigest.ContractWritten | isvtest/src/isvtest/catalog.py:443-448 | which member of the contract is written under which key, the entries sorted by their text |
| CatalogDigest.SortedEntriesIff | isvtest/src/isvtest/catalog.py:442 | sorted entry lists are equal exactly when they are equal as bags |
| CatalogDigest.PayloadIff | isvtest/src/isvtest/catalog.py:429-449 | two documents get the same payload exactly when they agree on schema version, capability and suite sets, and the multiset of entries up to set equality of their lists |
| CatalogDigest.Digest | isvtest/src/isvtest/catalog.py:421-450 | the appending and sorting loop hashes that payload |
| CatalogDigest.DigestIff | isvtest/src/isvtest/catalog.py:421-450 | digests agree exactly for such documents, as far as the hash tells their payloads apart |
| ProviderFetch.Fetcher.Fetch | isvctl/src/isvctl/cli/provider.py:503-540 | in every intermediate state a previous checkout is whole at the target or the previous path, or the new one is at the target; success exactly when nothing fails, with exactly the pinned commit; a reported failure leaves the target as it was; a raised one does so too, or leaves the old checkout whole at the previous path, or the new one in place |
| ProviderFetch.Fetcher.Stage | isvctl/src/isvctl/cli/provider.py:514-528 | fetching into staging, however it ends, leaves the target as it was and nothing at the previous path; when it succeeds nothing but the marked staging directory is new |
| ProviderFetch.Fetcher.Swap | isvctl/src/isvctl/cli/provider.py:530-545 | the renames with rollback keep every state safe |
| BuildRef.MatchIff | isvreporter/src/isvreporter/version.py:61 | the pattern matches in at most one way, hyphens in the tag notwithstanding, and that match is found |
| BuildRef.ParsePrinted | isvreporter/src/isvreporter/version.py:218-241 | parsing a printed reference gives back its four parts, whatever white space is around it |
| BuildRef.ParsesIff | isvreporter/src/isvreporter/version.py:218-241 | exactly which texts are read, and as what |
| BuildRef.ReleaseIff | isvreporter/src/isvreporter/version.py:244-270 | true exactly for clean zero-distance references tagged with the stripped version, undecided exactly for unreadable ones |
| BuildRef.StripSplits | isvreporter/src/isvreporter/version.py:232 | stripping takes exactly the white space at both ends |
| ReleaseNotes.ReferencesIff | scripts/generate_release_notes.py:402 | the scan finds exactly the hash signs followed by a maximal run of digits |
| ReleaseNotes.MentionsCorrect | scripts/generate_release_notes.py:400-403 | the milestone's issues mentioned in a body, each once, ascending |
| ReleaseNotes.LinkPrsToIssues | scripts/generate_release_notes.py:406-432 | the in-place algorithm leaves on every issue, sorted, exactly its closing list, each as often as there, and the merged pull requests in no closing list whose body refers to it, and drops exactly the pull requests on some line |
| ReleaseNotes.LinkedIffOnLine | scripts/generate_release_notes.py:417-430 | a number is linked exactly when it is on some issue's line |
| ReleaseNotes.IssuesKept | scripts/generate_release_notes.py:432 | issues keep their order and none is dropped |
| ReleaseNotes.DroppedIff | scripts/generate_release_notes.py:406-432 | a pull request is dropped exactly when its number is on a kept issue's line |
| ReleaseNotes.LineSorted | scripts/generate_release_notes.py:429-430 | each line is a stable sort of declared links followed by mentions |
| ReleaseNotes.LineOfNumber | scripts/generate_release_notes.py:417-430 | a pull request of some closing list is on a line as often and as ordered as in the issue's own list, any other at most once |
| ReleaseNotes.MentionedOnce | scripts/generate_release_notes.py:420-427 | a mentioning pull request is added at most once per issue |

## Left out

- Numbers in documents are integers; floating-point values are not modelled, and neither are non-string mapping keys or key order.
- YAML, XML and Jinja parsing, `parse_set_value` and the resolution of import paths: documents come as trees, paths as keys.
- Values set in the same dictionary twice through aliases in YAML text (anchors).
- `CordonMain.Cluster.CordonTest`: an ambiguous patch is committed or dead before the client's next call, nobody else writes this token, and every write of others that has a version has a new one, so that a version names one node for good; `CordonRuns` drops the first assumption.
- `CordonRuns.CordonIntervalsAreExclusive`: run tokens are distinct, and other writers may change anything but the marker and schedulability, with a new resource version each time.
- Node objects that make the code raise attribute errors count as not available; one node, without tolerations, pod manifests, polling and deadlines. Array indices in JSON patches.
- `_render_args` and `_find_missing_step_path`: whether a step's arguments render is part of the arbitrary outcome of the step; step outputs, inventories and messages.
- `resolve_entries`: any function that keeps length and order; labels, exclusions and rendering are behind it.
- JUnit `time` attributes, redaction and malformed counters; suites nested in suites, and testcases outside suites.
- `PhaseReports.EveryOutcomeReported`: for runs whose files may not share a path; `ReportCoverage.AlwaysReportedIff` gives the exact condition for a list of phases, not for one run.
- Error messages of the user configuration reader: which of several faults is reported depends on key order. Checks that the two paths differ, file modes, symbolic links and the parent directory.
- `UserConfig.UserStore.Run`: the `existing` argument, a cached result of loading, is always read anew.
- Upper- and lower-casing and digits outside ASCII; lone surrogates in strings.
- `ReleaseNotes.MentionsCorrect`: references of more than 4300 digits, on which the conversion raises.
- `CatalogDigest.PayloadIff`: scalar fields are strings, null or absent, the schema version an integer or absent; SHA-256 and UTF-8 are an abstract function.
- `ProviderFetch.Fetcher.Fetch`: staging and previous paths are new, as temporary names are; the registry, version warnings and printed hints.
- `git`, HTTP and command-line interfaces, tables, Markdown and AsciiDoc rendering, settings, inventories and output schemas.
