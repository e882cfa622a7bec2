/** The cordon protocol's view of one Kubernetes node: which nodes may be
    claimed, and the two conditional patches that claim and release one. */
module NodeCordon {
  import opened Json
  import opened JsonPatch

  const OWNER_ANNOTATION := "isvtest.nvidia.com/bfx01-04-owner"
  const VERSION_PATH: Pointer := ["metadata", "resourceVersion"]
  const ANNOTATIONS_PATH: Pointer := ["metadata", "annotations"]
  const OWNER_PATH: Pointer := ["metadata", "annotations", OWNER_ANNOTATION]
  const SPEC_PATH: Pointer := ["spec"]
  const UNSCHEDULABLE_PATH: Pointer := ["spec", "unschedulable"]
  const UNCORDON_ATTEMPTS := 3

  /** Truth value of a decoded JSON value in a condition. */
  predicate Truthy(v: Json) {
    match v
    case Null => false
    case Bool(b) => b
    case Num(n) => n != 0
    case Str(s) => s != ""
    case Arr(items) => items != []
    case Obj(members) => members != map[]
  }

  function At(doc: Json, path: Pointer, missing: Json): Json {
    match Lookup(doc, path) case None => missing case Some(v) => v
  }

  predicate OwnedBy(node: Json, token: string) {
    Lookup(node, OWNER_PATH) == Some(Str(token))
  }

  predicate Unclaimed(node: Json) {
    Lookup(node, OWNER_PATH).None?
  }

  predicate Cordoned(node: Json) {
    Truthy(At(node, UNSCHEDULABLE_PATH, Bool(false)))
  }

  function Version(node: Json): Option<string> {
    match Lookup(node, VERSION_PATH)
    case Some(Str(s)) => if s == "" then None else Some(s)
    case _ => None
  }

  /** Annotations are missing, null or a mapping. */
  predicate AnnotationsUsable(node: Json) {
    var a := At(node, ANNOTATIONS_PATH, Null);
    a.Null? || a.Obj?
  }

  predicate IsReady(node: Json) {
    match At(node, ["status", "conditions"], Arr([]))
    case Arr(items) =>
      exists i | 0 <= i < |items| ::
        Lookup(items[i], ["type"]) == Some(Str("Ready")) && Lookup(items[i], ["status"]) == Some(Str("True"))
    case _ => false
  }

  predicate NodeIsAvailable(node: Json) {
    IsReady(node) && !Cordoned(node) && Unclaimed(node) && AnnotationsUsable(node)
  }

  /** The snapshot a claim is made from. */
  datatype Selection = Selection(version: string, spec: Json, annotationsPresent: bool)

  datatype SelectError = NotAvailable | NoHostname | NoVersion | BadSpec

  function SelectNode(node: Json): Result<Selection, SelectError> {
    if !NodeIsAvailable(node) then Err(NotAvailable)
    else if !HasHostname(node) then Err(NoHostname)
    else if Version(node).None? then Err(NoVersion)
    else if !At(node, SPEC_PATH, Obj(map[])).Obj? then Err(BadSpec)
    else Ok(Selection(Version(node).value, At(node, SPEC_PATH, Obj(map[])), At(node, ANNOTATIONS_PATH, Null).Obj?))
  }

  predicate HasHostname(node: Json) {
    match Lookup(node, ["metadata", "labels", "kubernetes.io/hostname"])
    case Some(Str(s)) => s != ""
    case _ => false
  }

  /** Some condition of the node says that it is ready. */
  ghost predicate HasReadyCondition(node: Json) {
    exists items, i ::
      && Lookup(node, ["status", "conditions"]) == Some(Arr(items)) && 0 <= i < |items|
      && Lookup(items[i], ["type"]) == Some(Str("Ready")) && Lookup(items[i], ["status"]) == Some(Str("True"))
  }

  lemma IsReadyIff(node: Json)
    ensures IsReady(node) <==> HasReadyCondition(node)
  {
    if HasReadyCondition(node) {
      var items, i :|
        && Lookup(node, ["status", "conditions"]) == Some(Arr(items)) && 0 <= i < |items|
        && Lookup(items[i], ["type"]) == Some(Str("Ready")) && Lookup(items[i], ["status"]) == Some(Str("True"));
    }
  }

  ghost predicate HasText(node: Json, path: Pointer) {
    exists s :: s != "" && Lookup(node, path) == Some(Str(s))
  }

  lemma VersionIff(node: Json)
    ensures Version(node).Some? <==> HasText(node, VERSION_PATH)
    ensures Version(node).Some? ==> Lookup(node, VERSION_PATH) == Some(Str(Version(node).value))
  {
    if Version(node).Some? {
      assert Version(node).value != "" && Lookup(node, VERSION_PATH) == Some(Str(Version(node).value));
    }
  }

  lemma HasHostnameIff(node: Json)
    ensures HasHostname(node) <==> HasText(node, ["metadata", "labels", "kubernetes.io/hostname"])
  {
    if HasHostname(node) {
      var s := Lookup(node, ["metadata", "labels", "kubernetes.io/hostname"]).value.s;
      assert s != "" && Lookup(node, ["metadata", "labels", "kubernetes.io/hostname"]) == Some(Str(s));
    }
  }

  /** Exactly which nodes are selected: ready ones with a version and a host name, not
      unschedulable, without a marker of any run, and with usable annotations and spec. */
  lemma SelectedIff(node: Json)
    ensures SelectNode(node).Ok? <==>
            && HasReadyCondition(node)
            && HasText(node, VERSION_PATH) && HasText(node, ["metadata", "labels", "kubernetes.io/hostname"])
            && (Lookup(node, UNSCHEDULABLE_PATH).Some? ==>
                  Lookup(node, UNSCHEDULABLE_PATH).value in [Null, Bool(false), Num(0), Str(""), Arr([]), Obj(map[])])
            && Lookup(node, OWNER_PATH).None?
            && (Lookup(node, ANNOTATIONS_PATH).Some? ==>
                  Lookup(node, ANNOTATIONS_PATH).value.Null? || Lookup(node, ANNOTATIONS_PATH).value.Obj?)
            && (Lookup(node, SPEC_PATH).Some? ==> Lookup(node, SPEC_PATH).value.Obj?)
  {
    IsReadyIff(node);
    VersionIff(node);
    HasHostnameIff(node);
  }

  // ---- The patches ----

  function ClaimGuards(sel: Selection): seq<Op> {
    [Test(VERSION_PATH, Str(sel.version)),
     if sel.spec.Obj? && "unschedulable" in sel.spec.members then Test(UNSCHEDULABLE_PATH, Bool(false))
     else Test(SPEC_PATH, sel.spec)]
  }

  function ClaimEdits(sel: Selection, token: string): seq<Op> {
    [if sel.annotationsPresent then Add(OWNER_PATH, Str(token))
     else Add(ANNOTATIONS_PATH, Obj(map[OWNER_ANNOTATION := Str(token)])),
     Add(UNSCHEDULABLE_PATH, Bool(true))]
  }

  function ClaimPatch(sel: Selection, token: string): seq<Op> {
    ClaimGuards(sel) + ClaimEdits(sel, token)
  }

  function ReleaseGuards(version: string, token: string): seq<Op> {
    [Test(VERSION_PATH, Str(version)), Test(OWNER_PATH, Str(token))]
  }

  function UncordonOps(cordoned: bool): seq<Op> {
    if cordoned then [Test(UNSCHEDULABLE_PATH, Bool(true)), Replace(UNSCHEDULABLE_PATH, Bool(false))] else []
  }

  function ReleasePatch(version: string, token: string, cordoned: bool): seq<Op> {
    ReleaseGuards(version, token) + UncordonOps(cordoned) + [Remove(OWNER_PATH)]
  }

  /** What the API server stores when a patch commits: the patched node under a new version. */
  function Commit(node: Json, ops: seq<Op>, version: string): Option<Json> {
    match ApplyPatch(node, ops)
    case None => None
    case Some(d) => Put(d, VERSION_PATH, Str(version))
  }

  lemma PathsDiverge()
    ensures Diverge(VERSION_PATH, OWNER_PATH) && Diverge(VERSION_PATH, ANNOTATIONS_PATH)
    ensures Diverge(VERSION_PATH, UNSCHEDULABLE_PATH) && Diverge(OWNER_PATH, VERSION_PATH)
    ensures Diverge(OWNER_PATH, UNSCHEDULABLE_PATH) && Diverge(UNSCHEDULABLE_PATH, OWNER_PATH)
    ensures Diverge(ANNOTATIONS_PATH, UNSCHEDULABLE_PATH) && Diverge(ANNOTATIONS_PATH, VERSION_PATH)
    ensures Diverge(UNSCHEDULABLE_PATH, VERSION_PATH)
  {
    assert VERSION_PATH[1] != ANNOTATIONS_PATH[1] && VERSION_PATH[1] != OWNER_PATH[1];
    assert VERSION_PATH[0] != UNSCHEDULABLE_PATH[0] && OWNER_PATH[0] != UNSCHEDULABLE_PATH[0];
    assert ANNOTATIONS_PATH[0] != UNSCHEDULABLE_PATH[0];
  }

  lemma ApplyTwo(doc: Json, a: Op, b: Op)
    ensures ApplyPatch(doc, [a, b]) == match ApplyOp(doc, a) case None => None case Some(d) => ApplyOp(d, b)
  {
    assert [a, b] == [a] + [b];
    ApplyConcat(doc, [a], [b]);
    ApplyOne(doc, a);
    match ApplyOp(doc, a)
    case None =>
    case Some(d) => ApplyOne(d, b);
  }

  lemma ClaimPatchParts(node: Json, sel: Selection, token: string)
    ensures ApplyPatch(node, ClaimPatch(sel, token)).Some? ==>
              ApplyPatch(node, ClaimGuards(sel)) == Some(node)
    ensures ApplyPatch(node, ClaimGuards(sel)).Some? ==>
              ApplyPatch(node, ClaimPatch(sel, token)) == ApplyPatch(node, ClaimEdits(sel, token))
  {
    ApplyConcat(node, ClaimGuards(sel), ClaimEdits(sel, token));
    ApplyTwo(node, ClaimGuards(sel)[0], ClaimGuards(sel)[1]);
  }

  /** A claim patch commits only on the version it was made from, and leaves the
      node marked by the run and unschedulable. */
  lemma ClaimPatchEffect(node: Json, sel: Selection, token: string)
    requires ApplyPatch(node, ClaimPatch(sel, token)).Some?
    ensures Lookup(node, VERSION_PATH) == Some(Str(sel.version))
    ensures var d := ApplyPatch(node, ClaimPatch(sel, token)).value;
            && OwnedBy(d, token) && Lookup(d, UNSCHEDULABLE_PATH) == Some(Bool(true))
            && Lookup(d, VERSION_PATH) == Lookup(node, VERSION_PATH)
  {
    PathsDiverge();
    ClaimPatchParts(node, sel, token);
    ApplyTwo(node, ClaimGuards(sel)[0], ClaimGuards(sel)[1]);
    var mark, cordon := ClaimEdits(sel, token)[0], ClaimEdits(sel, token)[1];
    ApplyTwo(node, mark, cordon);
    var marked := ApplyOp(node, mark).value;
    PutThenLookup(node, mark.path, mark.value);
    PutKeepsDiverging(node, mark.path, mark.value, VERSION_PATH);
    PutThenLookup(marked, UNSCHEDULABLE_PATH, Bool(true));
    PutKeepsDiverging(marked, UNSCHEDULABLE_PATH, Bool(true), OWNER_PATH);
    PutKeepsDiverging(marked, UNSCHEDULABLE_PATH, Bool(true), VERSION_PATH);
    assert OwnedBy(marked, token) by {
      assert OWNER_PATH == ANNOTATIONS_PATH + [OWNER_ANNOTATION];
      LookupThrough(marked, ANNOTATIONS_PATH, [OWNER_ANNOTATION]);
      if !sel.annotationsPresent {
        assert [OWNER_ANNOTATION][1..] == [];
        assert Lookup(mark.value, [OWNER_ANNOTATION]) == Some(Str(token));
      }
    }
  }

  /** There is a spec whose schedulability field is missing or literally false. */
  predicate Claimable(node: Json) {
    Lookup(node, SPEC_PATH).Some? && At(node, UNSCHEDULABLE_PATH, Bool(false)) == Bool(false)
  }

  lemma ClaimGuardsHoldIff(node: Json)
    requires SelectNode(node).Ok? && Lookup(node, SPEC_PATH).Some?
    ensures ApplyPatch(node, ClaimGuards(SelectNode(node).value)).Some? <==>
            At(node, UNSCHEDULABLE_PATH, Bool(false)) == Bool(false)
  {
    var sel := SelectNode(node).value;
    ApplyTwo(node, ClaimGuards(sel)[0], ClaimGuards(sel)[1]);
    assert UNSCHEDULABLE_PATH == SPEC_PATH + ["unschedulable"] && ["unschedulable"][1..] == [];
    LookupThrough(node, SPEC_PATH, ["unschedulable"]);
  }

  lemma ClaimEditsApply(node: Json, token: string)
    requires SelectNode(node).Ok? && Lookup(node, SPEC_PATH).Some?
    ensures ApplyPatch(node, ClaimEdits(SelectNode(node).value, token)).Some?
  {
    var sel := SelectNode(node).value;
    var mark, cordon := ClaimEdits(sel, token)[0], ClaimEdits(sel, token)[1];
    ApplyTwo(node, mark, cordon);
    assert OWNER_PATH[..2] == ANNOTATIONS_PATH && ANNOTATIONS_PATH[..1] == ["metadata"];
    assert VERSION_PATH == ["metadata"] + ["resourceVersion"];
    LookupThrough(node, ["metadata"], ["resourceVersion"]);
    PutSucceedsIff(node, mark.path, mark.value);
    assert Diverge(mark.path, SPEC_PATH) by {
      assert mark.path[0] == "metadata" && SPEC_PATH[0] == "spec";
    }
    PutKeepsDiverging(node, mark.path, mark.value, SPEC_PATH);
    assert UNSCHEDULABLE_PATH[..1] == SPEC_PATH;
    PutSucceedsIff(ApplyOp(node, mark).value, UNSCHEDULABLE_PATH, Bool(true));
  }

  /** On the node it was made from, the claim patch commits exactly when there is a
      spec in which the schedulability field is missing or is literally false. A node
      without a spec can be selected, but its claim is always refused. */
  lemma ClaimAppliesToItsSnapshotIff(node: Json, token: string)
    requires SelectNode(node).Ok?
    ensures ApplyPatch(node, ClaimPatch(SelectNode(node).value, token)).Some? <==> Claimable(node)
  {
    if Lookup(node, SPEC_PATH).Some? {
      ClaimPatchParts(node, SelectNode(node).value, token);
      ClaimGuardsHoldIff(node);
      ClaimEditsApply(node, token);
    } else {
      var sel := SelectNode(node).value;
      ClaimPatchParts(node, sel, token);
      ApplyTwo(node, ClaimGuards(sel)[0], ClaimGuards(sel)[1]);
    }
  }

  lemma ReleasePatchParts(node: Json, version: string, token: string, cordoned: bool)
    requires ApplyPatch(node, ReleasePatch(version, token, cordoned)).Some?
    ensures Lookup(node, VERSION_PATH) == Some(Str(version)) && OwnedBy(node, token)
    ensures ApplyPatch(node, UncordonOps(cordoned)).Some?
    ensures var d := ApplyPatch(node, UncordonOps(cordoned)).value;
            Delete(d, OWNER_PATH) == ApplyPatch(node, ReleasePatch(version, token, cordoned))
  {
    var guards := ReleaseGuards(version, token);
    ApplyConcat(node, guards + UncordonOps(cordoned), [Remove(OWNER_PATH)]);
    ApplyConcat(node, guards, UncordonOps(cordoned));
    ApplyTwo(node, guards[0], guards[1]);
    ApplyOne(ApplyPatch(node, UncordonOps(cordoned)).value, Remove(OWNER_PATH));
  }

  /** A release patch commits only on a node that carries the run's own marker,
      and leaves it unmarked and, if it was meant to uncordon, schedulable. */
  lemma ReleasePatchEffect(node: Json, version: string, token: string, cordoned: bool)
    requires ApplyPatch(node, ReleasePatch(version, token, cordoned)).Some?
    ensures Lookup(node, VERSION_PATH) == Some(Str(version)) && OwnedBy(node, token)
    ensures var d := ApplyPatch(node, ReleasePatch(version, token, cordoned)).value;
            && Unclaimed(d) && Lookup(d, VERSION_PATH) == Lookup(node, VERSION_PATH)
            && Lookup(d, UNSCHEDULABLE_PATH) == if cordoned then Some(Bool(false)) else Lookup(node, UNSCHEDULABLE_PATH)
  {
    PathsDiverge();
    ReleasePatchParts(node, version, token, cordoned);
    var d := ApplyPatch(node, UncordonOps(cordoned)).value;
    if cordoned {
      ApplyTwo(node, UncordonOps(cordoned)[0], UncordonOps(cordoned)[1]);
      PutThenLookup(node, UNSCHEDULABLE_PATH, Bool(false));
      PutKeepsDiverging(node, UNSCHEDULABLE_PATH, Bool(false), VERSION_PATH);
    }
    DeleteThenLookup(d, OWNER_PATH);
    DeleteKeepsDiverging(d, OWNER_PATH, VERSION_PATH);
    DeleteKeepsDiverging(d, OWNER_PATH, UNSCHEDULABLE_PATH);
  }

  /** Storing the new version touches neither the marker nor schedulability. */
  lemma CommitEffect(node: Json, ops: seq<Op>, version: string)
    requires ApplyPatch(node, ops).Some? && Lookup(ApplyPatch(node, ops).value, VERSION_PATH).Some?
    ensures Commit(node, ops, version).Some?
    ensures var d, c := ApplyPatch(node, ops).value, Commit(node, ops, version).value;
            && Lookup(c, VERSION_PATH) == Some(Str(version))
            && Lookup(c, OWNER_PATH) == Lookup(d, OWNER_PATH)
            && Lookup(c, UNSCHEDULABLE_PATH) == Lookup(d, UNSCHEDULABLE_PATH)
  {
    PathsDiverge();
    var d := ApplyPatch(node, ops).value;
    assert VERSION_PATH[..1] == ["metadata"] && VERSION_PATH == ["metadata"] + ["resourceVersion"];
    LookupThrough(d, ["metadata"], ["resourceVersion"]);
    PutSucceedsIff(d, VERSION_PATH, Str(version));
    PutThenLookup(d, VERSION_PATH, Str(version));
    PutKeepsDiverging(d, VERSION_PATH, Str(version), OWNER_PATH);
    PutKeepsDiverging(d, VERSION_PATH, Str(version), UNSCHEDULABLE_PATH);
  }

  /** What is stored carries the new version. */
  lemma CommitStamps(node: Json, ops: seq<Op>, version: string)
    requires Commit(node, ops, version).Some?
    ensures Lookup(Commit(node, ops, version).value, VERSION_PATH) == Some(Str(version))
  {
    PutThenLookup(ApplyPatch(node, ops).value, VERSION_PATH, Str(version));
  }

  /** A claim commits exactly when it applies. */
  lemma CommitNeedsPatch(node: Json, sel: Selection, token: string, version: string)
    ensures Commit(node, ClaimPatch(sel, token), version).Some? <==> ApplyPatch(node, ClaimPatch(sel, token)).Some?
  {
    if ApplyPatch(node, ClaimPatch(sel, token)).Some? {
      ClaimPatchEffect(node, sel, token);
      CommitEffect(node, ClaimPatch(sel, token), version);
    }
  }

  /** So does a release. */
  lemma ReleaseCommitsIff(node: Json, version: string, token: string, cordoned: bool, stamp: string)
    ensures Commit(node, ReleasePatch(version, token, cordoned), stamp).Some? <==>
            ApplyPatch(node, ReleasePatch(version, token, cordoned)).Some?
  {
    if ApplyPatch(node, ReleasePatch(version, token, cordoned)).Some? {
      ReleasePatchEffect(node, version, token, cordoned);
      CommitEffect(node, ReleasePatch(version, token, cordoned), stamp);
    }
  }

  lemma UncordonAppliesIff(node: Json)
    requires Cordoned(node)
    ensures ApplyPatch(node, UncordonOps(true)).Some? <==> Lookup(node, UNSCHEDULABLE_PATH) == Some(Bool(true))
  {
    ApplyTwo(node, UncordonOps(true)[0], UncordonOps(true)[1]);
    if Lookup(node, UNSCHEDULABLE_PATH) == Some(Bool(true)) {
      assert UNSCHEDULABLE_PATH[..1] == SPEC_PATH && UNSCHEDULABLE_PATH == SPEC_PATH + ["unschedulable"];
      LookupThrough(node, SPEC_PATH, ["unschedulable"]);
      PutSucceedsIff(node, UNSCHEDULABLE_PATH, Bool(false));
    }
  }

  lemma UncordonKeepsMarker(node: Json, cordoned: bool)
    requires ApplyPatch(node, UncordonOps(cordoned)).Some?
    ensures Lookup(ApplyPatch(node, UncordonOps(cordoned)).value, OWNER_PATH) == Lookup(node, OWNER_PATH)
  {
    PathsDiverge();
    if cordoned {
      ApplyTwo(node, UncordonOps(true)[0], UncordonOps(true)[1]);
      PutKeepsDiverging(node, UNSCHEDULABLE_PATH, Bool(false), OWNER_PATH);
    }
  }

  lemma ReleasePatchApplies(node: Json, version: string, token: string, cordoned: bool)
    requires Lookup(node, VERSION_PATH) == Some(Str(version)) && OwnedBy(node, token)
    ensures ApplyPatch(node, ReleasePatch(version, token, cordoned)).Some? <==>
            ApplyPatch(node, UncordonOps(cordoned)).Some?
  {
    var guards := ReleaseGuards(version, token);
    ApplyConcat(node, guards + UncordonOps(cordoned), [Remove(OWNER_PATH)]);
    ApplyConcat(node, guards, UncordonOps(cordoned));
    ApplyTwo(node, guards[0], guards[1]);
    if ApplyPatch(node, UncordonOps(cordoned)).Some? {
      var d := ApplyPatch(node, UncordonOps(cordoned)).value;
      UncordonKeepsMarker(node, cordoned);
      ApplyOne(d, Remove(OWNER_PATH));
      DeleteSucceedsIff(d, OWNER_PATH);
    }
  }

  /** The release patch made from a marked node applies to it exactly when the node is
      schedulable or literally unschedulable. */
  lemma ReleaseAppliesToItsSnapshotIff(node: Json, token: string)
    requires OwnedBy(node, token) && Version(node).Some?
    ensures ApplyPatch(node, ReleasePatch(Version(node).value, token, Cordoned(node))).Some? <==>
            (Cordoned(node) ==> Lookup(node, UNSCHEDULABLE_PATH) == Some(Bool(true)))
  {
    ReleasePatchApplies(node, Version(node).value, token, Cordoned(node));
    if Cordoned(node) {
      UncordonAppliesIff(node);
    }
  }

  lemma UnclaimedIsNotOwned(node: Json, token: string)
    requires SelectNode(node).Ok?
    ensures !OwnedBy(node, token)
  {
  }

  lemma SelectionNamesSnapshot(node: Json)
    requires SelectNode(node).Ok?
    ensures Version(node) == Some(SelectNode(node).value.version)
  {
  }

  lemma ClaimKeepsOthers(node: Json, sel: Selection, token: string, v: string, other: Pointer)
    requires Commit(node, ClaimPatch(sel, token), v).Some?
    requires Diverge(ANNOTATIONS_PATH, other) && Diverge(UNSCHEDULABLE_PATH, other) && Diverge(VERSION_PATH, other)
    ensures Lookup(Commit(node, ClaimPatch(sel, token), v).value, other) == Lookup(node, other)
  {
    assert OWNER_PATH[..2] == ANNOTATIONS_PATH;
    DivergeBelow(ANNOTATIONS_PATH, OWNER_PATH, other);
    ClaimPatchParts(node, sel, token);
    var mark, cordon := ClaimEdits(sel, token)[0], ClaimEdits(sel, token)[1];
    ApplyTwo(node, mark, cordon);
    PutKeepsDiverging(node, mark.path, mark.value, other);
    PutKeepsDiverging(ApplyOp(node, mark).value, UNSCHEDULABLE_PATH, Bool(true), other);
    PutKeepsDiverging(ApplyPatch(node, ClaimPatch(sel, token)).value, VERSION_PATH, Str(v), other);
  }

  lemma ReleaseKeepsOthers(node: Json, version: string, token: string, cordoned: bool, v: string, other: Pointer)
    requires Commit(node, ReleasePatch(version, token, cordoned), v).Some?
    requires Diverge(OWNER_PATH, other) && Diverge(UNSCHEDULABLE_PATH, other) && Diverge(VERSION_PATH, other)
    ensures Lookup(Commit(node, ReleasePatch(version, token, cordoned), v).value, other) == Lookup(node, other)
  {
    ReleasePatchParts(node, version, token, cordoned);
    if cordoned {
      ApplyTwo(node, UncordonOps(true)[0], UncordonOps(true)[1]);
      PutKeepsDiverging(node, UNSCHEDULABLE_PATH, Bool(false), other);
    }
    DeleteKeepsDiverging(ApplyPatch(node, UncordonOps(cordoned)).value, OWNER_PATH, other);
    PutKeepsDiverging(
      ApplyPatch(node, ReleasePatch(version, token, cordoned)).value, VERSION_PATH, Str(v), other);
  }

  lemma NothingBelowMissing(node: Json, path: Pointer, key: string, rest: Pointer)
    requires At(node, path, Null).Null?
    ensures Lookup(node, path + ([key] + rest)) == None
  {
    LookupThrough(node, path, [key] + rest);
  }

  lemma OtherKeyOfMarker(token: string, key: string, rest: Pointer)
    requires key != OWNER_ANNOTATION
    ensures Lookup(Obj(map[OWNER_ANNOTATION := Str(token)]), [key] + rest) == None
  {
  }

  /** Marking a node from its own snapshot adds the marker and leaves other annotations alone. */
  lemma MarkKeepsAnnotations(node: Json, token: string, key: string, rest: Pointer)
    requires SelectNode(node).Ok? && key != OWNER_ANNOTATION
    requires ApplyOp(node, ClaimEdits(SelectNode(node).value, token)[0]).Some?
    ensures Lookup(ApplyOp(node, ClaimEdits(SelectNode(node).value, token)[0]).value, ANNOTATIONS_PATH + ([key] + rest))
            == Lookup(node, ANNOTATIONS_PATH + ([key] + rest))
  {
    var mark := ClaimEdits(SelectNode(node).value, token)[0];
    var other := ANNOTATIONS_PATH + ([key] + rest);
    if SelectNode(node).value.annotationsPresent {
      assert other[2] == key && OWNER_PATH[2] == OWNER_ANNOTATION;
      PutKeepsDiverging(node, OWNER_PATH, mark.value, other);
    } else {
      var marked := ApplyOp(node, mark).value;
      PutThenLookup(node, ANNOTATIONS_PATH, mark.value);
      LookupThrough(marked, ANNOTATIONS_PATH, [key] + rest);
      OtherKeyOfMarker(token, key, rest);
      NothingBelowMissing(node, ANNOTATIONS_PATH, key, rest);
    }
  }

  /** A claim from a node's own snapshot keeps the annotations other than its marker. */
  lemma ClaimKeepsAnnotations(node: Json, token: string, v: string, key: string, rest: Pointer)
    requires SelectNode(node).Ok? && key != OWNER_ANNOTATION
    requires Commit(node, ClaimPatch(SelectNode(node).value, token), v).Some?
    ensures Lookup(Commit(node, ClaimPatch(SelectNode(node).value, token), v).value, ANNOTATIONS_PATH + ([key] + rest))
            == Lookup(node, ANNOTATIONS_PATH + ([key] + rest))
  {
    var sel, other := SelectNode(node).value, ANNOTATIONS_PATH + ([key] + rest);
    ClaimPatchParts(node, sel, token);
    var mark, cordon := ClaimEdits(sel, token)[0], ClaimEdits(sel, token)[1];
    ApplyTwo(node, mark, cordon);
    MarkKeepsAnnotations(node, token, key, rest);
    assert other[0] == "metadata" && other[1] == "annotations";
    assert Diverge(UNSCHEDULABLE_PATH, other) by { assert UNSCHEDULABLE_PATH[0] == "spec"; }
    assert Diverge(VERSION_PATH, other) by { assert VERSION_PATH[1] == "resourceVersion"; }
    PutKeepsDiverging(ApplyOp(node, mark).value, UNSCHEDULABLE_PATH, Bool(true), other);
    PutKeepsDiverging(ApplyPatch(node, ClaimPatch(sel, token)).value, VERSION_PATH, Str(v), other);
  }

  /** And so does its release: every other annotation is as it was. */
  lemma ClaimThenReleaseKeepsAnnotations(
      node: Json, token: string, v1: string, v2: string, key: string, rest: Pointer)
    requires SelectNode(node).Ok? && key != OWNER_ANNOTATION
    requires Commit(node, ClaimPatch(SelectNode(node).value, token), v1).Some?
    requires var claimed := Commit(node, ClaimPatch(SelectNode(node).value, token), v1).value;
             Commit(claimed, ReleasePatch(v1, token, true), v2).Some?
    ensures var claimed := Commit(node, ClaimPatch(SelectNode(node).value, token), v1).value;
            Lookup(Commit(claimed, ReleasePatch(v1, token, true), v2).value, ANNOTATIONS_PATH + ([key] + rest))
            == Lookup(node, ANNOTATIONS_PATH + ([key] + rest))
  {
    var other := ANNOTATIONS_PATH + ([key] + rest);
    var claimed := Commit(node, ClaimPatch(SelectNode(node).value, token), v1).value;
    ClaimKeepsAnnotations(node, token, v1, key, rest);
    assert other[0] == "metadata" && other[1] == "annotations" && other[2] == key;
    assert Diverge(UNSCHEDULABLE_PATH, other) by { assert UNSCHEDULABLE_PATH[0] == "spec"; }
    assert Diverge(VERSION_PATH, other) by { assert VERSION_PATH[1] == "resourceVersion"; }
    assert Diverge(OWNER_PATH, other) by { assert OWNER_PATH[2] == OWNER_ANNOTATION; }
    ReleaseKeepsOthers(claimed, v1, token, true, v2, other);
  }

  /** Everything away from the marker, schedulability and the version survives a claim and its release. */
  lemma ClaimThenReleaseRestores(node: Json, sel: Selection, token: string, v1: string, v2: string, other: Pointer)
    requires Commit(node, ClaimPatch(sel, token), v1).Some?
    requires Commit(Commit(node, ClaimPatch(sel, token), v1).value, ReleasePatch(v1, token, true), v2).Some?
    requires Diverge(ANNOTATIONS_PATH, other) && Diverge(UNSCHEDULABLE_PATH, other) && Diverge(VERSION_PATH, other)
    ensures var after := Commit(Commit(node, ClaimPatch(sel, token), v1).value,
            ReleasePatch(v1, token, true), v2).value;
            && Lookup(after, other) == Lookup(node, other)
            && Unclaimed(after) && !Cordoned(after)
  {
    var claimed := Commit(node, ClaimPatch(sel, token), v1).value;
    ClaimKeepsOthers(node, sel, token, v1, other);
    assert OWNER_PATH[..2] == ANNOTATIONS_PATH;
    DivergeBelow(ANNOTATIONS_PATH, OWNER_PATH, other);
    ReleaseKeepsOthers(claimed, v1, token, true, v2, other);
    ReleasePatchEffect(claimed, v1, token, true);
    CommitEffect(claimed, ReleasePatch(v1, token, true), v2);
  }
}
