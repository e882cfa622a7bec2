/** One run of the cordon check, step by step, against a node that others write
    too and a client that may lose responses. A patch whose outcome the client
    does not know has either committed or is dead before its next call. */
module CordonMain {
  import opened Json
  import opened JsonPatch
  import opened NodeCordon

  /** What the client sees of a patch; only `Accepted` tells it that the patch committed. */
  datatype Outcome = Accepted | Refused | TimedOut

  /** A patch of this run that committed. */
  datatype Committed = Committed(patch: seq<Op>, before: Json, after: Json)

  datatype ReleaseError = OwnershipChanged | MissingVersion | ReadFailed | PatchFailed

  datatype ClaimError = ClaimTimedOut | ClaimRefused

  datatype CleanupError = PodNotDeleted | NodeNotReleased(error: ReleaseError) | UnexpectedCleanupFailure

  /** How far a run came before it ended or raised. */
  datatype Progress = Progress(kubectl: bool, pods: nat, ownership: bool, cordoned: bool, blocked: bool, running: bool,
                               success: bool)

  datatype Report = Report(success: bool, skipped: bool, progress: Progress, cleanupErrors: seq<CleanupError>)

  class Cluster {
    const token: string
    var node: Json
    var commits: seq<Committed>

    /** Every version the node ever had, with the node as it was then. */
    var versions: map<string, Json>

    /** What went against this run: reads, patches and pods that failed, lost
        responses, and writes of others. */
    ghost var troubles: nat

    /** How often the node was read. */
    ghost var looks: nat

    /** This run's marker is on the node only while its claim is its last commit, and
        the node is the one its version names. */
    ghost predicate Valid()
      reads this
    {
      && (OwnedBy(node, token) ==> commits != [] && OwnedBy(commits[|commits| - 1].after, token))
      && (Version(node).Some? ==> Version(node).value in versions && versions[Version(node).value] == node)
    }

    /** Versions name for good what they named. */
    ghost predicate Keeps(was: map<string, Json>)
      reads this`versions
    {
      forall v | v in was :: v in versions && versions[v] == was[v]
    }

    /** A release by this run: from its own marked node to one unmarked and schedulable. */
    ghost predicate IsRelease(c: Committed) {
      OwnedBy(c.before, token) && Unclaimed(c.after) && !Cordoned(c.after)
    }

    /** Since `was`, this run has released the node, or made no commit. */
    ghost predicate OnlyReleasesSince(was: seq<Committed>)
      reads this
    {
      || commits == was
      || (was != [] && |commits| == |was| + 1 && commits[..|was|] == was && IsRelease(commits[|was|]))
    }

    /** Without a marker of any run, and schedulable. */
    ghost predicate Free()
      reads this`node
    {
      At(node, OWNER_PATH, Null).Null? && !Cordoned(node)
    }

    constructor (token: string, node: Json)
      requires !OwnedBy(node, token)
      ensures Valid() && this.token == token && this.node == node && commits == [] && troubles == 0 && looks == 0
    {
      this.token := token;
      this.node := node;
      commits := [];
      versions := if Version(node).Some? then map[Version(node).value := node] else map[];
      troubles, looks := 0, 0;
    }

    method NewStamp() returns (v: string)
      ensures v != "" && v !in versions
    {
      var todo := versions.Keys;
      v := "1";
      while todo != {}
        invariant v != "" && todo <= versions.Keys
        invariant forall u | u in versions && u !in todo :: |u| < |v|
        decreases todo
      {
        var u :| u in todo;
        v := v + u + "1";
        todo := todo - {u};
      }
    }

    /** Other writers: anything at all under a new version, except that nobody else
        writes this run's token. */
    method Interfere()
      requires Valid()
      modifies `node, `versions, `troubles
      ensures Valid() && Keeps(old(versions)) && troubles >= old(troubles)
      ensures OwnedBy(node, token) ==> old(OwnedBy(node, token))
      ensures troubles == old(troubles) ==> node == old(node)
    {
      var d: Json := *;
      if (OwnedBy(d, token) ==> OwnedBy(node, token)) && (Version(d).None? || Version(d).value !in versions) {
        node := d;
        if Version(d).Some? {
          versions := versions[Version(d).value := d];
        }
        troubles := troubles + 1;
      }
    }

    method GetNode() returns (r: Option<Json>)
      requires Valid()
      modifies `node, `versions, `troubles, `looks
      ensures Valid() && Keeps(old(versions)) && troubles >= old(troubles) && looks == old(looks) + 1
      ensures OwnedBy(node, token) ==> old(OwnedBy(node, token))
      ensures r.Some? ==> r.value == node
      ensures troubles == old(troubles) ==> r.Some? && node == old(node)
    {
      Interfere();
      r := None;
      if * {
        r := Some(node);
      } else {
        troubles := troubles + 1;
      }
      looks := looks + 1;
    }

    /** The patch as it reaches the node, or does not. */
    method Send(patch: seq<Op>, stamp: string) returns (outcome: Outcome)
      requires Valid() && stamp != "" && stamp !in versions
      modifies `node, `commits, `versions, `troubles
      ensures Valid() && Keeps(old(versions)) && troubles >= old(troubles)
      ensures commits == old(commits) ==> outcome != Accepted && node == old(node)
      ensures commits != old(commits) ==>
                && Commit(old(node), patch, stamp) == Some(node)
                && commits == old(commits) + [Committed(patch, old(node), node)]
      ensures troubles == old(troubles) ==>
                && (commits != old(commits) <==> outcome == Accepted)
                && (outcome == Accepted <==> Commit(old(node), patch, stamp).Some?)
    {
      var stored := Commit(node, patch, stamp);
      var reaches: bool := *;
      outcome := *;
      if stored.None? {
        if !outcome.Refused? {
          troubles := troubles + 1;
          outcome := TimedOut;
        }
      } else if reaches || outcome.Accepted? {
        CommitStamps(node, patch, stamp);
        commits := commits + [Committed(patch, node, stored.value)];
        node := stored.value;
        versions := versions[stamp := node];
        if !outcome.Accepted? {
          troubles := troubles + 1;
        }
      } else {
        troubles := troubles + 1;
      }
    }

    /** One conditional patch. Without trouble it commits if it applies, and the client is told. */
    method Patch(patch: seq<Op>) returns (outcome: Outcome, ghost before: Json, ghost version: string)
      requires Valid()
      modifies `node, `commits, `versions, `troubles
      ensures Valid() && Keeps(old(versions)) && troubles >= old(troubles)
      ensures commits == old(commits) ==>
                outcome != Accepted && (OwnedBy(node, token) ==> old(OwnedBy(node, token)))
      ensures OwnedBy(before, token) ==> old(OwnedBy(node, token))
      ensures Version(before).Some? && Version(before).value in old(versions) ==>
                before == old(versions)[Version(before).value]
      ensures commits != old(commits) ==>
                Commit(before, patch, version) == Some(node) && version != ""
                && commits == old(commits) + [Committed(patch, before, node)]
      ensures troubles == old(troubles) ==>
                && before == old(node)
                && (commits != old(commits) <==> outcome == Accepted)
                && (outcome == Accepted <==> Commit(old(node), patch, version).Some?)
                && (commits == old(commits) ==> node == old(node))
    {
      Interfere();
      var stamp: string := *;
      if stamp == "" || stamp in versions {
        stamp := NewStamp();
      }
      before, version := node, stamp;
      outcome := Send(patch, stamp);
    }

    method ClaimIsObserved() returns (b: bool)
      requires Valid()
      modifies `node, `versions, `troubles, `looks
      ensures Valid() && Keeps(old(versions)) && troubles >= old(troubles)
      ensures OwnedBy(node, token) ==> old(OwnedBy(node, token))
      ensures b ==> OwnedBy(node, token) && Lookup(node, UNSCHEDULABLE_PATH) == Some(Bool(true))
      ensures troubles == old(troubles) ==>
                node == old(node)
                && (b <==> OwnedBy(node, token) && Lookup(node, UNSCHEDULABLE_PATH) == Some(Bool(true)))
    {
      var seen := GetNode();
      b := seen.Some? && OwnedBy(seen.value, token) && Lookup(seen.value, UNSCHEDULABLE_PATH) == Some(Bool(true));
    }

    /** The node was free to be claimed when `c` was committed, with the patch for
        that node, and then marked by this run and unschedulable. */
    ghost predicate IsClaim(c: Committed) {
      && SelectNode(c.before).Ok? && c.patch == ClaimPatch(SelectNode(c.before).value, token)
      && OwnedBy(c.after, token) && Lookup(c.after, UNSCHEDULABLE_PATH) == Some(Bool(true)) && Version(c.after).Some?
    }

    /** The conditional claim; success is reported only for a claim that committed,
        and without trouble exactly when the snapshot can be claimed. */
    method ClaimNode(snapshot: Json, sel: Selection) returns (r: Result<(), ClaimError>)
      requires Valid() && SelectNode(snapshot) == Ok(sel)
      requires sel.version in versions && versions[sel.version] == snapshot
      requires !OwnedBy(node, token)
      modifies this
      ensures Valid() && Keeps(old(versions)) && troubles >= old(troubles)
      ensures r.Ok? ==> commits != old(commits)
      ensures OwnedBy(node, token) ==> commits != old(commits)
      ensures commits == old(commits)
              || (|commits| == |old(commits)| + 1 && commits[..|old(commits)|] == old(commits)
                  && commits[|old(commits)|].before == snapshot && IsClaim(commits[|old(commits)|]))
      ensures troubles == old(troubles) && old(node) == snapshot ==>
                && (r.Ok? <==> ApplyPatch(snapshot, ClaimPatch(sel, token)).Some?)
                && (r.Ok? ==> node == commits[|commits| - 1].after)
    {
      var patch := ClaimPatch(sel, token);
      var outcome, before, stamp := Patch(patch);
      if commits != old(commits) {
        ClaimPatchEffect(before, sel, token);
        CommitEffect(before, patch, stamp);
      }
      CommitNeedsPatch(snapshot, sel, token, stamp);
      if outcome.Accepted? {
        return Ok(());
      }
      var observed := ClaimIsObserved();
      if observed {
        return Ok(());
      }
      r := Err(if outcome.TimedOut? then ClaimTimedOut else ClaimRefused);
    }

    /** What a release comes to on a node that nobody else writes, with every call answered. */
    ghost function Undisturbed(was: Json): Result<(), ReleaseError> {
      if At(was, OWNER_PATH, Null).Null? && !Cordoned(was) then Ok(())
      else if !OwnedBy(was, token) then Err(OwnershipChanged)
      else if Version(was).None? then Err(MissingVersion)
      else if Cordoned(was) && Lookup(was, UNSCHEDULABLE_PATH) != Some(Bool(true)) then Err(PatchFailed)
      else Ok(())
    }

    /** The conditional release with its retries: it returns without an error only
        when the node is unmarked and schedulable, every patch of its that commits
        leaves it so, and it gives up only after all its attempts. */
    method ReleaseNode() returns (r: Result<(), ReleaseError>)
      requires Valid()
      modifies this
      ensures Valid() && Keeps(old(versions)) && troubles >= old(troubles)
      ensures r.Ok? ==> Free()
      ensures OwnedBy(node, token) ==> old(OwnedBy(node, token))
      ensures OnlyReleasesSince(old(commits))
      ensures r == Err(ReadFailed) || r == Err(PatchFailed) ==> looks == old(looks) + UNCORDON_ATTEMPTS
      ensures troubles == old(troubles) ==>
                && r == Undisturbed(old(node))
                && (commits != old(commits) <==> r.Ok? && old(OwnedBy(node, token)))
                && (commits != old(commits) ==> commits[|commits| - 1].before == old(node))
    {
      var lastError := PatchFailed;
      var attempt := 0;
      while attempt < UNCORDON_ATTEMPTS
        invariant 0 <= attempt <= UNCORDON_ATTEMPTS && looks == old(looks) + attempt
        invariant Valid() && Keeps(old(versions)) && troubles >= old(troubles)
        invariant OwnedBy(node, token) ==> old(OwnedBy(node, token))
        invariant OnlyReleasesSince(old(commits))
        invariant commits != old(commits) ==> !OwnedBy(node, token)
        invariant lastError == ReadFailed || lastError == PatchFailed
        invariant troubles == old(troubles) ==>
                    && node == old(node) && commits == old(commits)
                    && (attempt > 0 ==> lastError == PatchFailed && Undisturbed(old(node)) == Err(PatchFailed))
      {
        attempt := attempt + 1;
        var seen := GetNode();
        if seen.None? {
          lastError := ReadFailed;
          continue;
        }
        var current := seen.value;
        var owner := At(current, OWNER_PATH, Null);
        var cordoned := Cordoned(current);
        if owner.Null? && !cordoned {
          return Ok(());
        }
        if owner != Str(token) {
          return Err(OwnershipChanged);
        }
        if Version(current).None? {
          return Err(MissingVersion);
        }
        var outcome := ReleaseOnce(current, Version(current).value, cordoned);
        if outcome.Accepted? {
          return Ok(());
        }
        lastError := PatchFailed;
      }
      r := Err(lastError);
    }

    method ReleaseOnce(current: Json, version: string, cordoned: bool) returns (outcome: Outcome)
      requires Valid() && node == current && OwnedBy(current, token)
      requires Version(current) == Some(version) && Cordoned(current) == cordoned
      modifies `node, `commits, `versions, `troubles
      ensures Valid() && Keeps(old(versions)) && troubles >= old(troubles)
      ensures outcome.Accepted? ==> Free() && commits != old(commits)
      ensures commits != old(commits) ==>
                && !OwnedBy(node, token) && |commits| == |old(commits)| + 1 && commits[..|old(commits)|] == old(commits)
                && IsRelease(commits[|old(commits)|]) && commits[|old(commits)|].before == current
      ensures troubles == old(troubles) ==>
                && (outcome.Accepted? <==>
                      (Cordoned(current) ==> Lookup(current, UNSCHEDULABLE_PATH) == Some(Bool(true))))
                && (commits != old(commits) <==> outcome.Accepted?) && (!outcome.Accepted? ==> node == current)
    {
      var patch := ReleasePatch(version, token, cordoned);
      ghost var before, stamp;
      outcome, before, stamp := Patch(patch);
      if commits != old(commits) {
        ReleasePatchEffect(before, version, token, cordoned);
        CommitEffect(before, patch, stamp);
      }
      ReleaseAppliesToItsSnapshotIff(current, token);
      ReleaseCommitsIff(current, version, token, cordoned, stamp);
    }

    /** Deleting the probe pods and releasing the node, each failure recorded. */
    method Cleanup(pods: nat, ownership: bool) returns (errors: seq<CleanupError>)
      requires Valid()
      modifies this
      ensures Valid() && Keeps(old(versions)) && troubles >= old(troubles)
      ensures ownership && errors == [] ==> Free()
      ensures !ownership ==> commits == old(commits) && node == old(node)
      ensures OwnedBy(node, token) ==> old(OwnedBy(node, token))
      ensures OnlyReleasesSince(old(commits))
      ensures troubles == old(troubles) && ownership ==>
                && errors == (match Undisturbed(old(node)) case Ok(_) => [] case Err(e) => [NodeNotReleased(e)])
                && (commits != old(commits) <==> errors == [] && old(OwnedBy(node, token)))
    {
      errors := [];
      var deleted := 0;
      while deleted < pods
        invariant deleted <= pods && troubles >= old(troubles)
        invariant troubles == old(troubles) ==> errors == []
        modifies `troubles
      {
        if * {
          errors := errors + [PodNotDeleted];
          troubles := troubles + 1;
        }
        deleted := deleted + 1;
      }
      if ownership {
        var released := ReleaseNode();
        if released.Err? {
          errors := errors + [NodeNotReleased(released.error)];
        }
      }
      if * {
        errors := [UnexpectedCleanupFailure];
        troubles := troubles + 1;
      }
    }

    /** Finding the node twice, with the first probe pod in between. */
    method FindNode() returns (p: Progress, snapshot: Option<Json>)
      requires Valid()
      modifies `node, `versions, `troubles, `looks
      ensures Valid() && Keeps(old(versions)) && troubles >= old(troubles)
      ensures OwnedBy(node, token) ==> old(OwnedBy(node, token))
      ensures snapshot.Some? ==> p.kubectl && snapshot.value == node && SelectNode(node).Ok?
      ensures !p.ownership && !p.success && !p.cordoned
      ensures troubles == old(troubles) ==> node == old(node) && (snapshot.Some? <==> SelectNode(node).Ok?)
    {
      p, snapshot := Progress(false, 0, false, false, false, false, false), None;
      if * {
        troubles := troubles + 1;
        return;
      }
      p := p.(kubectl := true);
      var chosen := GetNode();
      if chosen.None? || SelectNode(chosen.value).Err? { return; }
      p := p.(pods := 1);
      if * {
        troubles := troubles + 1;
        return;
      }
      var fresher := GetNode();
      if fresher.None? || SelectNode(fresher.value).Err? { return; }
      snapshot := fresher;
    }

    /** The two checks on a cordoned node. */
    method CheckPods(was: Progress) returns (p: Progress)
      requires was.ownership && was.cordoned && was.kubectl && !was.success
      modifies `troubles
      ensures troubles >= old(troubles)
      ensures p.ownership && p.cordoned && p.kubectl
      ensures p.success ==> p.blocked && p.running
      ensures p.success <==> troubles == old(troubles)
    {
      var running: bool := *;
      p := was.(running := running);
      if !running {
        troubles := troubles + 1;
        return;
      }
      p := p.(pods := 2);
      if * {
        troubles := troubles + 1;
        return;
      }
      var blocked: bool := *;
      p := p.(blocked := blocked);
      if !blocked {
        troubles := troubles + 1;
        return;
      }
      p := p.(success := true);
    }

    /** Claiming the node and looking whether it is cordoned. */
    method ClaimAndLook(snapshot: Json) returns (cordoned: bool)
      requires Valid() && node == snapshot && SelectNode(snapshot).Ok? && commits == []
      modifies this
      ensures Valid() && Keeps(old(versions)) && troubles >= old(troubles)
      ensures cordoned ==> commits != []
      ensures commits == [] || (|commits| == 1 && IsClaim(commits[0]))
      ensures troubles == old(troubles) ==>
                && (cordoned <==> Claimable(snapshot))
                && (cordoned ==> ReadyToRelease() && commits[0].before == snapshot)
    {
      SelectionNamesSnapshot(snapshot);
      UnclaimedIsNotOwned(snapshot, token);
      ClaimAppliesToItsSnapshotIff(snapshot, token);
      var claimed := ClaimNode(snapshot, SelectNode(snapshot).value);
      if claimed.Err? { return false; }
      var seen := GetNode();
      if seen.None? { return false; }
      cordoned := Lookup(seen.value, UNSCHEDULABLE_PATH) == Some(Bool(true)) && OwnedBy(seen.value, token);
    }

    /** Marked by this run, unschedulable, and with a version to test for. */
    ghost predicate ReadyToRelease()
      reads this`node
    {
      OwnedBy(node, token) && Lookup(node, UNSCHEDULABLE_PATH) == Some(Bool(true)) && Version(node).Some?
    }

    /** The checked part of `main`; returning early stands for raising. The
        cleanup candidate is recorded before the claim is sent. */
    method Exercise() returns (p: Progress)
      requires Valid() && !OwnedBy(node, token) && commits == []
      modifies this
      ensures Valid() && Keeps(old(versions)) && troubles >= old(troubles)
      ensures !p.ownership ==> !OwnedBy(node, token) && commits == []
      ensures p.ownership ==> p.kubectl
      ensures p.cordoned ==> commits != []
      ensures p.success ==> p.ownership && p.cordoned && p.blocked && p.running
      ensures commits == [] || (|commits| == 1 && IsClaim(commits[0]))
      ensures troubles == old(troubles) ==>
                && (p.success <==> SelectNode(old(node)).Ok? && Claimable(old(node)))
                && (p.success ==> ReadyToRelease() && commits[0].before == old(node))
    {
      var snapshot;
      p, snapshot := FindNode();
      if snapshot.None? { return; }
      p := p.(ownership := true);
      var cordoned := ClaimAndLook(snapshot.value);
      p := p.(cordoned := cordoned);
      if cordoned {
        p := CheckPods(p);
      }
    }

    /** `main`. Whatever fails, and whoever else writes the node:
        - if this run's marker is still on the node, a cleanup error is reported and
          the run has not succeeded;
        - a successful run that was not skipped claimed a free node, and leaves it
          unmarked and schedulable;
        - it makes at most two commits, a claim and a release of what it claimed.
        Without trouble it succeeds exactly on a node that can be claimed. */
    method CordonTest(nodeRequested: bool) returns (report: Report)
      requires Valid() && !OwnedBy(node, token) && commits == []
      modifies this
      ensures OwnedBy(node, token) ==> report.cleanupErrors != [] && !report.success
      ensures report.success ==> report.cleanupErrors == [] && !OwnedBy(node, token)
      ensures report.success && !report.skipped ==>
                report.progress.cordoned && report.progress.blocked && report.progress.running
                && commits != [] && Free()
      ensures report.skipped <==> !nodeRequested
      ensures report.skipped ==> report.success && commits == [] && node == old(node)
      ensures |commits| <= 2
      ensures |commits| >= 1 ==> IsClaim(commits[0])
      ensures |commits| == 2 ==> IsRelease(commits[1])
      ensures troubles == old(troubles) && nodeRequested ==>
                && (report.success <==> SelectNode(old(node)).Ok? && Claimable(old(node)))
                && (report.success ==> |commits| == 2 && commits[0].before == old(node))
    {
      if !nodeRequested {
        return Report(true, true, Progress(false, 0, false, false, false, false, false), []);
      }
      var p := Exercise();
      var errors := [];
      if p.kubectl {
        ghost var claimed := commits;
        errors := Cleanup(p.pods, p.ownership);
        assert commits != claimed ==> commits[0] == commits[..1][0];
      }
      report := Report(p.success && errors == [], false, p, errors);
    }
  }
}
