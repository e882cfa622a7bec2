/** Any number of cordon runs racing on one node, with other writers and a
    network that may lose responses and deliver a sent patch late, out of order
    or more than once. */
module CordonRuns {
  import opened Json
  import opened JsonPatch
  import opened NodeCordon

  /** Where one run stands: choosing, ready to claim, claim sent (with the number
      of release attempts made), or finished, cleanly or with a cleanup error. */
  datatype Pc = Idle | Selected(sel: Selection) | Claimed(attempts: nat) | Finished(clean: bool)

  datatype Run = Run(token: string, pc: Pc)

  datatype Message =
    | ClaimMsg(run: nat, sel: Selection)
    | ReleaseMsg(run: nat, version: string, cordoned: bool)

  /** A patch that committed, with the node before and after it. */
  datatype Event =
    | ClaimEvent(run: nat, before: Json, after: Json)
    | ReleaseEvent(run: nat, before: Json, after: Json)

  /** The node, every version it ever had, the runs, every patch ever sent, and what committed. */
  datatype World = World(node: Json, versions: map<string, Json>,
    runs: seq<Run>, sent: set<Message>, history: seq<Event>)

  datatype Step =
    | Select(run: nat)
    | SendClaim(run: nat)
    | Attempt(run: nat, readOk: bool)
    | Acknowledge(run: nat)
    | GiveUp(run: nat)
    | Deliver(msg: Message, version: string)
    | OtherWrite(node: Json)

  function MessagePatch(w: World, m: Message): seq<Op>
    requires m.run < |w.runs|
  {
    match m
    case ClaimMsg(run, sel) => ClaimPatch(sel, w.runs[run].token)
    case ReleaseMsg(run, version, cordoned) => ReleasePatch(version, w.runs[run].token, cordoned)
  }

  predicate NewVersion(w: World, v: string) {
    v != "" && v !in w.versions
  }

  predicate ReleaseCommitted(w: World, r: nat) {
    exists i | 0 <= i < |w.history| :: w.history[i].ReleaseEvent? && w.history[i].run == r
  }

  predicate Enabled(w: World, s: Step) {
    match s
    case Select(r) => r < |w.runs| && (w.runs[r].pc.Idle? || w.runs[r].pc.Selected?) && SelectNode(w.node).Ok?
    case SendClaim(r) => r < |w.runs| && w.runs[r].pc.Selected?
    case Attempt(r, _) => r < |w.runs| && w.runs[r].pc.Claimed? && w.runs[r].pc.attempts < UNCORDON_ATTEMPTS
    case Acknowledge(r) => r < |w.runs| && w.runs[r].pc.Claimed? && ReleaseCommitted(w, r)
    case GiveUp(r) => r < |w.runs| && w.runs[r].pc == Claimed(UNCORDON_ATTEMPTS)
    case Deliver(m, v) => m in w.sent && m.run < |w.runs| && NewVersion(w, v)
    case OtherWrite(node) =>
      && Lookup(node, OWNER_PATH) == Lookup(w.node, OWNER_PATH)
      && Cordoned(node) == Cordoned(w.node)
      && Version(node).Some? && NewVersion(w, Version(node).value)
  }

  function SetPc(w: World, r: nat, pc: Pc): World
    requires r < |w.runs|
  {
    w.(runs := w.runs[r := w.runs[r].(pc := pc)])
  }

  /** One round of the release loop up to sending its patch. */
  function DoAttempt(w: World, r: nat, readOk: bool): World
    requires r < |w.runs| && w.runs[r].pc.Claimed?
  {
    var next := SetPc(w, r, Claimed(w.runs[r].pc.attempts + 1));
    if !readOk then next
    else if At(w.node, OWNER_PATH, Null).Null? && !Cordoned(w.node) then SetPc(w, r, Finished(true))
    else if !OwnedBy(w.node, w.runs[r].token) || Version(w.node).None? then SetPc(w, r, Finished(false))
    else next.(sent := w.sent + {ReleaseMsg(r, Version(w.node).value, Cordoned(w.node))})
  }

  function Do(w: World, s: Step): World
    requires Enabled(w, s)
  {
    match s
    case Select(r) => SetPc(w, r, Selected(SelectNode(w.node).value))
    case SendClaim(r) => SetPc(w, r, Claimed(0)).(sent := w.sent + {ClaimMsg(r, w.runs[r].pc.sel)})
    case Attempt(r, readOk) => DoAttempt(w, r, readOk)
    case Acknowledge(r) => SetPc(w, r, Finished(true))
    case GiveUp(r) => SetPc(w, r, Finished(false))
    case OtherWrite(node) => w.(node := node, versions := w.versions[Version(node).value := node])
    case Deliver(m, v) =>
      match Commit(w.node, MessagePatch(w, m), v)
      case None => w
      case Some(node) =>
        var e := if m.ClaimMsg? then ClaimEvent(m.run, w.node, node) else ReleaseEvent(m.run, w.node, node);
        w.(node := node, versions := w.versions[v := node], history := w.history + [e])
  }

  predicate Executable(w: World, steps: seq<Step>)
    decreases |steps|
  {
    steps == [] || (Enabled(w, steps[0]) && Executable(Do(w, steps[0]), steps[1..]))
  }

  function Exec(w: World, steps: seq<Step>): World
    requires Executable(w, steps)
    decreases |steps|
  {
    if steps == [] then w else Exec(Do(w, steps[0]), steps[1..])
  }

  /** Distinct tokens, none on the node, nothing sent yet. */
  predicate Init(w: World) {
    && Version(w.node).Some? && w.versions == map[Version(w.node).value := w.node]
    && w.sent == {} && w.history == []
    && (forall r | 0 <= r < |w.runs| :: w.runs[r].pc == Idle && !OwnedBy(w.node, w.runs[r].token))
    && (forall q, r | 0 <= q < |w.runs| && 0 <= r < |w.runs| && q != r :: w.runs[q].token != w.runs[r].token)
  }

  // ---- The invariant ----

  predicate FromSnapshot(w: World, sel: Selection) {
    sel.version in w.versions && SelectNode(w.versions[sel.version]) == Ok(sel)
  }

  predicate MessageOk(w: World, m: Message) {
    && m.run < |w.runs|
    && (w.runs[m.run].pc.Claimed? || w.runs[m.run].pc.Finished?)
    && (m.ClaimMsg? ==> FromSnapshot(w, m.sel))
    && (m.ReleaseMsg? ==>
          m.version in w.versions && OwnedBy(w.versions[m.version], w.runs[m.run].token)
          && m.cordoned == Cordoned(w.versions[m.version]))
  }

  predicate OneClaimEach(w: World) {
    forall m, n | m in w.sent && n in w.sent && m.ClaimMsg? && n.ClaimMsg? && m.run == n.run :: m == n
  }

  /** Commits alternate: a claim by one run, then the release by that same run. */
  predicate Alternates(history: seq<Event>) {
    && (forall i | 0 <= i < |history| && i % 2 == 0 :: history[i].ClaimEvent?)
    && (forall i | 0 <= i < |history| && i % 2 == 1 :: history[i].ReleaseEvent? && history[i].run == history[i - 1].run)
  }

  /** The run whose cordon interval is open. */
  function Holder(history: seq<Event>): Option<nat> {
    if |history| % 2 == 1 then Some(history[|history| - 1].run) else None
  }

  predicate EventOk(w: World, e: Event) {
    && e.run < |w.runs|
    && match e
       case ClaimEvent(r, before, after) =>
         Unclaimed(before) && !Cordoned(before) && OwnedBy(after, w.runs[r].token) && Cordoned(after)
       case ReleaseEvent(r, before, after) =>
         OwnedBy(before, w.runs[r].token) && Cordoned(before) && Unclaimed(after) && !Cordoned(after)
  }

  predicate HolderHolds(w: World) {
    match Holder(w.history)
    case Some(r) => r < |w.runs| && OwnedBy(w.node, w.runs[r].token) && Cordoned(w.node)
    case None => forall r | 0 <= r < |w.runs| :: !OwnedBy(w.node, w.runs[r].token)
  }

  /** A run that has claimed claims no more: its claim patch names a version that is gone. */
  predicate ClaimSpent(w: World, m: Message) {
    m.ClaimMsg? && (exists i | 0 <= i < |w.history| :: w.history[i].ClaimEvent? && w.history[i].run == m.run)
    ==> Version(w.node) != Some(m.sel.version)
  }

  predicate ClaimsOnce(history: seq<Event>) {
    forall i, j | 0 <= i < j < |history| && history[i].ClaimEvent? && history[j].ClaimEvent? ::
      history[i].run != history[j].run
  }

  /** A committed claim was sent. */
  predicate ClaimWasSent(w: World, r: nat) {
    r < |w.runs| && (w.runs[r].pc.Claimed? || w.runs[r].pc.Finished?)
  }

  predicate Inv(w: World) {
    && Version(w.node).Some? && Version(w.node).value in w.versions && w.versions[Version(w.node).value] == w.node
    && TokensDiffer(w) && SelectionsOk(w) && MessagesOk(w) && OneClaimEach(w)
    && Alternates(w.history) && ClaimsOnce(w.history) && EventsOk(w)
    && HolderHolds(w)
  }

  predicate TokensDiffer(w: World) {
    forall q, r | 0 <= q < |w.runs| && 0 <= r < |w.runs| && q != r :: w.runs[q].token != w.runs[r].token
  }

  predicate SelectionsOk(w: World) {
    forall r | 0 <= r < |w.runs| && w.runs[r].pc.Selected? :: FromSnapshot(w, w.runs[r].pc.sel)
  }

  predicate MessagesOk(w: World) {
    forall m | m in w.sent :: MessageOk(w, m) && ClaimSpent(w, m)
  }

  predicate EventsOk(w: World) {
    forall i | 0 <= i < |w.history| :: EventOk(w, w.history[i]) && ClaimWasSent(w, w.history[i].run)
  }

  lemma InitInv(w: World)
    requires Init(w)
    ensures Inv(w)
  {
  }

  predicate HasSent(pc: Pc) {
    pc.Claimed? || pc.Finished?
  }

  lemma PcStepKeepsInv(w: World, r: nat, pc: Pc)
    requires Inv(w) && r < |w.runs|
    requires HasSent(w.runs[r].pc) ==> HasSent(pc)
    requires pc.Selected? ==> FromSnapshot(w, pc.sel)
    ensures Inv(SetPc(w, r, pc))
  {
  }

  lemma SendKeepsMessages(w: World, m: Message)
    requires MessagesOk(w) && MessageOk(w, m) && ClaimSpent(w, m)
    ensures MessagesOk(w.(sent := w.sent + {m}))
  {
    var w' := w.(sent := w.sent + {m});
    forall n | n in w'.sent ensures MessageOk(w', n) && ClaimSpent(w', n) {
      if n != m {
        assert MessageOk(w, n) && ClaimSpent(w, n);
      }
    }
  }

  lemma SameRunsKeepEvents(w: World, w': World)
    requires EventsOk(w) && w'.runs == w.runs && w'.history == w.history
    ensures EventsOk(w')
  {
    forall i | 0 <= i < |w'.history| ensures EventOk(w', w'.history[i]) && ClaimWasSent(w', w'.history[i].run) {
      assert EventOk(w, w.history[i]) && ClaimWasSent(w, w.history[i].run);
    }
  }

  lemma SendKeepsOneClaim(w: World, m: Message)
    requires OneClaimEach(w) && (m.ClaimMsg? ==> forall n | n in w.sent :: n.run != m.run)
    ensures OneClaimEach(w.(sent := w.sent + {m}))
  {
  }

  lemma SendKeepsInv(w: World, m: Message)
    requires Inv(w) && MessageOk(w, m) && ClaimSpent(w, m)
    requires m.ClaimMsg? ==> forall n | n in w.sent :: n.run != m.run
    ensures Inv(w.(sent := w.sent + {m}))
  {
    SendKeepsMessages(w, m);
    SendKeepsOneClaim(w, m);
    SameRunsKeepEvents(w, w.(sent := w.sent + {m}));
  }

  lemma SendClaimKeepsInv(w: World, r: nat)
    requires Inv(w) && r < |w.runs| && w.runs[r].pc.Selected?
    ensures Inv(Do(w, SendClaim(r)))
  {
    var m := ClaimMsg(r, w.runs[r].pc.sel);
    var w1 := SetPc(w, r, Claimed(0));
    forall n | n in w1.sent ensures n.run != r {
      assert MessageOk(w, n);
    }
    forall i | 0 <= i < |w1.history| ensures w1.history[i].run != r {
      assert ClaimWasSent(w, w.history[i].run);
    }
    PcStepKeepsInv(w, r, Claimed(0));
    SendKeepsInv(w1, m);
  }

  lemma SendReleaseKeepsInv(w: World, r: nat, attempts: nat)
    requires Inv(w) && r < |w.runs| && w.runs[r].pc.Claimed?
    requires OwnedBy(w.node, w.runs[r].token) && Version(w.node).Some?
    ensures var m := ReleaseMsg(r, Version(w.node).value, Cordoned(w.node));
            Inv(SetPc(w, r, Claimed(attempts)).(sent := w.sent + {m}))
  {
    var w1 := SetPc(w, r, Claimed(attempts));
    PcStepKeepsInv(w, r, Claimed(attempts));
    SendKeepsInv(w1, ReleaseMsg(r, Version(w.node).value, Cordoned(w.node)));
  }

  lemma AttemptKeepsInv(w: World, s: Step)
    requires Inv(w) && Enabled(w, s) && s.Attempt?
    ensures Inv(Do(w, s))
  {
    var r := s.run;
    var attempts := w.runs[r].pc.attempts + 1;
    if !s.readOk {
      PcStepKeepsInv(w, r, Claimed(attempts));
    } else if At(w.node, OWNER_PATH, Null).Null? && !Cordoned(w.node) {
      PcStepKeepsInv(w, r, Finished(true));
    } else if !OwnedBy(w.node, w.runs[r].token) || Version(w.node).None? {
      PcStepKeepsInv(w, r, Finished(false));
    } else {
      SendReleaseKeepsInv(w, r, attempts);
    }
  }

  /** Snapshots stay what they were when the node moves to a new version. */
  lemma NewVersionKeepsMessages(w: World, w': World, v: string)
    requires Inv(w) && NewVersion(w, v)
    requires w'.versions == w.versions[v := w'.node] && Version(w'.node) == Some(v)
    requires w'.runs == w.runs && w'.sent == w.sent
    ensures forall m | m in w'.sent :: MessageOk(w', m) && ClaimSpent(w', m)
    ensures forall r | 0 <= r < |w'.runs| && w'.runs[r].pc.Selected? :: FromSnapshot(w', w'.runs[r].pc.sel)
  {
  }

  lemma OtherWriteKeepsInv(w: World, s: Step)
    requires Inv(w) && Enabled(w, s) && s.OtherWrite?
    ensures Inv(Do(w, s))
  {
    var w' := Do(w, s);
    NewVersionKeepsMessages(w, w', Version(s.node).value);
    SameRunsKeepEvents(w, w');
    assert HolderHolds(w');
  }

  /** Only the version a claim was made from accepts it, so it starts from an unclaimed, schedulable node. */
  lemma CommittedClaim(w: World, m: Message, v: string)
    requires Inv(w) && m in w.sent && m.ClaimMsg? && v != ""
    requires m.run < |w.runs| && Commit(w.node, MessagePatch(w, m), v).Some?
    ensures Version(w.node) == Some(m.sel.version)
    ensures Holder(w.history) == None
    ensures Unclaimed(w.node) && !Cordoned(w.node)
    ensures var node := Commit(w.node, MessagePatch(w, m), v).value;
            OwnedBy(node, w.runs[m.run].token) && Cordoned(node) && Version(node) == Some(v)
    ensures forall i | 0 <= i < |w.history| && w.history[i].ClaimEvent? :: w.history[i].run != m.run
  {
    assert MessageOk(w, m) && ClaimSpent(w, m);
    ClaimPatchEffect(w.node, m.sel, w.runs[m.run].token);
    CommitEffect(w.node, MessagePatch(w, m), v);
  }

  /** A release commits only on the run's own cordoned node. */
  lemma CommittedRelease(w: World, m: Message, v: string)
    requires Inv(w) && m in w.sent && m.ReleaseMsg? && v != ""
    requires m.run < |w.runs| && Commit(w.node, MessagePatch(w, m), v).Some?
    ensures Holder(w.history) == Some(m.run)
    ensures OwnedBy(w.node, w.runs[m.run].token) && Cordoned(w.node)
    ensures var node := Commit(w.node, MessagePatch(w, m), v).value;
            Unclaimed(node) && !Cordoned(node) && Version(node) == Some(v)
  {
    assert MessageOk(w, m);
    var token := w.runs[m.run].token;
    ReleasePatchEffect(w.node, m.version, token, m.cordoned);
    assert Version(w.node) == Some(m.version);
    CommitEffect(w.node, MessagePatch(w, m), v);
  }

  lemma AppendEvent(history: seq<Event>, e: Event)
    requires Alternates(history) && ClaimsOnce(history)
    requires e.ClaimEvent? ==> Holder(history) == None
    requires e.ClaimEvent? ==> forall i | 0 <= i < |history| && history[i].ClaimEvent? :: history[i].run != e.run
    requires e.ReleaseEvent? ==> Holder(history) == Some(e.run)
    ensures Alternates(history + [e]) && ClaimsOnce(history + [e])
    ensures Holder(history + [e]) == if e.ClaimEvent? then Some(e.run) else None
  {
  }

  lemma DeliverKeepsInv(w: World, s: Step)
    requires Inv(w) && Enabled(w, s) && s.Deliver?
    ensures Inv(Do(w, s))
  {
    var m, v := s.msg, s.version;
    if Commit(w.node, MessagePatch(w, m), v).Some? {
      var w' := Do(w, s);
      if m.ClaimMsg? {
        CommittedClaim(w, m, v);
      } else {
        CommittedRelease(w, m, v);
      }
      assert MessageOk(w, m);
      var e := w'.history[|w.history|];
      AppendEvent(w.history, e);
      NewVersionKeepsMessages(w, w', v);
      forall i | 0 <= i < |w'.history| ensures EventOk(w', w'.history[i]) && ClaimWasSent(w', w'.history[i].run) {
        if i < |w.history| {
          assert EventOk(w, w.history[i]) && ClaimWasSent(w, w.history[i].run);
        }
      }
      assert HolderHolds(w');
    }
  }

  lemma StepKeepsInv(w: World, s: Step)
    requires Inv(w) && Enabled(w, s)
    ensures Inv(Do(w, s))
  {
    if s.Deliver? {
      DeliverKeepsInv(w, s);
    } else if s.OtherWrite? {
      OtherWriteKeepsInv(w, s);
    } else {
      match s
      case Select(r) => PcStepKeepsInv(w, r, Selected(SelectNode(w.node).value));
      case SendClaim(r) => SendClaimKeepsInv(w, r);
      case Attempt(r, readOk) => AttemptKeepsInv(w, s);
      case Acknowledge(r) => PcStepKeepsInv(w, r, Finished(true));
      case GiveUp(r) => PcStepKeepsInv(w, r, Finished(false));
      case _ =>
    }
  }

  lemma {:induction false} ReachableInv(w: World, steps: seq<Step>)
    requires Inv(w) && Executable(w, steps)
    ensures Inv(Exec(w, steps))
    decreases |steps|
  {
    if steps != [] {
      StepKeepsInv(w, steps[0]);
      ReachableInv(Do(w, steps[0]), steps[1..]);
    }
  }

  /** Safety over every run of the protocol: claims start from an unclaimed,
      schedulable node, releases from the run's own cordoned node, intervals of
      different runs never overlap and no run has two, and throughout an open
      interval the node carries its run's marker and stays unschedulable. */
  lemma CordonIntervalsAreExclusive(w: World, steps: seq<Step>)
    requires Init(w) && Executable(w, steps)
    ensures var now := Exec(w, steps);
            && (forall i | 0 <= i < |now.history| :: EventOk(now, now.history[i]))
            && Alternates(now.history) && ClaimsOnce(now.history)
            && (Holder(now.history).Some? ==>
                  var r := Holder(now.history).value;
                  r < |now.runs| && OwnedBy(now.node, now.runs[r].token) && Cordoned(now.node))
            && (forall r | 0 <= r < |now.runs| && OwnedBy(now.node, now.runs[r].token)
                  :: Holder(now.history) == Some(r))
  {
    InitInv(w);
    ReachableInv(w, steps);
  }

  // ---- How a run finishes ----

  lemma ReleasedIsNotHolder(history: seq<Event>, r: nat, i: nat)
    requires Alternates(history) && ClaimsOnce(history)
    requires i < |history| && history[i].ReleaseEvent? && history[i].run == r
    ensures Holder(history) != Some(r)
  {
    assert i % 2 == 1 && history[i - 1].ClaimEvent? && history[i - 1].run == r;
  }

  lemma OnlyHolderOwns(w: World, r: nat)
    requires Inv(w) && r < |w.runs| && OwnedBy(w.node, w.runs[r].token)
    ensures Holder(w.history) == Some(r)
  {
  }

  /** A run whose release has committed holds the node no more. */
  lemma ReleasedIsOff(w: World, r: nat)
    requires Inv(w) && r < |w.runs| && ReleaseCommitted(w, r)
    ensures !OwnedBy(w.node, w.runs[r].token)
  {
    var i :| 0 <= i < |w.history| && w.history[i].ReleaseEvent? && w.history[i].run == r;
    ReleasedIsNotHolder(w.history, r, i);
    if OwnedBy(w.node, w.runs[r].token) {
      OnlyHolderOwns(w, r);
      assert false;
    }
  }

  /** A run ends cleanly only when its marker is off the node: it has seen the node
      unmarked and schedulable, or its release has committed. It ends with an error only
      when it has seen the node without its marker or without a version, or after all
      its attempts. */
  lemma FinishMeans(w: World, s: Step, r: nat)
    requires Inv(w) && Enabled(w, s) && r < |w.runs| && w.runs[r].pc.Claimed? && Do(w, s).runs[r].pc.Finished?
    ensures Do(w, s).node == w.node
    ensures Do(w, s).runs[r].pc.clean ==>
              && !OwnedBy(w.node, w.runs[r].token)
              && (ReleaseCommitted(w, r) || (At(w.node, OWNER_PATH, Null).Null? && !Cordoned(w.node)))
    ensures !Do(w, s).runs[r].pc.clean ==>
              || !OwnedBy(w.node, w.runs[r].token) || Version(w.node).None?
              || w.runs[r].pc.attempts == UNCORDON_ATTEMPTS
  {
    if s.Acknowledge? {
      ReleasedIsOff(w, r);
    }
  }

  // ---- Late commits ----

  /** The run's claim is on its way and would still be accepted. */
  predicate ClaimPending(w: World, r: nat)
    requires r < |w.runs|
  {
    exists m | m in w.sent :: m.ClaimMsg? && m.run == r && ApplyPatch(w.node, ClaimPatch(m.sel, w.runs[r].token)).Some?
  }

  /** The run is over, its marker is not on the node, and its claim can no longer commit. */
  predicate Settled(w: World, r: nat) {
    r < |w.runs| && w.runs[r].pc.Finished? && !OwnedBy(w.node, w.runs[r].token) && !ClaimPending(w, r)
  }

  lemma StaleClaimIsRejected(w: World, m: Message, node: Json)
    requires Inv(w) && m in w.sent && m.ClaimMsg? && m.run < |w.runs|
    requires Version(node).Some? && Version(node).value !in w.versions
    ensures ApplyPatch(node, ClaimPatch(m.sel, w.runs[m.run].token)).None?
  {
  }

  /** A new version refuses every claim sent before it. */
  lemma NewVersionKeepsSettled(w: World, w': World, r: nat)
    requires Inv(w) && Settled(w, r) && w'.runs == w.runs && w'.sent == w.sent
    requires Version(w'.node).Some? && Version(w'.node).value !in w.versions
    requires !OwnedBy(w'.node, w.runs[r].token)
    ensures Settled(w', r)
  {
    forall m | m in w'.sent && m.ClaimMsg? && m.run == r
      ensures ApplyPatch(w'.node, ClaimPatch(m.sel, w'.runs[r].token)).None?
    {
      StaleClaimIsRejected(w, m, w'.node);
    }
  }

  lemma DeliverKeepsSettled(w: World, s: Step, r: nat)
    requires Inv(w) && Enabled(w, s) && s.Deliver? && Settled(w, r)
    ensures Settled(Do(w, s), r)
  {
    var m, v := s.msg, s.version;
    var committed := Commit(w.node, MessagePatch(w, m), v);
    if committed.Some? {
      if m.ClaimMsg? {
        CommittedClaim(w, m, v);
        assert m.run != r by {
          assert ApplyPatch(w.node, ClaimPatch(m.sel, w.runs[m.run].token)).Some?;
        }
      } else {
        CommittedRelease(w, m, v);
      }
      NewVersionKeepsSettled(w, Do(w, s), r);
    }
  }

  lemma StepKeepsSettled(w: World, s: Step, r: nat)
    requires Inv(w) && Enabled(w, s) && Settled(w, r)
    ensures Settled(Do(w, s), r)
  {
    if s.Deliver? {
      DeliverKeepsSettled(w, s, r);
    } else if s.OtherWrite? {
      NewVersionKeepsSettled(w, Do(w, s), r);
    } else {
      var w' := Do(w, s);
      assert w'.runs[r] == w.runs[r] && w'.node == w.node;
      assert forall m | m in w'.sent && m.ClaimMsg? && m.run == r :: m in w.sent;
    }
  }

  lemma {:induction false} SettledForever(w: World, steps: seq<Step>, r: nat)
    requires Inv(w) && Settled(w, r) && Executable(w, steps)
    ensures Settled(Exec(w, steps), r)
    decreases |steps|
  {
    if steps != [] {
      StepKeepsSettled(w, steps[0], r);
      StepKeepsInv(w, steps[0]);
      SettledForever(Do(w, steps[0]), steps[1..], r);
    }
  }

  lemma UnusedVersion(used: set<string>) returns (v: string)
    ensures v != "" && v !in used
  {
    v := Longer(used);
  }

  lemma {:induction false} Longer(used: set<string>) returns (v: string)
    ensures v != "" && forall u | u in used :: |u| < |v|
    decreases |used|
  {
    if used == {} {
      v := "1";
    } else {
      var u :| u in used;
      var shorter := Longer(used - {u});
      v := shorter + u + "1";
    }
  }

  /** The marker of run `r` is off the node after these steps. */
  predicate OffAfter(w: World, steps: seq<Step>, r: nat)
    requires r < |w.runs| && Executable(w, steps)
  {
    !OwnedBy(Exec(w, steps).node, w.runs[r].token)
  }

  /** A pending claim commits when it is delivered next. */
  lemma PendingCommits(w: World, r: nat) returns (s: Step)
    requires Inv(w) && r < |w.runs| && ClaimPending(w, r)
    ensures Enabled(w, s) && OwnedBy(Do(w, s).node, w.runs[r].token)
  {
    var m :| m in w.sent && m.ClaimMsg? && m.run == r
             && ApplyPatch(w.node, ClaimPatch(m.sel, w.runs[r].token)).Some?;
    var v := UnusedVersion(w.versions.Keys);
    ClaimPatchEffect(w.node, m.sel, w.runs[r].token);
    CommitEffect(w.node, MessagePatch(w, m), v);
    s := Deliver(m, v);
  }

  lemma OneStep(w: World, s: Step)
    requires Enabled(w, s)
    ensures Executable(w, [s]) && Exec(w, [s]) == Do(w, s)
  {
    assert [s][1..] == [];
    assert Executable(Do(w, s), []);
  }

  lemma SettledStaysOff(w: World, r: nat, steps: seq<Step>)
    requires Inv(w) && Settled(w, r) && Executable(w, steps)
    ensures OffAfter(w, steps, r)
  {
    SettledForever(w, steps, r);
    TokensStay(w, steps, r);
  }

  /** A finished run whose marker is off the node leaves it off for good, whatever
      happens next, exactly when its claim patch would no longer be accepted. */
  lemma StaysReleasedIff(w: World, r: nat)
    requires Inv(w) && r < |w.runs| && w.runs[r].pc.Finished? && !OwnedBy(w.node, w.runs[r].token)
    ensures (forall steps | Executable(w, steps) :: OffAfter(w, steps, r)) <==> !ClaimPending(w, r)
  {
    if ClaimPending(w, r) {
      var s := PendingCommits(w, r);
      OneStep(w, s);
      assert !OffAfter(w, [s], r);
    } else {
      forall steps | Executable(w, steps) ensures OffAfter(w, steps, r) {
        SettledStaysOff(w, r, steps);
      }
    }
  }

  lemma {:induction false} TokensStay(w: World, steps: seq<Step>, r: nat)
    requires Executable(w, steps) && r < |w.runs|
    ensures r < |Exec(w, steps).runs| && Exec(w, steps).runs[r].token == w.runs[r].token
    decreases |steps|
  {
    if steps != [] {
      TokensStay(Do(w, steps[0]), steps[1..], r);
    }
  }

  /** A claim whose response is lost and which has not reached the node yet lets
      its run finish cleanly while the claim is still pending: it can strand the node. */
  lemma CleanFinishWithPendingClaim(w: World, r: nat)
    requires Init(w) && r < |w.runs| && SelectNode(w.node).Ok? && Lookup(w.node, SPEC_PATH).Some?
    requires At(w.node, UNSCHEDULABLE_PATH, Bool(false)) == Bool(false)
    ensures exists steps ::
              && Executable(w, steps)
              && var now := Exec(w, steps);
                 r < |now.runs| && now.runs[r].pc == Finished(true) && !OwnedBy(now.node, now.runs[r].token)
                 && ClaimPending(now, r)
  {
    var sel := SelectNode(w.node).value;
    var a, b, c := Select(r), SendClaim(r), Attempt(r, true);
    var w1 := Do(w, a);
    var w2 := Do(w1, b);
    var w3 := Do(w2, c);
    var m := ClaimMsg(r, sel);
    ClaimAppliesToItsSnapshotIff(w.node, w.runs[r].token);
    assert m in w3.sent && w3.node == w.node && w3.runs[r].pc == Finished(true);
    assert ClaimPending(w3, r);
    var steps := [a, b, c];
    assert steps[1..] == [b, c] && [b, c][1..] == [c] && [c][1..] == [];
    assert Executable(w3, []) && Exec(w3, []) == w3;
    assert Executable(w2, [c]) && Exec(w2, [c]) == w3;
    assert Executable(w1, [b, c]) && Exec(w1, [b, c]) == w3;
    assert Executable(w, steps) && Exec(w, steps) == w3;
  }
}
