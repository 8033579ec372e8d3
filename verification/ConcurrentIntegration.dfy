/**
 Several Execute calls of one integration operation in flight at once. The
 coordinator has no lock of its own: the journal is locked per access and the
 Preparer per Git operation, so calls interleave everywhere else. Some promises of
 the write-ahead protocol survive that and some do not; one call at a time gives
 back exactly the runs of the sequential protocol.
 */
module ConcurrentIntegration {
  import opened DurableDirectory
  import opened Options
  import opened Integration
  import opened IntegrationCoordinator

  /** Where one call is: about to write the intent it did not find, or in a phase of the protocol. */
  datatype Stage = Writing | At(phase: Phase)

  datatype Shared = Shared(
    admission: Admission, target: Commit, dir: Dir<JournalFiles>, calls: map<nat, Stage>, retained: seq<Receipt>,
    opMoved: bool, held: bool)

  datatype Happening =
    | Call(c: nat, source: bool, grant: bool, transport: bool)
    | PutIntent(c: nat, w: WriteOutcome)
    | Effect(c: nat, e: Event)
    | PutReceipt(c: nat, now: nat, w: WriteOutcome, transport: bool)
    | Outside(e: Event)

  /** The operation as one call in `phase` sees it. */
  function SeenBy(s: Shared, phase: Phase): (o: Op)
  {
    Op(s.admission, s.target, s.dir, phase, s.retained, s.opMoved, s.held)
  }

  function InitShared(admission: Admission, target: Commit): (s: Shared)
  {
    Shared(admission, target, Dir(JournalFiles(None, None), []), map[], [], false, target == admission.candidate)
  }

  /** The call is inside IntegrateExactTarget after its checks, holding the Preparer's mutex. */
  predicate InGit(stage: Stage)
  {
    stage.At? && (stage.phase == Updating || stage.phase == Confirming || stage.phase.Examining?)
  }

  predicate GitFree(s: Shared)
  {
    forall c :: c in s.calls ==> !InGit(s.calls[c])
  }

  predicate IsEffect(e: Event)
  {
    e.Inspect? || e.Grant? || e.Check? || e.UpdateRef? || e.Confirm? || e.Examine?
  }

  /** Execute up to its first write: replay a receipt, recover an intent, or go on to install one. */
  function StepCall(s: Shared, c: nat, source: bool, grant: bool, transport: bool): (t: Shared)
  {
    var j := s.dir.Live();
    if c in s.calls then s
    else if j.receipt.Some? then (if transport then s.(retained := s.retained + [j.receipt.value]) else s)
    else if j.intent.Some? then
      s.(calls := s.calls[c := At(if source then Inspecting else Concluding(ReceiptUnknown, RecoveryUnavailable))])
    else if !source || !grant then s.(calls := s.calls[c := At(Concluding(ReceiptFailed, AuthorityUnavailable))])
    else s.(calls := s.calls[c := Writing])
  }

  /** The intent is created, or found with the same content and synced; an error ends the call. */
  function StepPutIntent(s: Shared, c: nat, w: WriteOutcome): (t: Shared)
  {
    if c !in s.calls || s.calls[c] != Writing then s
    else
      var j := s.dir.Live();
      var calls := if w == Durable then s.calls[c := At(Granting)] else s.calls - {c};
      if j.intent.None? then s.(dir := s.dir.Write(j.(intent := Some(s.admission)), w), calls := calls)
      else s.(dir := if w == Durable then s.dir.Write(j, w) else s.dir, calls := calls)
  }

  function StepEffect(s: Shared, c: nat, e: Event): (t: Shared)
  {
    if c !in s.calls || !s.calls[c].At? || !IsEffect(e) || ((e.Inspect? || e.Check?) && !GitFree(s)) then s
    else
      var o := StepOp(SeenBy(s, s.calls[c].phase), e);
      s.(target := o.target, opMoved := o.opMoved, held := o.held, calls := s.calls[c := At(o.phase)])
  }

  /** The receipt is created, or found with the same content and synced; a different one is a conflict. */
  function StepPutReceipt(s: Shared, c: nat, now: nat, w: WriteOutcome, transport: bool): (t: Shared)
  {
    if c !in s.calls || !s.calls[c].At? || !s.calls[c].phase.Concluding? then s
    else
      var j := s.dir.Live();
      var receipt := Receipt(s.calls[c].phase.state, s.calls[c].phase.code, now);
      var t := s.(calls := s.calls - {c});
      var kept := if w == Durable && transport then s.retained + [receipt] else s.retained;
      if j.receipt.None? then t.(dir := s.dir.Write(j.(receipt := Some(receipt)), w), retained := kept)
      else if j.receipt == Some(receipt) then
          t.(dir := if w == Durable then s.dir.Write(j, w) else s.dir, retained := kept)
      else t
  }

  function StepShared(s: Shared, h: Happening): (t: Shared)
  {
    match h
    case Call(c, source, grant, transport) => StepCall(s, c, source, grant, transport)
    case PutIntent(c, w) => StepPutIntent(s, c, w)
    case Effect(c, e) => StepEffect(s, c, e)
    case PutReceipt(c, now, w, transport) => StepPutReceipt(s, c, now, w, transport)
    case Outside(OtherWriter(next)) =>
      if WellFormed(next) && Before(s.target, next) then
        s.(target := next, held := s.held || next == s.admission.candidate)
      else s
    case Outside(ProcessDies) => s.(calls := map[])
    case Outside(PowerFails(kept)) => s.(dir := s.dir.PowerLoss(kept), calls := map[])
    case Outside(_) => s
  }

  function RunShared(s: Shared, hs: seq<Happening>): (t: Shared)
    decreases |hs|
  {
    if hs == [] then s else StepShared(RunShared(s, hs[..|hs| - 1]), hs[|hs| - 1])
  }

  // ---------- the invariant ----------

  /** What a call knows at each stage, whoever else is at work. */
  ghost predicate StageOk(s: Shared, stage: Stage)
  {
    stage.At? ==>
      && (!stage.phase.Concluding? && stage.phase != Idle ==> s.dir.Live().intent == Some(s.admission))
      && (stage.phase == Updating ==> Before(s.admission.expected, s.admission.candidate))
      && (stage.phase == Confirming ==> s.held)
      && (stage.phase.Concluding? && stage.phase.state == Succeeded ==> s.held)
  }

  ghost predicate JournalTrue(s: Shared)
  {
    forall j :: j in s.dir.Snapshots() ==>
      && (j.intent.Some? ==> j.intent.value == s.admission)
      && (j.receipt.Some? && j.receipt.value.state == Succeeded ==> s.held)
  }

  ghost predicate SharedInv(s: Shared)
  {
    && JournalKept(s.dir) && JournalTrue(s) && (s.target == s.admission.candidate ==> s.held)
    && (forall c :: c in s.calls ==> StageOk(s, s.calls[c]))
    && (forall c, d :: c in s.calls && d in s.calls && InGit(s.calls[c]) && InGit(s.calls[d]) ==> c == d)
  }

  lemma CallKeeps(s: Shared, c: nat, source: bool, grant: bool, transport: bool)
    requires SharedInv(s)
    ensures SharedInv(StepCall(s, c, source, grant, transport))
  {
    DurableIsSnapshot(s.dir);
    assert s.dir.Live().intent.Some? ==> s.dir.Live().intent == Some(s.admission);
    hide JournalKept;
  }

  /** A write that only adds to the journal. */
  lemma WriteKeepsShared(s: Shared, after: JournalFiles, w: WriteOutcome, t: Shared)
    requires SharedInv(s) && t.dir == s.dir.Write(after, w) && t.admission == s.admission
    requires t.target == s.target && t.held == s.held
    requires s.dir.Live().intent.Some? ==> after.intent == s.dir.Live().intent
    requires s.dir.Live().receipt.Some? ==> after.receipt == s.dir.Live().receipt
    requires after.intent.Some? ==> after.intent.value == s.admission
    requires after.receipt.Some? && after.receipt.value.state == Succeeded ==> s.held
    ensures JournalKept(t.dir) && JournalTrue(t)
    ensures forall stage :: StageOk(s, stage) ==> StageOk(t, stage)
  {
    JournalWriteKept(s.dir, after, w);
    WriteContents(s.dir, after, w);
    hide JournalKept, Before;
  }

  lemma IntentShared(s: Shared, c: nat, w: WriteOutcome)
    requires SharedInv(s)
    ensures SharedInv(StepPutIntent(s, c, w))
  {
    if c in s.calls && s.calls[c] == Writing {
      var j := s.dir.Live();
      var t := StepPutIntent(s, c, w);
      DurableIsSnapshot(s.dir);
      var after := if j.intent.None? then j.(intent := Some(s.admission)) else j;
      var w' := if j.intent.Some? && w != Durable then NotLinked else w;
      WriteKeepsShared(s, after, w', t);
      WriteContents(s.dir, after, w');
      hide JournalKept, JournalTrue, Before;
    }
  }

  lemma ReceiptShared(s: Shared, c: nat, now: nat, w: WriteOutcome, transport: bool)
    requires SharedInv(s)
    ensures SharedInv(StepPutReceipt(s, c, now, w, transport))
  {
    if c in s.calls && s.calls[c].At? && s.calls[c].phase.Concluding? {
      var j := s.dir.Live();
      var t := StepPutReceipt(s, c, now, w, transport);
      var receipt := Receipt(s.calls[c].phase.state, s.calls[c].phase.code, now);
      DurableIsSnapshot(s.dir);
      assert StageOk(s, s.calls[c]);
      var after := if j.receipt.None? then j.(receipt := Some(receipt)) else j;
      var w' := if j.receipt.None? || (j.receipt == Some(receipt) && w == Durable) then w else NotLinked;
      WriteKeepsShared(s, after, w', t);
      hide JournalKept, JournalTrue, Before, StageOk;
    }
  }

  lemma EffectLocal(o: Op, e: Event)
    requires IsEffect(e)
    ensures StepOp(o, e).dir == o.dir && StepOp(o, e).admission == o.admission && (o.held ==> StepOp(o, e).held)
    ensures StepOp(o, e).retained == o.retained
    ensures (o.target == o.admission.candidate ==> o.held) ==>
      StepOp(o, e).target == o.admission.candidate ==> StepOp(o, e).held
  {
    hide Before, WellFormed, Classify;
  }

  /** What one effect leaves its call at. */
  lemma EffectStage(s: Shared, phase: Phase, e: Event, t: Shared)
    requires IsEffect(e) && StageOk(s, At(phase)) && (s.target == s.admission.candidate ==> s.held)
    requires var o := StepOp(SeenBy(s, phase), e);
      t.admission == s.admission && t.dir == s.dir && t.target == o.target && t.held == o.held
    ensures StageOk(t, At(StepOp(SeenBy(s, phase), e).phase))
    ensures InGit(At(StepOp(SeenBy(s, phase), e).phase)) ==> InGit(At(phase)) || e.Check?
  {
    hide Before, WellFormed;
  }

  lemma EffectShared(s: Shared, c: nat, e: Event)
    requires SharedInv(s)
    ensures SharedInv(StepEffect(s, c, e))
  {
    var t := StepEffect(s, c, e);
    if c in s.calls && s.calls[c].At? && IsEffect(e) && ((e.Inspect? || e.Check?) ==> GitFree(s)) {
      var phase := s.calls[c].phase;
      hide StepOp, JournalKept;
      EffectLocal(SeenBy(s, phase), e);
      EffectStage(s, phase, e, t);
      forall d | d in t.calls ensures StageOk(t, t.calls[d]) {
        if d != c {
          assert StageOk(s, s.calls[d]);
        }
      }
    }
  }

  lemma OutsideShared(s: Shared, e: Event)
    requires SharedInv(s)
    ensures SharedInv(StepShared(s, Outside(e)))
  {
    if e.PowerFails? {
      Ends(s.dir);
      PowerLossContents(s.dir, e.kept);
      if e.kept < |s.dir.Snapshots()| {
        assert s.dir.Snapshots()[e.kept] in s.dir.Snapshots();
      }
    } else {
      hide JournalKept, Before, WellFormed;
    }
  }

  lemma StepSharedKeeps(s: Shared, h: Happening)
    requires SharedInv(s)
    ensures SharedInv(StepShared(s, h))
  {
    hide SharedInv;
    match h {
      case Call(c, source, grant, transport) => CallKeeps(s, c, source, grant, transport);
      case PutIntent(c, w) => IntentShared(s, c, w);
      case Effect(c, e) => EffectShared(s, c, e);
      case PutReceipt(c, now, w, transport) => ReceiptShared(s, c, now, w, transport);
      case Outside(e) => OutsideShared(s, e);
    }
  }

  lemma {:induction false} RunSharedKeeps(s: Shared, hs: seq<Happening>)
    requires SharedInv(s)
    ensures SharedInv(RunShared(s, hs))
    decreases |hs|
  {
    hide SharedInv, StepShared;
    if hs != [] {
      RunSharedKeeps(s, hs[..|hs| - 1]);
      StepSharedKeeps(RunShared(s, hs[..|hs| - 1]), hs[|hs| - 1]);
    }
  }

  // ---------- runs ----------

  /** No power is lost while a receipt is unsynced. */
  predicate ReceiptsSafe(s: Shared, hs: seq<Happening>)
    decreases |hs|
  {
    hs == [] ||
    var before := hs[..|hs| - 1];
    && ReceiptsSafe(s, before)
    && (hs[|hs| - 1].Outside? && hs[|hs| - 1].e.PowerFails? ==> !UnsyncedReceipt(RunShared(s, before).dir))
  }

  ghost predicate ReachableShared(s: Shared)
  {
    exists admission, target, hs :: Startable(admission, target) && s == RunShared(InitShared(admission, target), hs)
  }

  ghost predicate ReachableSafe(s: Shared)
  {
    exists admission, target, hs ::
      && Startable(admission, target) && s == RunShared(InitShared(admission, target), hs)
      && ReceiptsSafe(InitShared(admission, target), hs)
  }

  lemma ReachableSharedInv(s: Shared)
    requires ReachableShared(s)
    ensures SharedInv(s)
  {
    var admission, target, hs :| Startable(admission, target) && s == RunShared(InitShared(admission, target), hs);
    RunSharedKeeps(InitShared(admission, target), hs);
  }

  lemma SharedStart(admission: Admission, target: Commit)
    requires Startable(admission, target)
    ensures ReachableShared(InitShared(admission, target))
  {
    assert RunShared(InitShared(admission, target), []) == InitShared(admission, target);
  }

  lemma SharedMore(s: Shared, h: Happening)
    requires ReachableShared(s)
    ensures ReachableShared(StepShared(s, h))
  {
    hide StepShared, InitShared;
    var admission, target, hs :| Startable(admission, target) && s == RunShared(InitShared(admission, target), hs);
    assert (hs + [h])[..|hs|] == hs;
    assert RunShared(InitShared(admission, target), hs + [h]) == StepShared(s, h);
  }

  // ---------- what survives concurrency ----------

  /** However many calls interleave, each attempted compare-and-swap finds the intent in the journal and is
      alone in Git. */
  lemma CasUnderIntent(s: Shared, c: nat, d: nat)
    requires ReachableShared(s) && c in s.calls && s.calls[c] == At(Updating)
    ensures s.dir.Live().intent == Some(s.admission) && Before(s.admission.expected, s.admission.candidate)
    ensures d in s.calls && InGit(s.calls[d]) ==> d == c
  {
    ReachableSharedInv(s);
    assert StageOk(s, s.calls[c]);
  }

  /** A succeeded receipt still implies that the branch held the candidate. */
  lemma SucceededStillMeansHeld(s: Shared)
    requires ReachableShared(s) && s.dir.Live().receipt.Some? && s.dir.Live().receipt.value.state == Succeeded
    ensures s.held
  {
    ReachableSharedInv(s);
    DurableIsSnapshot(s.dir);
  }

  ghost predicate AllRetainedLive(s: Shared)
  {
    forall i :: 0 <= i < |s.retained| ==> s.dir.Live().receipt == Some(s.retained[i])
  }

  lemma RetainedStep(s: Shared, h: Happening)
    requires SharedInv(s) && AllRetainedLive(s)
    requires h.Outside? && h.e.PowerFails? ==> !UnsyncedReceipt(s.dir)
    ensures AllRetainedLive(StepShared(s, h))
  {
    match h {
      case Outside(PowerFails(kept)) =>
        PowerLossContents(s.dir, kept);
        if kept < |s.dir.Snapshots()| {
          LiveHasAll(s.dir, s.dir.Snapshots()[kept]);
        }
      case Effect(c, e) =>
        hide StepOp;
      case _ =>
        hide JournalKept, JournalTrue, StageOk, StepOp;
    }
  }

  lemma {:induction false} RunRetained(s: Shared, hs: seq<Happening>)
    requires SharedInv(s) && AllRetainedLive(s) && ReceiptsSafe(s, hs)
    ensures AllRetainedLive(RunShared(s, hs))
    decreases |hs|
  {
    hide SharedInv, StepShared, AllRetainedLive, UnsyncedReceipt;
    if hs != [] {
      var before := hs[..|hs| - 1];
      RunRetained(s, before);
      RunSharedKeeps(s, before);
      RetainedStep(RunShared(s, before), hs[|hs| - 1]);
    }
  }

  /** All calls together still hand one receipt to Central, the one in the journal. */
  lemma OneReceiptForAllCalls(s: Shared, i: nat, j: nat)
    requires ReachableSafe(s) && i < |s.retained| && j < |s.retained|
    ensures s.retained[i] == s.retained[j] && s.dir.Live().receipt == Some(s.retained[i])
  {
    var admission, target, hs :|
      && Startable(admission, target) && s == RunShared(InitShared(admission, target), hs)
      && ReceiptsSafe(InitShared(admission, target), hs);
    assert SharedInv(InitShared(admission, target));
    RunRetained(InitShared(admission, target), hs);
  }

  // ---------- what does not ----------

  /** Two calls: one denied its grant writes a failed receipt, the other goes on to move the branch. */
  lemma CasCanFollowAReceipt()
    ensures exists s, c :: ReachableShared(s) && c in s.calls && s.calls[c] == At(Updating) && DeniedIn(s.dir.durable)
  {
    var r := Receipt(ReceiptFailed, AuthorityUnavailable, 5);
    var s0 := InitShared(ADMITTED, OLD);
    var s1 := StepShared(s0, Call(1, true, true, true));
    var s2 := StepShared(s1, Call(2, false, false, true));
    assert s2 == s0.(calls := map[1 := Writing, 2 := At(Concluding(ReceiptFailed, AuthorityUnavailable))]);
    var s3 := StepShared(s2, PutReceipt(2, 5, Durable, true));
    assert s3 == s0.(calls := map[1 := Writing], dir := Dir(JournalFiles(None, Some(r)), []), retained := [r]);
    var s4 := StepShared(s3, PutIntent(1, Durable));
    assert s4 == s3.(calls := map[1 := At(Granting)], dir := Dir(JournalFiles(Some(ADMITTED), Some(r)), []));
    hide StepShared, ReachableShared;
    SharedStart(ADMITTED, OLD);
    SharedMore(s0, Call(1, true, true, true));
    SharedMore(s1, Call(2, false, false, true));
    SharedMore(s2, PutReceipt(2, 5, Durable, true));
    SharedMore(s3, PutIntent(1, Durable));
    GrantedReachesUpdate(s4);
  }

  lemma GrantStep(s: Shared, c: nat)
    requires c in s.calls && s.calls[c] == At(Granting)
    ensures StepShared(s, Effect(c, Grant(true))) == s.(calls := s.calls[c := At(Checking)])
  {
  }

  lemma CheckStep(s: Shared, c: nat)
    requires c in s.calls && s.calls[c] == At(Checking) && GitFree(s) && s.admission == ADMITTED
    ensures StepShared(s, Effect(c, Check(None, true, None))) ==
      s.(calls := s.calls[c := At(if s.target == OLD then Updating else Concluding(ReceiptFailed, TargetMoved))])
  {
  }

  lemma UpdateStep(s: Shared, c: nat)
    requires c in s.calls && s.calls[c] == At(Updating) && s.admission == ADMITTED && s.target == OLD
    ensures StepShared(s, Effect(c, UpdateRef(true, true))) ==
      s.(target := MINE, opMoved := true, held := true, calls := s.calls[c := At(Confirming)])
  {
  }

  lemma ConfirmStep(s: Shared, c: nat)
    requires c in s.calls && s.calls[c] == At(Confirming) && s.admission == ADMITTED && s.target == MINE
    ensures StepShared(s, Effect(c, Confirm(true))) == s.(calls := s.calls[c := At(Concluding(Succeeded, NoCode))])
  {
  }

  lemma GrantedReachesUpdate(s: Shared)
    requires ReachableShared(s) && s.calls == map[1 := At(Granting)] && DeniedIn(s.dir.durable)
    requires s.admission == ADMITTED && s.target == OLD
    ensures exists t, c :: ReachableShared(t) && c in t.calls && t.calls[c] == At(Updating) && DeniedIn(t.dir.durable)
  {
    hide StepShared, ReachableShared, DeniedIn;
    GrantStep(s, 1);
    var t := StepShared(s, Effect(1, Grant(true)));
    CheckStep(t, 1);
    var u := StepShared(t, Effect(1, Check(None, true, None)));
    SharedMore(s, Effect(1, Grant(true)));
    SharedMore(t, Effect(1, Check(None, true, None)));
    assert u.calls[1] == At(Updating);
  }

  /** Two calls of one process, nothing else: the second sees the branch the first has just moved and is
      first to write its receipt, which denies the move. */
  lemma SecondCallCanDeny()
    ensures exists s ::
      ReachableShared(s) && s.opMoved && s.dir.durable.intent == Some(s.admission) && DeniedIn(s.dir.durable)
  {
    var s0 := InitShared(ADMITTED, OLD);
    var d := Dir(JournalFiles(Some(ADMITTED), None), []);
    var s1 := StepShared(s0, Call(1, true, true, true));
    var s2 := StepShared(s1, PutIntent(1, Durable));
    assert s2 == s0.(dir := d, calls := map[1 := At(Granting)]);
    var s3 := StepShared(s2, Call(2, true, true, true));
    assert s3 == s0.(dir := d, calls := map[1 := At(Granting), 2 := At(Inspecting)]);
    var s4 := StepShared(s3, Effect(2, Inspect(true)));
    assert s4 == s0.(dir := d, calls := map[1 := At(Granting), 2 := At(Granting)]);
    hide StepShared, ReachableShared;
    SharedStart(ADMITTED, OLD);
    SharedMore(s0, Call(1, true, true, true));
    SharedMore(s1, PutIntent(1, Durable));
    SharedMore(s2, Call(2, true, true, true));
    SharedMore(s3, Effect(2, Inspect(true)));
    FirstMovesSecondDenies(s4);
  }

  lemma FirstMovesSecondDenies(s: Shared)
    requires ReachableShared(s) && s.admission == ADMITTED && s.target == OLD
    requires s.calls == map[1 := At(Granting), 2 := At(Granting)]
      && s.dir == Dir(JournalFiles(Some(ADMITTED), None), [])
    ensures exists t ::
      ReachableShared(t) && t.opMoved && t.dir.durable.intent == Some(t.admission) && DeniedIn(t.dir.durable)
  {
    hide StepShared, ReachableShared, DeniedIn;
    GrantStep(s, 1);
    var s1 := StepShared(s, Effect(1, Grant(true)));
    CheckStep(s1, 1);
    var s2 := StepShared(s1, Effect(1, Check(None, true, None)));
    UpdateStep(s2, 1);
    var s3 := StepShared(s2, Effect(1, UpdateRef(true, true)));
    ConfirmStep(s3, 1);
    var s4 := StepShared(s3, Effect(1, Confirm(true)));
    SharedMore(s, Effect(1, Grant(true)));
    SharedMore(s1, Effect(1, Check(None, true, None)));
    SharedMore(s2, Effect(1, UpdateRef(true, true)));
    SharedMore(s3, Effect(1, Confirm(true)));
    assert s4.calls == map[1 := At(Concluding(Succeeded, NoCode)), 2 := At(Granting)];
    SecondDenies(s4);
  }

  lemma SecondDenies(s: Shared)
    requires ReachableShared(s) && s.admission == ADMITTED && s.target == MINE && s.opMoved
    requires s.calls == map[1 := At(Concluding(Succeeded, NoCode)), 2 := At(Granting)]
    requires s.dir == Dir(JournalFiles(Some(ADMITTED), None), [])
    ensures exists t ::
      ReachableShared(t) && t.opMoved && t.dir.durable.intent == Some(t.admission) && DeniedIn(t.dir.durable)
  {
    hide StepShared, ReachableShared;
    GrantStep(s, 2);
    var s1 := StepShared(s, Effect(2, Grant(true)));
    CheckStep(s1, 2);
    var s2 := StepShared(s1, Effect(2, Check(None, true, None)));
    DenyStep(s2);
    var s3 := StepShared(s2, PutReceipt(2, 7, Durable, true));
    SharedMore(s, Effect(2, Grant(true)));
    SharedMore(s1, Effect(2, Check(None, true, None)));
    SharedMore(s2, PutReceipt(2, 7, Durable, true));
    assert s3.opMoved && DeniedIn(s3.dir.durable);
  }

  lemma DenyStep(s: Shared)
    requires 2 in s.calls && s.calls[2] == At(Concluding(ReceiptFailed, TargetMoved)) && s.opMoved
    requires s.dir == Dir(JournalFiles(Some(ADMITTED), None), [])
    ensures var t := StepShared(s, PutReceipt(2, 7, Durable, true));
      && t.dir == Dir(JournalFiles(Some(ADMITTED), Some(Receipt(ReceiptFailed, TargetMoved, 7))), [])
      && t.opMoved && t.admission == s.admission
  {
  }

  // ---------- one call at a time ----------

  /** A call starts only when no other is in flight. */
  predicate Alone(s: Shared, hs: seq<Happening>)
    decreases |hs|
  {
    hs == [] ||
    var before := hs[..|hs| - 1];
    Alone(s, before) && (hs[|hs| - 1].Call? ==> RunShared(s, before).calls == map[])
  }

  ghost predicate ReachableAlone(s: Shared)
  {
    exists admission, target, hs ::
      && Startable(admission, target) && s == RunShared(InitShared(admission, target), hs)
      && Alone(InitShared(admission, target), hs)
  }

  function PhaseOf(stage: Stage): (phase: Phase)
  {
    if stage == Writing then Idle else stage.phase
  }

  /** At most the call `c` is in flight, in `phase`; before it writes its intent it has only read. */
  predicate Solo(s: Shared, c: nat, phase: Phase)
  {
    || (s.calls == map[] && phase == Idle)
    || (&& c in s.calls && s.calls == map[c := s.calls[c]] && phase == PhaseOf(s.calls[c])
        && (s.calls[c] == Writing ==> s.dir.Live() == JournalFiles(None, None)))
  }

  /** The shared state is one the sequential protocol reaches. */
  ghost predicate Refines(s: Shared)
  {
    exists c, phase, hazard :: Solo(s, c, phase) && Reaches(SeenBy(s, phase), hazard)
  }

  lemma RefinesBy(s: Shared, c: nat, phase: Phase, o: Op, hazard: bool, e: Event)
    requires Reaches(o, hazard) && Solo(s, c, phase) && SeenBy(s, phase) == StepOp(o, e)
    ensures Refines(s)
  {
    hide StepOp, Reaches, Solo, Hazard;
    ReachesStep(o, hazard, e);
  }

  lemma RefinesStill(s: Shared, c: nat, phase: Phase, hazard: bool)
    requires Reaches(SeenBy(s, phase), hazard) && Solo(s, c, phase)
    ensures Refines(s)
  {
    hide Reaches, Solo;
  }

  lemma CallRefines(s: Shared, h: Happening, hazard: bool)
    requires h.Call? && s.calls == map[] && Reaches(SeenBy(s, Idle), hazard)
    ensures Refines(StepShared(s, h))
  {
    var t := StepShared(s, h);
    var o := SeenBy(s, Idle);
    var j := s.dir.Live();
    var e := Begin(h.source, h.grant, NotLinked, 0);
    hide Reaches, Refines;
    if j.receipt.Some? {
      if h.transport {
        RefinesBy(t, 0, Idle, o, hazard, e);
      } else {
        RefinesStill(t, 0, Idle, hazard);
      }
    } else if j.intent.None? && h.source && h.grant {
      assert j == JournalFiles(None, None);
      RefinesStill(t, h.c, Idle, hazard);
    } else {
      RefinesBy(t, h.c, t.calls[h.c].phase, o, hazard, e);
    }
  }

  lemma IntentRefines(s: Shared, c: nat, hazard: bool, w: WriteOutcome)
    requires Solo(s, c, Idle) && Reaches(SeenBy(s, Idle), hazard) && s.calls == map[c := Writing]
    ensures Refines(StepPutIntent(s, c, w))
  {
    hide Reaches, Refines;
    var t := StepPutIntent(s, c, w);
    RefinesBy(t, c, if w == Durable then Granting else Idle, SeenBy(s, Idle), hazard, Begin(true, true, w, 0));
  }

  lemma EffectRefines(s: Shared, c: nat, phase: Phase, hazard: bool, e: Event)
    requires Reaches(SeenBy(s, phase), hazard) && s.calls == map[c := At(phase)] && IsEffect(e)
    ensures Refines(StepEffect(s, c, e))
  {
    hide Reaches, Refines, StepOp;
    var t := StepEffect(s, c, e);
    EffectLocal(SeenBy(s, phase), e);
    if t == s {
      RefinesStill(s, c, phase, hazard);
    } else {
      RefinesBy(t, c, StepOp(SeenBy(s, phase), e).phase, SeenBy(s, phase), hazard, e);
    }
  }

  lemma ReceiptRefines(s: Shared, c: nat, phase: Phase, hazard: bool, now: nat, w: WriteOutcome, transport: bool)
    requires Reaches(SeenBy(s, phase), hazard) && s.calls == map[c := At(phase)] && phase.Concluding?
    ensures Refines(StepPutReceipt(s, c, now, w, transport))
  {
    ReachesInv(SeenBy(s, phase), hazard);
    assert s.dir.Live().receipt.None?;
    hide Reaches, Refines, OpInv;
    RefinesBy(StepPutReceipt(s, c, now, w, transport), c, Idle, SeenBy(s, phase), hazard, Conclude(now, w, transport));
  }

  lemma OutsideRefines(s: Shared, c: nat, phase: Phase, hazard: bool, e: Event)
    requires Solo(s, c, phase) && Reaches(SeenBy(s, phase), hazard)
    ensures Refines(StepShared(s, Outside(e)))
  {
    hide Reaches, Refines;
    var t := StepShared(s, Outside(e));
    if e.OtherWriter? {
      RefinesBy(t, c, phase, SeenBy(s, phase), hazard, e);
    } else if e.ProcessDies? || e.PowerFails? {
      RefinesBy(t, c, Idle, SeenBy(s, phase), hazard, e);
    } else {
      RefinesStill(t, c, phase, hazard);
    }
  }

  lemma AloneStep(s: Shared, h: Happening)
    requires Refines(s) && (h.Call? ==> s.calls == map[])
    ensures Refines(StepShared(s, h))
  {
    var c, phase, hazard :| Solo(s, c, phase) && Reaches(SeenBy(s, phase), hazard);
    hide Reaches, Refines;
    match h {
      case Call(_, _, _, _) => CallRefines(s, h, hazard);
      case Outside(e) => OutsideRefines(s, c, phase, hazard, e);
      case PutIntent(d, w) =>
        if d in s.calls && s.calls[d] == Writing {
          IntentRefines(s, d, hazard, w);
        } else {
          RefinesStill(s, c, phase, hazard);
        }
      case Effect(d, e) =>
        if d in s.calls && s.calls[d].At? && IsEffect(e) {
          EffectRefines(s, d, phase, hazard, e);
        } else {
          RefinesStill(s, c, phase, hazard);
        }
      case PutReceipt(d, now, w, transport) =>
        if d in s.calls && s.calls[d].At? && s.calls[d].phase.Concluding? {
          ReceiptRefines(s, d, phase, hazard, now, w, transport);
        } else {
          RefinesStill(s, c, phase, hazard);
        }
    }
  }

  lemma {:induction false} AloneRun(admission: Admission, target: Commit, hs: seq<Happening>)
    requires Startable(admission, target) && Alone(InitShared(admission, target), hs)
    ensures Refines(RunShared(InitShared(admission, target), hs))
    decreases |hs|
  {
    if hs == [] {
      ReachesStart(admission, target);
      assert SeenBy(InitShared(admission, target), Idle) == InitOp(admission, target);
      hide Reaches;
      assert Solo(InitShared(admission, target), 0, Idle);
    } else {
      hide Refines, StepShared, InitShared;
      AloneRun(admission, target, hs[..|hs| - 1]);
      AloneStep(RunShared(InitShared(admission, target), hs[..|hs| - 1]), hs[|hs| - 1]);
    }
  }

  /** With one call at a time every state is one that the sequential protocol reaches, so all its theorems
      hold: no receipt precedes an update, and a failed receipt is wrong only after a hazard. */
  lemma OneAtATimeIsSequential(s: Shared)
    requires ReachableAlone(s)
    ensures exists c, phase, hazard :: Solo(s, c, phase) && Reaches(SeenBy(s, phase), hazard)
    ensures forall c :: c in s.calls && s.calls[c] == At(Updating) ==> s.dir.Live().receipt.None?
  {
    var admission, target, hs :|
      && Startable(admission, target) && s == RunShared(InitShared(admission, target), hs)
      && Alone(InitShared(admission, target), hs);
    AloneRun(admission, target, hs);
    var c, phase, hazard :| Solo(s, c, phase) && Reaches(SeenBy(s, phase), hazard);
    ReachesInv(SeenBy(s, phase), hazard);
  }

  // ---------- a call that nobody disturbs ----------

  /** The call `c`, alone in flight, is where the sequential protocol is in `o`. */
  ghost predicate Mirrors(s: Shared, c: nat, o: Op)
  {
    && o == SeenBy(s, o.phase) && s.calls == (if o.phase == Idle then map[] else map[c := At(o.phase)])
    && (o.phase != Idle ==> s.dir.Live().receipt.None?)
  }

  lemma EffectMirrors(s: Shared, c: nat, o: Op, e: Event)
    requires Mirrors(s, c, o) && IsEffect(e)
    ensures Mirrors(StepShared(s, Effect(c, e)), c, StepOp(o, e))
  {
    hide Before, Classify;
    if o.phase != Idle {
      assert InGit(s.calls[c]) || GitFree(s);
    }
  }

  /** Beginning alone is the sequential protocol's beginning; a receipt is replayed if the transport takes it. */
  lemma BeginMirrors(s: Shared, c: nat, source: bool, grant: bool, w: WriteOutcome, now: nat, transport: bool)
    requires s.calls == map[] && (transport || s.dir.Live().receipt.None?)
    ensures Mirrors(StepShared(StepShared(s, Call(c, source, grant, transport)), PutIntent(c, w)), c,
                    StepBegin(SeenBy(s, Idle), source, grant, w, now))
  {
    if w != NotLinked {
      WriteContents(s.dir, s.dir.Live().(intent := Some(s.admission)), w);
    }
  }

  lemma ConcludeMirrors(s: Shared, c: nat, o: Op, now: nat, w: WriteOutcome, transport: bool)
    requires Mirrors(s, c, o)
    ensures Mirrors(StepShared(s, PutReceipt(c, now, w, transport)), c, StepConclude(o, now, w, transport))
  {
  }

  /** The happenings of one call from the start to its receipt, with nothing else in between. */
  function LoneCall(s: Shared, c: nat, a: Answers): (t: Shared)
  {
    var s1 := StepShared(StepShared(s, Call(c, a.source, a.grant, a.transport)), PutIntent(c, a.intentWrite));
    var s2 := StepShared(StepShared(s1, Effect(c, Inspect(a.inspectable))), Effect(c, Grant(a.grantAgain)));
    var s3 := StepShared(s2, Effect(c, Check(a.early, a.readable, a.failure)));
    var s4 := StepShared(StepShared(s3, Effect(c, UpdateRef(a.applies, a.reports))), Effect(c, Confirm(a.confirmable)));
    var s5 := StepShared(s4, Effect(c, Examine(a.examinable, a.updateError)));
    StepShared(s5, PutReceipt(c, a.now, a.receiptWrite, a.transport))
  }

  /** A call that starts with none in flight and is not disturbed does exactly what one uninterrupted Execute
      does to the journal, the branch and the transport. */
  lemma LoneCallIsAttempt(s: Shared, c: nat, a: Answers)
    requires s.calls == map[] && (a.transport || s.dir.Live().receipt.None?)
    ensures Mirrors(LoneCall(s, c, a), c, Attempt(SeenBy(s, Idle), a))
  {
    hide StepShared, StepBegin, StepInspect, StepCheck, StepUpdateRef, StepConfirm, StepExamine, StepConclude, Mirrors;
    var o1 := StepBegin(SeenBy(s, Idle), a.source, a.grant, a.intentWrite, a.now);
    var s1 := StepShared(StepShared(s, Call(c, a.source, a.grant, a.transport)), PutIntent(c, a.intentWrite));
    BeginMirrors(s, c, a.source, a.grant, a.intentWrite, a.now, a.transport);
    var s2, o2 := EffectDone(s1, c, o1, Inspect(a.inspectable));
    var s3, o3 := EffectDone(s2, c, o2, Grant(a.grantAgain));
    var s4, o4 := EffectDone(s3, c, o3, Check(a.early, a.readable, a.failure));
    var s5, o5 := EffectDone(s4, c, o4, UpdateRef(a.applies, a.reports));
    var s6, o6 := EffectDone(s5, c, o5, Confirm(a.confirmable));
    var s7, o7 := EffectDone(s6, c, o6, Examine(a.examinable, a.updateError));
    ConcludeMirrors(s7, c, o7, a.now, a.receiptWrite, a.transport);
  }

  lemma EffectDone(s: Shared, c: nat, o: Op, e: Event) returns (t: Shared, u: Op)
    requires Mirrors(s, c, o) && IsEffect(e)
    ensures t == StepShared(s, Effect(c, e)) && u == StepOp(o, e) && Mirrors(t, c, u)
  {
    EffectMirrors(s, c, o, e);
    t, u := StepShared(s, Effect(c, e)), StepOp(o, e);
  }

  /** A second writer: an intent or an equal receipt that is already there is synced and counts as written, a
      different receipt ends the call with nothing changed or retained. */
  lemma SecondWriterAnswer(s: Shared, c: nat, now: nat, w: WriteOutcome, transport: bool)
    requires c in s.calls
    ensures s.calls[c] == Writing && s.dir.Live().intent.Some? ==>
      var t := StepShared(s, PutIntent(c, w));
      && t.calls == (if w == Durable then s.calls[c := At(Granting)] else s.calls - {c})
      && t.dir == (if w == Durable then Dir(s.dir.Live(), []) else s.dir) && t.retained == s.retained
    ensures s.calls[c].At? && s.calls[c].phase.Concluding? && s.dir.Live().receipt.Some? ==>
      var t := StepShared(s, PutReceipt(c, now, w, transport));
      var mine := s.dir.Live().receipt.value == Receipt(s.calls[c].phase.state, s.calls[c].phase.code, now);
      && t.calls == s.calls - {c}
      && t.dir == (if mine && w == Durable then Dir(s.dir.Live(), []) else s.dir)
      && t.retained == s.retained + if mine && w == Durable && transport then [s.dir.Live().receipt.value] else []
  {
  }
}
