/**
 The integration write-ahead protocol of one operation: durable intent, atomic
 compare-and-swap of a Git branch, immutable receipt, retain. Attempts are
 sequential; between any two of their steps another writer may fast-forward the
 branch, the process may die or power may be lost.
 */
module Integration {
  import opened DurableDirectory
  import opened Options

  /** A commit carries the identities of its strict ancestors. */
  datatype Commit = Commit(id: nat, ancestors: set<nat>)

  predicate WellFormed(c: Commit)
  {
    c.id !in c.ancestors
  }

  /** `a` is a strict ancestor of `b`. */
  predicate Before(a: Commit, b: Commit)
  {
    a.id in b.ancestors && a.ancestors <= b.ancestors
  }

  datatype Admission = Admission(expected: Commit, candidate: Commit)

  datatype ReceiptState = Succeeded | ReceiptFailed | ReceiptCanceled | ReceiptUnknown

  datatype Code =
    | NoCode | AuthorityUnavailable | RecoveryUnavailable | TargetOutcomeUnknown | TargetMoved
    | TargetCheckedOut | NonFastForward | LocalEffectFailed | IntegrationCanceled

  datatype Receipt = Receipt(state: ReceiptState, code: Code, at: nat)

  datatype JournalFiles = JournalFiles(intent: Option<Admission>, receipt: Option<Receipt>)

  /** The errors of IntegrateExactTarget that the coordinator distinguishes. */
  datatype EffectError = ContextEnded | Moved | CheckedOut | NotFastForward | OutcomeLost | Other

  function Classify(e: EffectError): (r: (ReceiptState, Code))
  {
    match e
    case ContextEnded => (ReceiptCanceled, IntegrationCanceled)
    case Moved => (ReceiptFailed, TargetMoved)
    case CheckedOut => (ReceiptFailed, TargetCheckedOut)
    case NotFastForward => (ReceiptFailed, NonFastForward)
    case OutcomeLost => (ReceiptUnknown, TargetOutcomeUnknown)
    case Other => (ReceiptFailed, LocalEffectFailed)
  }

  /** Where the one attempt in progress is. */
  datatype Phase =
    | Idle
    | Inspecting
    | Granting
    | Checking                     // IntegrateExactTarget up to update-ref
    | Updating
    | Confirming                   // update-ref reported success
    | Examining(applied: bool)     // update-ref reported an error; `applied` is what really happened
    | Concluding(state: ReceiptState, code: Code)

  /** `opMoved`, `held` and `retained` are history: this operation's update-ref took effect, the branch
      was at the candidate, and the receipts handed to Central in order. */
  datatype Op = Op(
    admission: Admission, target: Commit, dir: Dir<JournalFiles>, phase: Phase, retained: seq<Receipt>,
    opMoved: bool, held: bool)

  datatype Event =
    | Begin(source: bool, grant: bool, w: WriteOutcome, now: nat)
    | Inspect(readable: bool)
    | Grant(ok: bool)
    | Check(early: Option<EffectError>, readable: bool, failure: Option<EffectError>)
    | UpdateRef(applies: bool, reports: bool)
    | Confirm(readable: bool)
    | Examine(readable: bool, updateError: EffectError)
    | Conclude(now: nat, w: WriteOutcome, transport: bool)
    | OtherWriter(next: Commit)
    | ProcessDies
    | PowerFails(kept: nat)

  function InitOp(admission: Admission, target: Commit): (s: Op)
  {
    Op(admission, target, Dir(JournalFiles(None, None), []), Idle, [], false, target == admission.candidate)
  }

  /** Execute up to the first effect: replay a receipt, recover an intent, or install one. */
  function StepBegin(s: Op, source: bool, grant: bool, w: WriteOutcome, now: nat): (t: Op)
  {
    var j := s.dir.Live();
    if s.phase != Idle then s
    else if j.receipt.Some? then s.(retained := s.retained + [j.receipt.value])
    else if j.intent.Some? then
      (if source then s.(phase := Inspecting) else s.(phase := Concluding(ReceiptUnknown, RecoveryUnavailable)))
    else if !source || !grant then s.(phase := Concluding(ReceiptFailed, AuthorityUnavailable))
    else
      s.(dir := s.dir.Write(j.(intent := Some(s.admission)), w), phase := if w == Durable then Granting else Idle)
  }

  function StepInspect(s: Op, readable: bool): (t: Op)
  {
    if s.phase != Inspecting then s
    else if !readable then s.(phase := Concluding(ReceiptUnknown, RecoveryUnavailable))
    else if s.target == s.admission.candidate then s.(phase := Concluding(Succeeded, NoCode))
    else if s.target != s.admission.expected then s.(phase := Concluding(ReceiptUnknown, TargetOutcomeUnknown))
    else s.(phase := Granting)
  }

  /** IntegrateExactTarget before its atomic update: evidence, the branch's position, then the remaining checks. */
  function StepCheck(s: Op, early: Option<EffectError>, readable: bool, failure: Option<EffectError>): (t: Op)
  {
    if s.phase != Checking then s
    else if early.Some? && early.value != OutcomeLost then
      var r := Classify(early.value);
      s.(phase := Concluding(r.0, r.1))
    else if !readable || s.target != s.admission.expected then s.(phase := Concluding(ReceiptFailed, TargetMoved))
    else if failure.Some? && failure.value != OutcomeLost then
      var r := Classify(failure.value);
      s.(phase := Concluding(r.0, r.1))
    else if !Before(s.admission.expected, s.admission.candidate) then
        s.(phase := Concluding(ReceiptFailed, NonFastForward))
    else s.(phase := Updating)
  }

  /** git update-ref: atomic, but an error may be reported after it took effect. */
  function StepUpdateRef(s: Op, applies: bool, reports: bool): (t: Op)
  {
    if s.phase != Updating then s
    else if s.target == s.admission.expected && (applies || reports) then
      s.(target := s.admission.candidate, opMoved := true, held := true, phase := if reports then Confirming
          else Examining(true))
    else s.(phase := Examining(false))
  }

  function StepConfirm(s: Op, readable: bool): (t: Op)
  {
    if s.phase != Confirming then s
    else if readable && s.target == s.admission.candidate then s.(phase := Concluding(Succeeded, NoCode))
    else s.(phase := Concluding(ReceiptUnknown, TargetOutcomeUnknown))
  }

  function StepExamine(s: Op, readable: bool, updateError: EffectError): (t: Op)
  {
    if !s.phase.Examining? || updateError == OutcomeLost then s
    else if !readable then s.(phase := Concluding(ReceiptUnknown, TargetOutcomeUnknown))
    else if s.target == s.admission.candidate then s.(phase := Concluding(Succeeded, NoCode))
    else if s.target == s.admission.expected then
      var r := Classify(updateError);
      s.(phase := Concluding(r.0, r.1))
    else s.(phase := Concluding(ReceiptFailed, TargetMoved))
  }

  function StepConclude(s: Op, now: nat, w: WriteOutcome, transport: bool): (t: Op)
  {
    if !s.phase.Concluding? then s
    else
      var receipt := Receipt(s.phase.state, s.phase.code, now);
      s.(dir := s.dir.Write(s.dir.Live().(receipt := Some(receipt)), w), phase := Idle,
         retained := if w == Durable && transport then s.retained + [receipt] else s.retained)
  }

  function StepOp(s: Op, e: Event): (t: Op)
  {
    match e
    case Begin(source, grant, w, now) => StepBegin(s, source, grant, w, now)
    case Inspect(readable) => StepInspect(s, readable)
    case Grant(ok) => if s.phase != Granting then s
        else s.(phase := if ok then Checking else Concluding(ReceiptFailed, AuthorityUnavailable))
    case Check(early, readable, failure) => StepCheck(s, early, readable, failure)
    case UpdateRef(applies, reports) => StepUpdateRef(s, applies, reports)
    case Confirm(readable) => StepConfirm(s, readable)
    case Examine(readable, err) => StepExamine(s, readable, err)
    case Conclude(now, w, transport) => StepConclude(s, now, w, transport)
    case OtherWriter(next) =>
      if WellFormed(next) && Before(s.target, next) then
          s.(target := next, held := s.held || next == s.admission.candidate) else s
    case ProcessDies => s.(phase := Idle)
    case PowerFails(kept) => s.(dir := s.dir.PowerLoss(kept), phase := Idle)
  }

  function RunOp(s: Op, events: seq<Event>): (t: Op)
    decreases |events|
  {
    if events == [] then s else StepOp(RunOp(s, events[..|events| - 1]), events[|events| - 1])
  }

  // ---------- what can go wrong outside this operation ----------

  /** The intent was linked but its directory sync failed, and nothing has synced it since. */
  predicate UnsyncedIntent(d: Dir<JournalFiles>)
  {
    d.durable.intent.None? && d.Live().intent.Some?
  }

  predicate UnsyncedReceipt(d: Dir<JournalFiles>)
  {
    d.durable.receipt.None? && d.Live().receipt.Some?
  }

  /** Another writer moves the branch on before an applied update that reported an error is examined, or
      a power loss takes the intent of a branch this operation has moved. */
  predicate Hazard(s: Op, e: Event)
  {
    || (s.phase == Examining(true) && e.OtherWriter? && StepOp(s, e).target != s.target)
    || (s.opMoved && e.PowerFails? && StepOp(s, e).dir.Live().intent.None?)
  }

  predicate HazardIn(s: Op, events: seq<Event>)
    decreases |events|
  {
    events != [] &&
    var before := events[..|events| - 1];
    HazardIn(s, before) || Hazard(RunOp(s, before), events[|events| - 1])
  }

  /** Nobody moves the branch between an update-ref error and its examination, and no power is lost
      while the intent is unsynced: both without asking what the update really did. */
  predicate Quiet(s: Op, e: Event)
  {
    && (e.OtherWriter? ==> !s.phase.Examining?)
    && (e.PowerFails? ==> !UnsyncedIntent(s.dir))
  }

  predicate QuietIn(s: Op, events: seq<Event>)
    decreases |events|
  {
    events == [] ||
    var before := events[..|events| - 1];
    QuietIn(s, before) && Quiet(RunOp(s, before), events[|events| - 1])
  }

  /** No power is lost while a receipt is unsynced. */
  predicate ReceiptsSafeIn(s: Op, events: seq<Event>)
    decreases |events|
  {
    events == [] ||
    var before := events[..|events| - 1];
    && ReceiptsSafeIn(s, before)
    && (events[|events| - 1].PowerFails? ==> !UnsyncedReceipt(RunOp(s, before).dir))
  }

  // ---------- the invariant ----------

  ghost predicate JournalKept(d: Dir<JournalFiles>)
  {
    forall i, j :: 0 <= i <= j < |d.Snapshots()| ==>
      && (d.Snapshots()[i].intent.Some? ==> d.Snapshots()[j].intent == d.Snapshots()[i].intent)
      && (d.Snapshots()[i].receipt.Some? ==> d.Snapshots()[j].receipt == d.Snapshots()[i].receipt)
  }

  /** A conclusion that denies having moved the branch. */
  predicate Denies(state: ReceiptState)
  {
    state == ReceiptFailed || state == ReceiptCanceled
  }

  predicate DeniedIn(j: JournalFiles)
  {
    j.receipt.Some? && Denies(j.receipt.value.state)
  }

  /** The receipt or conclusion `state` is justified in a run with or without a hazard. */
  predicate Justified(s: Op, hazard: bool, state: ReceiptState)
  {
    && (state == Succeeded ==> s.held)
    && (Denies(state) ==> (s.opMoved ==> hazard))
  }

  ghost predicate ContentsOk(s: Op, hazard: bool)
  {
    forall j :: j in s.dir.Snapshots() ==>
      && (j.receipt.Some? ==> Justified(s, hazard, j.receipt.value.state))
      && (j.intent.Some? ==> j.intent.value == s.admission)
  }

  ghost predicate BranchOk(s: Op)
  {
    && WellFormed(s.target) && WellFormed(s.admission.candidate) && WellFormed(s.admission.expected)
    && (s.target == s.admission.candidate ==> s.held)
    && (s.opMoved ==>
          && Before(s.admission.expected, s.admission.candidate)
          && (s.target == s.admission.candidate || Before(s.admission.candidate, s.target)))
  }

  /** What each phase of an attempt knows. */
  ghost predicate PhaseOk(s: Op, hazard: bool)
  {
    && (s.phase != Idle ==> s.dir.Live().receipt.None?)
    && (s.phase in {Inspecting, Granting, Checking, Updating, Confirming} || s.phase.Examining? ==>
          s.dir.Live().intent == Some(s.admission))
    && (s.phase in {Granting, Checking, Updating} ==> s.opMoved ==> hazard)
    && (s.phase == Updating ==> Before(s.admission.expected, s.admission.candidate))
    && (s.phase == Confirming ==> s.opMoved && s.held)
    && (s.phase.Examining? && s.phase.applied ==> s.opMoved && (hazard || s.target == s.admission.candidate))
    && (s.phase.Examining? && !s.phase.applied ==> s.opMoved ==> hazard)
    && (s.phase.Concluding? ==> Justified(s, hazard, s.phase.state))
  }

  ghost predicate OpInv(s: Op, hazard: bool)
  {
    && BranchOk(s) && JournalKept(s.dir) && ContentsOk(s, hazard) && PhaseOk(s, hazard)
    && (s.opMoved && !hazard ==> s.dir.Live().intent == Some(s.admission))
    && (hazard ==> s.opMoved)
    && (s.dir.pending != [] && s.dir.Live().receipt.None? ==> s.dir.durable.intent.None?)
  }

  /** Fast-forwarding never returns to an ancestor. */
  lemma NeverBack(a: Commit, b: Commit, t: Commit)
    requires WellFormed(a) && WellFormed(b) && Before(a, b) && (t == b || Before(b, t))
    ensures t != a
  {
  }

  lemma NotBackToExpected(s: Op)
    requires BranchOk(s) && s.opMoved
    ensures s.target != s.admission.expected
  {
    NeverBack(s.admission.expected, s.admission.candidate, s.target);
  }

  lemma JournalWriteKept(d: Dir<JournalFiles>, after: JournalFiles, w: WriteOutcome)
    requires JournalKept(d)
    requires d.Live().intent.Some? ==> after.intent == d.Live().intent
    requires d.Live().receipt.Some? ==> after.receipt == d.Live().receipt
    ensures JournalKept(d.Write(after, w))
  {
    Ends(d);
    WriteContents(d, after, w);
  }

  /** What the live content lacks, no content has. */
  lemma LiveHasAll(d: Dir<JournalFiles>, j: JournalFiles)
    requires JournalKept(d) && j in d.Snapshots()
    ensures j.intent.Some? ==> d.Live().intent == j.intent
    ensures j.receipt.Some? ==> d.Live().receipt == j.receipt
    ensures d.durable.intent.Some? ==> j.intent == d.durable.intent
    ensures d.durable.receipt.Some? ==> j.receipt == d.durable.receipt
  {
    Ends(d);
    var i :| 0 <= i < |d.Snapshots()| && d.Snapshots()[i] == j;
  }

  lemma DurableIsSnapshot(d: Dir<JournalFiles>)
    ensures d.durable in d.Snapshots() && d.Live() in d.Snapshots()
  {
    Ends(d);
  }

  lemma IntentKeeps(s: Op, hazard: bool, w: WriteOutcome)
    requires OpInv(s, hazard) && s.phase == Idle && s.dir.Live().receipt.None? && s.dir.Live().intent.None?
    ensures OpInv(s.(dir := s.dir.Write(s.dir.Live().(intent := Some(s.admission)), w),
                     phase := if w == Durable then Granting else Idle), hazard)
  {
    var after := s.dir.Live().(intent := Some(s.admission));
    JournalWriteKept(s.dir, after, w);
    WriteContents(s.dir, after, w);
    DurableIsSnapshot(s.dir);
    LiveHasAll(s.dir, s.dir.durable);
    hide JournalKept, BranchOk;
    assert BranchOk(s.(dir := s.dir.Write(after, w), phase := if w == Durable then Granting else Idle)) by {
      SameBranch(s, s.(dir := s.dir.Write(after, w), phase := if w == Durable then Granting else Idle));
    }
  }

  lemma SameBranch(s: Op, t: Op)
    requires BranchOk(s) && t.target == s.target && t.admission == s.admission && t.held == s.held
      && t.opMoved == s.opMoved
    ensures BranchOk(t)
  {
  }

  /** Only the phase and the list of retained receipts change. */
  lemma PhaseKeeps(s: Op, hazard: bool, t: Op)
    requires OpInv(s, hazard) && t == s.(phase := t.phase, retained := t.retained) && PhaseOk(t, hazard)
    ensures OpInv(t, hazard)
  {
    hide JournalKept, PhaseOk, Justified;
    SameBranch(s, t);
    SameContents(s, hazard, t);
    hide BranchOk, ContentsOk;
  }

  lemma SameContents(s: Op, hazard: bool, t: Op)
    requires ContentsOk(s, hazard) && t.dir == s.dir && t.admission == s.admission && t.held == s.held
      && t.opMoved == s.opMoved
    ensures ContentsOk(t, hazard)
  {
  }

  lemma BeginKeeps(s: Op, hazard: bool, source: bool, grant: bool, w: WriteOutcome, now: nat)
    requires OpInv(s, hazard)
    ensures OpInv(StepBegin(s, source, grant, w, now), hazard)
  {
    var j := s.dir.Live();
    var t := StepBegin(s, source, grant, w, now);
    if s.phase == Idle && j.receipt.None? && j.intent.None? && source && grant {
      IntentKeeps(s, hazard, w);
    } else if s.phase == Idle {
      BeginPhase(s, hazard, source, grant, w, now);
      hide OpInv, PhaseOk;
      PhaseKeeps(s, hazard, t);
    }
  }

  lemma BeginPhase(s: Op, hazard: bool, source: bool, grant: bool, w: WriteOutcome, now: nat)
    requires OpInv(s, hazard) && s.phase == Idle
    requires s.dir.Live().receipt.Some? || s.dir.Live().intent.Some? || !source || !grant
    ensures var t := StepBegin(s, source, grant, w, now);
      t == s.(phase := t.phase, retained := t.retained) && PhaseOk(t, hazard)
  {
    DurableIsSnapshot(s.dir);
    hide JournalKept, BranchOk;
  }

  lemma ReceiptContents(s: Op, hazard: bool, r: Receipt, w: WriteOutcome)
    requires JournalKept(s.dir) && ContentsOk(s, hazard) && s.dir.Live().receipt.None? && Justified(s, hazard, r.state)
    ensures var t := s.(dir := s.dir.Write(s.dir.Live().(receipt := Some(r)), w), phase := Idle);
      JournalKept(t.dir) && ContentsOk(t, hazard)
  {
    var after := s.dir.Live().(receipt := Some(r));
    DurableIsSnapshot(s.dir);
    JournalWriteKept(s.dir, after, w);
    WriteContents(s.dir, after, w);
    hide JournalKept;
  }

  lemma ConcludeKeeps(s: Op, hazard: bool, now: nat, w: WriteOutcome, transport: bool)
    requires OpInv(s, hazard)
    ensures OpInv(StepConclude(s, now, w, transport), hazard)
  {
    if s.phase.Concluding? {
      var r := Receipt(s.phase.state, s.phase.code, now);
      var t := StepConclude(s, now, w, transport);
      ReceiptContents(s, hazard, r, w);
      SameContents(s.(dir := t.dir, phase := Idle), hazard, t);
      SameBranch(s, t);
      WriteContents(s.dir, s.dir.Live().(receipt := Some(r)), w);
      hide JournalKept, ContentsOk, BranchOk, Justified;
    }
  }

  lemma PowerFailsKeeps(s: Op, hazard: bool, kept: nat)
    requires OpInv(s, hazard)
    ensures var e := PowerFails(kept); OpInv(StepOp(s, e), hazard || Hazard(s, e))
  {
    var e := PowerFails(kept);
    var t := StepOp(s, e);
    Ends(s.dir);
    PowerLossContents(s.dir, kept);
    SameBranch(s, t);
    if kept < |s.dir.Snapshots()| {
      assert s.dir.Snapshots()[kept] in s.dir.Snapshots();
      assert t.dir.Live() == s.dir.Snapshots()[kept];
      LiveHasAll(s.dir, t.dir.Live());
    }
    hide BranchOk;
  }

  lemma UpdateRefKeeps(s: Op, hazard: bool, applies: bool, reports: bool)
    requires OpInv(s, hazard)
    ensures OpInv(StepUpdateRef(s, applies, reports), hazard)
  {
    if s.phase == Updating {
      forall j | j in s.dir.Snapshots() ensures j.receipt.None? {
        LiveHasAll(s.dir, j);
      }
    }
    hide JournalKept;
  }

  lemma InspectKeeps(s: Op, hazard: bool, readable: bool)
    requires OpInv(s, hazard)
    ensures OpInv(StepInspect(s, readable), hazard)
  {
    if s.phase == Inspecting {
      if s.opMoved { NotBackToExpected(s); }
      assert PhaseOk(StepInspect(s, readable), hazard) by { hide JournalKept, ContentsOk; }
      hide OpInv, PhaseOk;
      PhaseKeeps(s, hazard, StepInspect(s, readable));
    }
  }

  lemma CheckKeeps(s: Op, hazard: bool, early: Option<EffectError>, readable: bool, failure: Option<EffectError>)
    requires OpInv(s, hazard)
    ensures OpInv(StepCheck(s, early, readable, failure), hazard)
  {
    if s.phase == Checking {
      assert PhaseOk(StepCheck(s, early, readable, failure), hazard) by {
        hide JournalKept, ContentsOk, BranchOk, Before;
      }
      hide OpInv, PhaseOk;
      PhaseKeeps(s, hazard, StepCheck(s, early, readable, failure));
    }
  }

  lemma ExamineKeeps(s: Op, hazard: bool, readable: bool, err: EffectError)
    requires OpInv(s, hazard)
    ensures OpInv(StepExamine(s, readable, err), hazard)
  {
    if s.phase.Examining? {
      if s.opMoved { NotBackToExpected(s); }
      assert PhaseOk(StepExamine(s, readable, err), hazard) by { hide JournalKept, ContentsOk, Before; }
      hide OpInv, PhaseOk;
      PhaseKeeps(s, hazard, StepExamine(s, readable, err));
    }
  }

  lemma SmallKeeps(s: Op, hazard: bool, e: Event)
    requires OpInv(s, hazard) && (e.Grant? || e.Confirm? || e.ProcessDies?)
    ensures OpInv(StepOp(s, e), hazard)
  {
    assert PhaseOk(StepOp(s, e), hazard) by { hide JournalKept, ContentsOk, BranchOk, Before; }
    hide OpInv, PhaseOk;
    PhaseKeeps(s, hazard, StepOp(s, e));
  }

  lemma OtherWriterKeeps(s: Op, hazard: bool, next: Commit)
    requires OpInv(s, hazard) && WellFormed(next) && Before(s.target, next)
    ensures var e := OtherWriter(next); OpInv(StepOp(s, e), hazard || Hazard(s, e))
  {
    var e := OtherWriter(next);
    var t := StepOp(s, e);
    hide JournalKept;
    assert t.target != s.target;
    assert BranchOk(t) by { hide ContentsOk, PhaseOk; }
    assert ContentsOk(t, hazard || Hazard(s, e)) && PhaseOk(t, hazard || Hazard(s, e)) by {
      hide BranchOk, Before, WellFormed;
    }
  }

  lemma StepOpKeeps(s: Op, hazard: bool, e: Event)
    requires OpInv(s, hazard)
    ensures OpInv(StepOp(s, e), hazard || Hazard(s, e))
  {
    hide OpInv;
    match e {
      case Begin(source, grant, w, now) => BeginKeeps(s, hazard, source, grant, w, now);
      case Inspect(readable) => InspectKeeps(s, hazard, readable);
      case UpdateRef(applies, reports) => UpdateRefKeeps(s, hazard, applies, reports);
      case Conclude(now, w, transport) => ConcludeKeeps(s, hazard, now, w, transport);
      case PowerFails(kept) => PowerFailsKeeps(s, hazard, kept);
      case Check(early, readable, failure) => CheckKeeps(s, hazard, early, readable, failure);
      case Examine(readable, err) => ExamineKeeps(s, hazard, readable, err);
      case OtherWriter(next) =>
        if WellFormed(next) && Before(s.target, next) { OtherWriterKeeps(s, hazard, next); }
      case _ => SmallKeeps(s, hazard, e);
    }
  }

  lemma {:induction false} RunOpKeeps(s: Op, hazard: bool, events: seq<Event>)
    requires OpInv(s, hazard)
    ensures OpInv(RunOp(s, events), hazard || HazardIn(s, events))
    decreases |events|
  {
    hide OpInv, StepOp, Hazard;
    if events != [] {
      var before := events[..|events| - 1];
      RunOpKeeps(s, hazard, before);
      StepOpKeeps(RunOp(s, before), hazard || HazardIn(s, before), events[|events| - 1]);
    }
  }

  // ---------- runs ----------

  predicate Startable(admission: Admission, target: Commit)
  {
    WellFormed(admission.expected) && WellFormed(admission.candidate) && WellFormed(target)
  }

  /** Some run leads to `s`, with or without a hazard on the way. */
  ghost predicate Reaches(s: Op, hazard: bool)
  {
    exists admission: Admission, target: Commit, events: seq<Event> ::
      && Startable(admission, target)
      && s == RunOp(InitOp(admission, target), events) && hazard == HazardIn(InitOp(admission, target), events)
  }

  ghost predicate ReachableOp(s: Op)
  {
    Reaches(s, true) || Reaches(s, false)
  }

  ghost predicate ReachableQuiet(s: Op)
  {
    exists admission: Admission, target: Commit, events: seq<Event> ::
      && Startable(admission, target)
      && s == RunOp(InitOp(admission, target), events) && QuietIn(InitOp(admission, target), events)
  }

  ghost predicate ReachableReceiptsSafe(s: Op)
  {
    exists admission: Admission, target: Commit, events: seq<Event> ::
      && Startable(admission, target)
      && s == RunOp(InitOp(admission, target), events) && ReceiptsSafeIn(InitOp(admission, target), events)
  }

  /** Some continuation leads from `s` to `t`. */
  ghost predicate LeadsOp(s: Op, t: Op)
  {
    exists events: seq<Event> :: t == RunOp(s, events)
  }

  lemma InitOpInv(admission: Admission, target: Commit)
    requires Startable(admission, target)
    ensures OpInv(InitOp(admission, target), false)
  {
  }

  lemma ReachesInv(s: Op, hazard: bool)
    requires Reaches(s, hazard)
    ensures OpInv(s, hazard)
  {
    hide OpInv, InitOp;
    var admission: Admission, target: Commit, events: seq<Event> :|
      && Startable(admission, target)
      && s == RunOp(InitOp(admission, target), events) && hazard == HazardIn(InitOp(admission, target), events);
    InitOpInv(admission, target);
    RunOpKeeps(InitOp(admission, target), false, events);
  }

  lemma ReachesStart(admission: Admission, target: Commit)
    requires Startable(admission, target)
    ensures Reaches(InitOp(admission, target), false)
  {
    assert RunOp(InitOp(admission, target), []) == InitOp(admission, target);
  }

  lemma RunSplit(s: Op, events: seq<Event>, e: Event)
    ensures RunOp(s, events + [e]) == StepOp(RunOp(s, events), e)
    ensures HazardIn(s, events + [e]) == (HazardIn(s, events) || Hazard(RunOp(s, events), e))
  {
    hide StepOp, Hazard;
    assert (events + [e])[..|events|] == events;
  }

  lemma ReachesStep(s: Op, hazard: bool, e: Event)
    requires Reaches(s, hazard)
    ensures Reaches(StepOp(s, e), hazard || Hazard(s, e))
  {
    hide StepOp, Hazard, InitOp;
    var admission: Admission, target: Commit, events: seq<Event> :|
      && Startable(admission, target)
      && s == RunOp(InitOp(admission, target), events) && hazard == HazardIn(InitOp(admission, target), events);
    RunSplit(InitOp(admission, target), events, e);
  }

  lemma LeadsStep(s: Op, t: Op, e: Event)
    requires LeadsOp(s, t)
    ensures LeadsOp(s, StepOp(t, e))
  {
    hide StepOp;
    var events: seq<Event> :| t == RunOp(s, events);
    RunSplit(s, events, e);
  }

  lemma LeadsSelf(s: Op)
    ensures LeadsOp(s, s)
  {
    assert s == RunOp(s, []);
  }

  // ---------- the update happens between intent and receipt ----------

  /** Every attempted compare-and-swap finds the intent in the journal and a receipt in no content that is
      readable or can survive; the intent is durable exactly when no link is unsynced. */
  lemma CasAttemptsAfterIntent(s: Op, j: JournalFiles)
    requires ReachableOp(s) && s.phase == Updating && j in s.dir.Snapshots()
    ensures s.dir.Live().intent == Some(s.admission) && j.receipt.None?
    ensures s.dir.durable.intent == Some(s.admission) <==> s.dir.pending == []
    ensures Before(s.admission.expected, s.admission.candidate)
  {
    var hazard :| Reaches(s, hazard);
    ReachesInv(s, hazard);
    LiveHasAll(s.dir, j);
    hide JournalKept, ContentsOk, BranchOk, Before;
  }

  /** This operation moves the branch only by such an attempt, and then exactly from the expected commit
      to the candidate that descends from it. */
  lemma CasOnlyAfterIntentAndBeforeReceipt(s: Op, e: Event)
    requires ReachableOp(s) && !e.OtherWriter? && StepOp(s, e).target != s.target
    ensures s.phase == Updating && s.dir.Live().intent == Some(s.admission) && s.dir.Live().receipt.None?
    ensures s.target == s.admission.expected && StepOp(s, e).target == s.admission.candidate
    ensures Before(s.admission.expected, s.admission.candidate)
  {
    OnlyUpdateMovesTarget(s, e);
    hide StepOp, ReachableOp, Before;
    DurableIsSnapshot(s.dir);
    CasAttemptsAfterIntent(s, s.dir.Live());
  }

  lemma OnlyUpdateMovesTarget(s: Op, e: Event)
    requires !e.OtherWriter? && StepOp(s, e).target != s.target
    ensures s.phase == Updating && s.target == s.admission.expected && StepOp(s, e).target == s.admission.candidate
  {
    ExecuteStepsKeepTarget(s, e);
    EffectStepsKeepTarget(s, e);
    hide StepBegin, StepInspect, StepCheck, StepConfirm, StepExamine, StepConclude;
  }

  lemma ExecuteStepsKeepTarget(s: Op, e: Event)
    ensures e.Begin? || e.Inspect? || e.Conclude? ==> StepOp(s, e).target == s.target
  {
    hide StepCheck, StepConfirm, StepExamine, StepUpdateRef, Before, WellFormed;
  }

  lemma EffectStepsKeepTarget(s: Op, e: Event)
    ensures e.Check? || e.Confirm? || e.Examine? ==> StepOp(s, e).target == s.target
  {
    hide StepBegin, StepInspect, StepConclude, StepUpdateRef, Before, WellFormed, Classify;
  }

  // ---------- one receipt ----------

  ghost predicate AllLive(s: Op)
  {
    forall i :: 0 <= i < |s.retained| ==> s.dir.Live().receipt == Some(s.retained[i])
  }

  lemma AllLiveStep(s: Op, hazard: bool, e: Event)
    requires OpInv(s, hazard) && AllLive(s) && (e.PowerFails? ==> !UnsyncedReceipt(s.dir))
    ensures AllLive(StepOp(s, e))
  {
    match e {
      case PowerFails(kept) =>
        PowerLossContents(s.dir, kept);
        if kept < |s.dir.Snapshots()| {
          LiveHasAll(s.dir, s.dir.Snapshots()[kept]);
        }
      case Conclude(now, w, transport) =>
        if s.phase.Concluding? {
          WriteContents(s.dir, s.dir.Live().(receipt := Some(Receipt(s.phase.state, s.phase.code, now))), w);
        }
      case Begin(source, grant, w, now) =>
        WriteContents(s.dir, s.dir.Live().(intent := Some(s.admission)), w);
      case _ => QuietReceiptStep(s, e);
    }
  }

  lemma QuietReceiptStep(s: Op, e: Event)
    requires !e.PowerFails? && !e.Conclude? && !e.Begin?
    ensures StepOp(s, e).dir == s.dir && StepOp(s, e).retained == s.retained
  {
    hide Before, WellFormed, Classify;
  }

  lemma {:induction false} RunAllLive(s: Op, hazard: bool, events: seq<Event>)
    requires OpInv(s, hazard) && AllLive(s) && ReceiptsSafeIn(s, events)
    ensures AllLive(RunOp(s, events))
    decreases |events|
  {
    hide OpInv, StepOp, AllLive, UnsyncedReceipt;
    if events != [] {
      var before := events[..|events| - 1];
      RunAllLive(s, hazard, before);
      RunOpKeeps(s, hazard, before);
      AllLiveStep(RunOp(s, before), hazard || HazardIn(s, before), events[|events| - 1]);
    }
  }

  /** Unless power is lost while a receipt is unsynced, all receipts ever handed to Central are the one
      in the journal. */
  lemma SameReceiptRetained(s: Op, i: nat, j: nat)
    requires ReachableReceiptsSafe(s) && i < |s.retained| && j < |s.retained|
    ensures s.retained[i] == s.retained[j] && s.dir.Live().receipt == Some(s.retained[i])
  {
    var admission: Admission, target: Commit, events: seq<Event> :|
      && Startable(admission, target)
      && s == RunOp(InitOp(admission, target), events) && ReceiptsSafeIn(InitOp(admission, target), events);
    InitOpInv(admission, target);
    RunAllLive(InitOp(admission, target), false, events);
  }

  predicate Agree(retained: seq<Receipt>)
  {
    forall i, j :: 0 <= i < |retained| && 0 <= j < |retained| ==> retained[i] == retained[j]
  }

  /** The receipt `r` is durable and nothing else was ever retained. */
  ghost predicate Settled(s: Op, r: Receipt)
  {
    && s.dir.durable.receipt == Some(r) && JournalKept(s.dir) && s.phase == Idle
    && forall i :: 0 <= i < |s.retained| ==> s.retained[i] == r
  }

  lemma SettledStep(s: Op, r: Receipt, e: Event)
    requires Settled(s, r)
    ensures Settled(StepOp(s, e), r)
  {
    DurableIsSnapshot(s.dir);
    LiveHasAll(s.dir, s.dir.Live());
    if e.PowerFails? {
      PowerLossContents(s.dir, e.kept);
      if e.kept < |s.dir.Snapshots()| {
        LiveHasAll(s.dir, s.dir.Snapshots()[e.kept]);
      }
    }
  }

  lemma {:induction false} RunSettled(s: Op, r: Receipt, events: seq<Event>)
    requires Settled(s, r)
    ensures Settled(RunOp(s, events), r)
    decreases |events|
  {
    hide Settled, StepOp;
    if events != [] {
      RunSettled(s, r, events[..|events| - 1]);
      SettledStep(RunOp(s, events[..|events| - 1]), r, events[|events| - 1]);
    }
  }

  /** Lose the unsynced part of the journal and run Execute once without a source. */
  function LoseAndRetry(s: Op, now: nat): (t: Op)
  {
    StepOp(StepOp(StepOp(s, PowerFails(0)), Begin(false, false, NotLinked, now)), Conclude(now, Durable, true))
  }

  lemma LoseAndRetryLeads(s: Op, now: nat)
    ensures LeadsOp(s, LoseAndRetry(s, now))
  {
    hide StepOp;
    LeadsSelf(s);
    LeadsStep(s, s, PowerFails(0));
    LeadsStep(s, StepOp(s, PowerFails(0)), Begin(false, false, NotLinked, now));
    LeadsStep(s, StepOp(StepOp(s, PowerFails(0)), Begin(false, false, NotLinked, now)), Conclude(now, Durable, true));
  }

  /** What that call leaves: a replayed receipt, or a new one. */
  lemma LoseAndRetryEnds(s: Op, now: nat)
    ensures var t := LoseAndRetry(s, now); var j := s.dir.durable;
      if j.receipt.Some? then t.retained == s.retained + [j.receipt.value]
      else
        var r := if j.intent.Some? then Receipt(ReceiptUnknown, RecoveryUnavailable, now)
                 else Receipt(ReceiptFailed, AuthorityUnavailable, now);
        t.retained == s.retained + [r] && t.dir == Dir(j.(receipt := Some(r)), [])
  {
    var s1 := StepOp(s, PowerFails(0));
    assert s1 == s.(dir := Dir(s.dir.durable, []), phase := Idle);
  }

  /** While all retained receipts agree, every continuation keeps them agreeing exactly when the retained
      receipt is the durable one. */
  lemma SameReceiptForeverIff(s: Op)
    requires ReachableOp(s) && s.retained != [] && Agree(s.retained)
    ensures (forall t :: LeadsOp(s, t) ==> Agree(t.retained)) <==> s.dir.durable.receipt == Some(s.retained[0])
  {
    var first := s.retained[0];
    if s.dir.durable.receipt == Some(first) {
      SettledNow(s);
      hide Settled, ReachableOp;
      forall t | LeadsOp(s, t) ensures Agree(t.retained) {
        var events: seq<Event> :| t == RunOp(s, events);
        RunSettled(s, first, events);
        SettledAgrees(t, first);
      }
    } else {
      hide ReachableOp, LeadsOp, LoseAndRetry;
      var now := first.at + 1;
      var t := LoseAndRetry(s, now);
      LoseAndRetryLeads(s, now);
      LoseAndRetryEnds(s, now);
      assert t.retained[0] == first && t.retained[|s.retained|] != first;
    }
  }

  lemma SettledNow(s: Op)
    requires ReachableOp(s) && s.retained != [] && Agree(s.retained) && s.dir.durable.receipt == Some(s.retained[0])
    ensures Settled(s, s.retained[0])
  {
    var hazard :| Reaches(s, hazard);
    ReachesInv(s, hazard);
    DurableIsSnapshot(s.dir);
    LiveHasAll(s.dir, s.dir.durable);
    hide JournalKept, ContentsOk, BranchOk;
  }

  lemma SettledAgrees(s: Op, r: Receipt)
    requires Settled(s, r)
    ensures Agree(s.retained)
  {
    hide JournalKept;
  }

  // ---------- what a receipt says about the branch ----------

  /** A succeeded receipt implies that the branch held the candidate. */
  lemma SucceededMeansHeld(s: Op)
    requires ReachableOp(s) && s.dir.Live().receipt.Some? && s.dir.Live().receipt.value.state == Succeeded
    ensures s.held
  {
    var hazard :| Reaches(s, hazard);
    ReachesInv(s, hazard);
    DurableIsSnapshot(s.dir);
  }

  /** Under a failed or canceled receipt this operation moved the branch exactly when its run had a hazard. */
  lemma FailedReceiptExact(s: Op, hazard: bool)
    requires Reaches(s, hazard) && DeniedIn(s.dir.Live())
    ensures s.opMoved <==> hazard
  {
    ReachesInv(s, hazard);
    DurableIsSnapshot(s.dir);
  }

  lemma QuietStep(s: Op, e: Event)
    requires OpInv(s, false) && Quiet(s, e)
    ensures !Hazard(s, e)
  {
    if e.PowerFails? && e.kept < |s.dir.Snapshots()| {
      LiveHasAll(s.dir, s.dir.Snapshots()[e.kept]);
    }
    hide JournalKept, ContentsOk, BranchOk;
  }

  lemma {:induction false} QuietRun(s: Op, events: seq<Event>)
    requires OpInv(s, false) && QuietIn(s, events)
    ensures !HazardIn(s, events)
    decreases |events|
  {
    hide OpInv, StepOp, Hazard, Quiet;
    if events != [] {
      var before := events[..|events| - 1];
      QuietRun(s, before);
      RunOpKeeps(s, false, before);
      QuietStep(RunOp(s, before), events[|events| - 1]);
    }
  }

  /** If nobody moves the branch between an update-ref error and its examination, and no power is lost
      while the intent is unsynced, then a failed or canceled receipt means that this operation never
      moved the branch. */
  lemma FailedReceiptHonest(s: Op)
    requires ReachableQuiet(s) && DeniedIn(s.dir.Live())
    ensures !s.opMoved
  {
    hide InitOp, OpInv;
    var admission: Admission, target: Commit, events: seq<Event> :|
      && Startable(admission, target)
      && s == RunOp(InitOp(admission, target), events) && QuietIn(InitOp(admission, target), events);
    InitOpInv(admission, target);
    QuietRun(InitOp(admission, target), events);
    assert Reaches(s, false);
    FailedReceiptExact(s, false);
  }

  // ---------- between calls: can the receipt still be wrong? ----------

  /** The branch is moved, the intent durable, and nothing denies it. */
  ghost predicate Remembered(s: Op)
  {
    && BranchOk(s) && s.opMoved && JournalKept(s.dir)
    && s.dir.durable.intent.Some? && (forall j :: j in s.dir.Snapshots() ==> !DeniedIn(j))
    && (s.phase == Idle || s.phase == Inspecting || (s.phase.Concluding? && !Denies(s.phase.state)))
    && (s.phase != Idle ==> s.dir.Live().receipt.None?)
  }

  lemma RememberedStep(s: Op, e: Event)
    requires Remembered(s)
    ensures Remembered(StepOp(s, e))
  {
    NotBackToExpected(s);
    DurableIsSnapshot(s.dir);
    LiveHasAll(s.dir, s.dir.Live());
    match e {
      case PowerFails(kept) =>
        PowerLossContents(s.dir, kept);
        if kept < |s.dir.Snapshots()| {
          LiveHasAll(s.dir, s.dir.Snapshots()[kept]);
        }
        SameBranch(s, StepOp(s, e));
      case Conclude(now, w, transport) =>
        if s.phase.Concluding? {
          var after := s.dir.Live().(receipt := Some(Receipt(s.phase.state, s.phase.code, now)));
          JournalWriteKept(s.dir, after, w);
          WriteContents(s.dir, after, w);
        }
        SameBranch(s, StepOp(s, e));
        hide JournalKept, BranchOk;
      case OtherWriter(next) => hide JournalKept;
      case _ =>
        RememberedSmall(s, e);
    }
  }

  lemma RememberedSmall(s: Op, e: Event)
    requires Remembered(s) && !e.PowerFails? && !e.Conclude? && !e.OtherWriter?
    requires s.target != s.admission.expected && s.dir.Live().intent.Some?
    ensures Remembered(StepOp(s, e))
  {
    hide JournalKept, Before, WellFormed, DeniedIn;
  }

  lemma {:induction false} RunRemembered(s: Op, events: seq<Event>)
    requires Remembered(s)
    ensures Remembered(RunOp(s, events))
    decreases |events|
  {
    hide Remembered, StepOp;
    if events != [] {
      RunRemembered(s, events[..|events| - 1]);
      RememberedStep(RunOp(s, events[..|events| - 1]), events[|events| - 1]);
    }
  }

  /** After this operation moved the branch and its call ended without a receipt, a receipt that denies it
      can still come about exactly when the intent is not durable. */
  lemma WrongReceiptPossibleIff(s: Op)
    requires ReachableOp(s) && s.opMoved && s.phase == Idle && s.dir.Live().receipt.None?
    ensures (exists t :: LeadsOp(s, t) && DeniedIn(t.dir.Live())) <==> s.dir.durable.intent.None?
  {
    NoReceiptAnywhere(s);
    if s.dir.durable.intent.None? {
      hide ReachableOp, LeadsOp, LoseAndRetry;
      LoseAndRetryLeads(s, 0);
      LoseAndRetryEnds(s, 0);
      assert DeniedIn(LoseAndRetry(s, 0).dir.Live());
    } else {
      RememberedNow(s);
      hide Remembered, ReachableOp, DeniedIn;
      forall t | LeadsOp(s, t) ensures !DeniedIn(t.dir.Live()) {
        var events: seq<Event> :| t == RunOp(s, events);
        RunRemembered(s, events);
        RememberedLive(t);
      }
    }
  }

  lemma NoReceiptAnywhere(s: Op)
    requires ReachableOp(s) && s.dir.Live().receipt.None?
    ensures forall j :: j in s.dir.Snapshots() ==> j.receipt.None?
    ensures s.dir.durable.receipt.None?
  {
    var hazard :| Reaches(s, hazard);
    ReachesInv(s, hazard);
    DurableIsSnapshot(s.dir);
    forall j | j in s.dir.Snapshots() ensures j.receipt.None? {
      LiveHasAll(s.dir, j);
    }
  }

  lemma RememberedNow(s: Op)
    requires ReachableOp(s) && s.opMoved && s.phase == Idle && s.dir.durable.intent.Some?
    requires forall j :: j in s.dir.Snapshots() ==> j.receipt.None?
    ensures Remembered(s)
  {
    var hazard :| Reaches(s, hazard);
    ReachesInv(s, hazard);
    hide JournalKept, ContentsOk, PhaseOk, BranchOk;
  }

  lemma RememberedLive(s: Op)
    requires Remembered(s)
    ensures !DeniedIn(s.dir.Live())
  {
    DurableIsSnapshot(s.dir);
  }

  // ---------- the exceptions are real ----------

  const OLD := Commit(1, {})
  const MINE := Commit(2, {1})
  const THEIRS := Commit(3, {1, 2})
  const ADMITTED := Admission(OLD, MINE)

  /** A fresh operation whose intent was linked but not synced, and whose next call is about to update. */
  function UnsyncedUpdating(): (s: Op)
  {
    InitOp(ADMITTED, OLD).(dir := Dir(JournalFiles(None, None), [JournalFiles(Some(ADMITTED), None)]),
        phase := Updating)
  }

  lemma UnsyncedUpdatingReached()
    ensures Reaches(UnsyncedUpdating(), false)
  {
    var s0 := InitOp(ADMITTED, OLD);
    var d := Dir(JournalFiles(None, None), [JournalFiles(Some(ADMITTED), None)]);
    var e1, e2 := Begin(true, true, LinkedUnsynced, 1), Begin(true, true, NotLinked, 2);
    assert StepOp(s0, e1) == s0.(dir := d);
    assert StepOp(s0.(dir := d), e2) == s0.(dir := d, phase := Inspecting);
    assert StepOp(s0.(dir := d, phase := Inspecting), Inspect(true)) == s0.(dir := d, phase := Granting);
    assert StepOp(s0.(dir := d, phase := Granting), Grant(true)) == s0.(dir := d, phase := Checking);
    assert StepOp(s0.(dir := d, phase := Checking), Check(None, true, None)) == s0.(dir := d, phase := Updating);
    hide StepOp, Reaches;
    ReachesStart(ADMITTED, OLD);
    ReachesStep(s0, false, e1);
    ReachesStep(s0.(dir := d), false, e2);
    ReachesStep(s0.(dir := d, phase := Inspecting), false, Inspect(true));
    ReachesStep(s0.(dir := d, phase := Granting), false, Grant(true));
    ReachesStep(s0.(dir := d, phase := Checking), false, Check(None, true, None));
  }

  /** The branch can be moved while the intent is not durable: a failed sync of the intent is not repeated. */
  lemma CasCanPrecedeDurableIntent()
    ensures exists s: Op, e: Event ::
      Reaches(s, false) && s.dir.durable.intent.None? && e.UpdateRef? && StepOp(s, e).target != s.target
  {
    UnsyncedUpdatingReached();
    var s, e := UnsyncedUpdating(), UpdateRef(true, true);
    assert StepOp(s, e).target == MINE;
    assert Reaches(s, false) && s.dir.durable.intent.None? && e.UpdateRef? && StepOp(s, e).target != s.target;
  }

  /** A power loss then takes the intent, and the next call denies the move. */
  lemma LostIntentDenies()
    ensures exists s :: Reaches(s, true) && s.opMoved && DeniedIn(s.dir.Live())
  {
    UnsyncedUpdatingReached();
    var s1 := UnsyncedUpdating();
    var u := UpdateRef(true, true);
    assert StepOp(s1, u) == s1.(target := MINE, opMoved := true, held := true, phase := Confirming);
    hide Reaches;
    ReachesStep(s1, false, u);
    DroppedIntentEnds(StepOp(s1, u));
  }

  lemma DroppedIntentEnds(s: Op)
    requires Reaches(s, false) && s.opMoved && s.dir.durable == JournalFiles(None, None)
    ensures exists t :: Reaches(t, true) && t.opMoved && DeniedIn(t.dir.Live())
  {
    var p, b, c := PowerFails(0), Begin(false, false, NotLinked, 9), Conclude(9, Durable, true);
    LoseAndRetryEnds(s, 9);
    var s1 := StepOp(s, p);
    assert s1 == s.(dir := Dir(JournalFiles(None, None), []), phase := Idle);
    assert Hazard(s, p);
    var s2 := StepOp(s1, b);
    assert s2.opMoved;
    var s3 := StepOp(s2, c);
    assert s3.opMoved && s3 == LoseAndRetry(s, 9);
    hide StepOp, Hazard, Reaches, LoseAndRetry;
    ReachesStep(s, false, p);
    ReachesStep(s1, true, b);
    ReachesStep(s2, true, c);
    assert DeniedIn(s3.dir.Live());
  }

  /** The update is applied but reported as an error, and another writer fast-forwards past it. */
  lemma FailedReceiptCanBeWrong()
    ensures exists s :: Reaches(s, true) && s.opMoved && s.dir.pending == []
                        && s.dir.durable == JournalFiles(Some(s.admission),
                            Some(Receipt(ReceiptFailed, TargetMoved, 2)))
  {
    var s0 := InitOp(ADMITTED, OLD);
    var d := Dir(JournalFiles(Some(ADMITTED), None), []);
    var b, c, u := Begin(true, true, Durable, 1), Check(None, true, None), UpdateRef(true, false);
    var moved := s0.(dir := d, target := MINE, opMoved := true, held := true, phase := Examining(true));
    var past := moved.(target := THEIRS);
    assert StepOp(s0, b) == s0.(dir := d, phase := Granting);
    assert StepOp(s0.(dir := d, phase := Granting), Grant(true)) == s0.(dir := d, phase := Checking);
    assert StepOp(s0.(dir := d, phase := Checking), c) == s0.(dir := d, phase := Updating);
    assert StepOp(s0.(dir := d, phase := Updating), u) == moved;
    assert StepOp(moved, OtherWriter(THEIRS)) == past;
    hide Reaches;
    ReachesStart(ADMITTED, OLD);
    ReachesStep(s0, false, b);
    ReachesStep(s0.(dir := d, phase := Granting), false, Grant(true));
    ReachesStep(s0.(dir := d, phase := Checking), false, c);
    ReachesStep(s0.(dir := d, phase := Updating), false, u);
    ReachesStep(moved, false, OtherWriter(THEIRS));
    OvertakenEnds(past);
  }

  lemma OvertakenEnds(s: Op)
    requires Reaches(s, true) && s.phase == Examining(true) && s.opMoved && s.target == THEIRS
      && s.admission == ADMITTED
    requires s.dir == Dir(JournalFiles(Some(ADMITTED), None), [])
    ensures exists t :: Reaches(t, true) && t.opMoved && t.dir.pending == []
                        && t.dir.durable == JournalFiles(Some(t.admission),
                            Some(Receipt(ReceiptFailed, TargetMoved, 2)))
  {
    var t := StepOp(s, Examine(true, Other));
    assert t == s.(phase := Concluding(ReceiptFailed, TargetMoved));
    var u := StepOp(t, Conclude(2, Durable, true));
    assert u.opMoved && u.dir == Dir(JournalFiles(Some(ADMITTED), Some(Receipt(ReceiptFailed, TargetMoved, 2))), []);
    hide StepOp, Hazard, Reaches;
    ReachesStep(s, true, Examine(true, Other));
    ReachesStep(t, true, Conclude(2, Durable, true));
  }

  /** Two different receipts can be handed to Central: the first was never synced. */
  lemma TwoReceiptsCanBeRetained()
    ensures exists s, hazard :: Reaches(s, hazard) && !Agree(s.retained)
  {
    var s0 := InitOp(ADMITTED, OLD);
    var r := Receipt(ReceiptFailed, AuthorityUnavailable, 1);
    var d := Dir(JournalFiles(None, None), [JournalFiles(None, Some(r))]);
    var b := Begin(false, false, NotLinked, 1);
    assert StepOp(s0, b) == s0.(phase := Concluding(ReceiptFailed, AuthorityUnavailable));
    assert StepOp(s0.(phase := Concluding(ReceiptFailed, AuthorityUnavailable)), Conclude(1, LinkedUnsynced, true)) ==
        s0.(dir := d);
    assert StepOp(s0.(dir := d), b) == s0.(dir := d, retained := [r]);
    hide StepOp, Reaches, Hazard;
    ReachesStart(ADMITTED, OLD);
    ReachesStep(s0, false, b);
    ReachesStep(s0.(phase := Concluding(ReceiptFailed, AuthorityUnavailable)), Hazard(s0, b),
        Conclude(1, LinkedUnsynced, true));
    var hazard :| Reaches(s0.(dir := d), hazard);
    ReachesStep(s0.(dir := d), hazard, b);
    RetainedTwice(s0.(dir := d, retained := [r]), hazard || Hazard(s0.(dir := d), b));
  }

  lemma RetainedTwice(s: Op, hazard: bool)
    requires Reaches(s, hazard) && s.retained == [Receipt(ReceiptFailed, AuthorityUnavailable, 1)]
    requires s.dir.durable == JournalFiles(None, None)
    ensures exists t, h :: Reaches(t, h) && !Agree(t.retained)
  {
    LoseAndRetryEnds(s, 2);
    var s1 := StepOp(s, PowerFails(0));
    var s2 := StepOp(s1, Begin(false, false, NotLinked, 2));
    var s3 := StepOp(s2, Conclude(2, Durable, true));
    assert s3 == LoseAndRetry(s, 2);
    hide StepOp, Reaches, Hazard, LoseAndRetry;
    assert s3.retained[0] != s3.retained[1];
    ReachesStep(s, hazard, PowerFails(0));
    ReachesStep(s1, hazard || Hazard(s, PowerFails(0)), Begin(false, false, NotLinked, 2));
    var h :| Reaches(s2, h);
    ReachesStep(s2, h, Conclude(2, Durable, true));
  }
}
