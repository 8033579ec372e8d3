/**
 One uninterrupted Execute call on the durable journal and the target branch. It is
 the run that takes every step of the write-ahead protocol once, in order.
 */
module IntegrationCoordinator {
  import opened DurableDirectory
  import opened Options
  import opened Integration

  /** What the collaborators answer during one call, in the order of the calls. */
  datatype Answers = Answers(
    source: bool, grant: bool, intentWrite: WriteOutcome, inspectable: bool, grantAgain: bool,
    early: Option<EffectError>, readable: bool, failure: Option<EffectError>, applies: bool, reports: bool,
    confirmable: bool, examinable: bool, updateError: EffectError,
    receiptWrite: WriteOutcome, transport: bool, now: nat)

  /** The atomic update and the look at what happened. */
  function AfterChecks(s: Op, a: Answers): (t: Op)
  {
    StepExamine(StepConfirm(StepUpdateRef(s, a.applies, a.reports), a.confirmable), a.examinable, a.updateError)
  }

  lemma AfterChecksSkip(s: Op, a: Answers)
    requires s.phase.Concluding?
    ensures AfterChecks(s, a) == s
  {
  }

  /** The steps from the second grant check up to the end of IntegrateExactTarget. */
  function Effects(s: Op, a: Answers): (t: Op)
  {
    AfterChecks(StepCheck(StepOp(s, Grant(a.grantAgain)), a.early, a.readable, a.failure), a)
  }

  function Attempt(s: Op, a: Answers): (t: Op)
  {
    StepConclude(Effects(StepInspect(StepBegin(s, a.source, a.grant, a.intentWrite, a.now), a.inspectable), a), a.now,
        a.receiptWrite, a.transport)
  }

  function AttemptEvents(a: Answers): (events: seq<Event>)
  {
    [Begin(a.source, a.grant, a.intentWrite, a.now), Inspect(a.inspectable), Grant(a.grantAgain),
        Check(a.early, a.readable, a.failure),
     UpdateRef(a.applies, a.reports), Confirm(a.confirmable), Examine(a.examinable, a.updateError),
         Conclude(a.now, a.receiptWrite, a.transport)]
  }

  lemma RunNothing(s: Op)
    ensures RunOp(s, []) == s
  {
  }

  lemma RunPrefix(s: Op, events: seq<Event>, k: nat)
    requires k < |events|
    ensures RunOp(s, events[..k + 1]) == StepOp(RunOp(s, events[..k]), events[k])
  {
    hide StepOp;
    assert events[..k + 1][..k] == events[..k];
  }

  /** An uninterrupted call is a run of the protocol. */
  lemma AttemptIsRun(s: Op, a: Answers)
    ensures RunOp(s, AttemptEvents(a)) == Attempt(s, a)
  {
    hide StepBegin, StepInspect, StepCheck, StepUpdateRef, StepConfirm, StepExamine, StepConclude, RunOp;
    var events := AttemptEvents(a);
    RunNothing(s);
    assert events[..0] == [] && events[..8] == events;
    RunPrefix(s, events, 0);
    RunPrefix(s, events, 1);
    RunPrefix(s, events, 2);
    RunPrefix(s, events, 3);
    RunPrefix(s, events, 4);
    RunPrefix(s, events, 5);
    RunPrefix(s, events, 6);
    RunPrefix(s, events, 7);
  }

  /** Steps that do not apply leave the state alone. */
  lemma EffectsSkip(s: Op, a: Answers)
    requires s.phase == Idle || s.phase.Concluding?
    ensures Effects(s, a) == s && StepInspect(s, a.inspectable) == s
  {
  }

  lemma EffectsDenied(s: Op, a: Answers)
    requires s.phase == Granting && !a.grantAgain
    ensures Effects(s, a) == s.(phase := Concluding(ReceiptFailed, AuthorityUnavailable))
  {
    hide StepCheck, AfterChecks;
    var t := s.(phase := Concluding(ReceiptFailed, AuthorityUnavailable));
    EffectsSkip(t, a);
    assert StepOp(t, Grant(a.grantAgain)) == t;
  }

  /** The branches of one attempt. */
  ghost predicate AttemptIs(s: Op, a: Answers)
  {
    var j := s.dir.Live();
      Attempt(s, a) ==
      if j.receipt.Some? then s.(retained := s.retained + [j.receipt.value])
      else if j.intent.Some? then
        (if a.source then
          StepConclude(Effects(StepInspect(s.(phase := Inspecting), a.inspectable), a), a.now, a.receiptWrite,
              a.transport)
         else StepConclude(s.(phase := Concluding(ReceiptUnknown, RecoveryUnavailable)), a.now, a.receiptWrite,
             a.transport))
      else if !a.source || !a.grant then
        StepConclude(s.(phase := Concluding(ReceiptFailed, AuthorityUnavailable)), a.now, a.receiptWrite, a.transport)
      else
        var t := s.(dir := s.dir.Write(j.(intent := Some(s.admission)), a.intentWrite));
        if a.intentWrite != Durable then t
        else StepConclude(Effects(t.(phase := Granting), a), a.now, a.receiptWrite, a.transport)
  }

  lemma AttemptBranches(s: Op, a: Answers)
    requires s.phase == Idle
    ensures AttemptIs(s, a)
  {
    hide Effects, StepInspect;
    var t := StepBegin(s, a.source, a.grant, a.intentWrite, a.now);
    if t.phase == Idle || t.phase.Concluding? {
      EffectsSkip(t, a);
    } else if t.phase == Granting {
      InspectSkips(t, a.inspectable);
    }
  }

  lemma InspectSkips(s: Op, readable: bool)
    requires s.phase == Granting
    ensures StepInspect(s, readable) == s
  {
  }

  // ---------- what one call records ----------

  /** The errors of IntegrateExactTarget and what the receipt then says. */
  ghost function ErrorRecorded(e: EffectError): (r: (ReceiptState, Code))
  {
    if e == ContextEnded then (ReceiptCanceled, IntegrationCanceled)
    else if e == OutcomeLost then (ReceiptUnknown, TargetOutcomeUnknown)
    else (ReceiptFailed, if e == Moved then TargetMoved else if e == CheckedOut then TargetCheckedOut
                         else if e == NotFastForward then NonFastForward else LocalEffectFailed)
  }

  /** The call gets as far as IntegrateExactTarget: with an intent on a readable branch still at the expected
      commit, or without one after its grant was checked and its intent became durable; and the grant still holds. */
  ghost predicate ReachesGit(s: Op, a: Answers)
  {
    && a.source && a.grantAgain
    && if s.dir.Live().intent.Some? then a.inspectable && s.target == s.admission.expected
        && s.target != s.admission.candidate
       else a.grant && a.intentWrite == Durable
  }

  /** ... and as far as update-ref: no early error, the branch at the expected commit, no later error, and a
      candidate that descends from it. */
  ghost predicate ReachesUpdate(s: Op, a: Answers)
  {
    && ReachesGit(s, a) && a.early.None? && a.readable && s.target == s.admission.expected && a.failure.None?
    && s.admission.expected.id in s.admission.candidate.ancestors
    && s.admission.expected.ancestors <= s.admission.candidate.ancestors
  }

  /** What the receipt of an uninterrupted call says. */
  ghost predicate Records(s: Op, a: Answers, state: ReceiptState, code: Code)
  {
    if s.dir.Live().intent.Some? && (!a.source || !a.inspectable) then state == ReceiptUnknown
        && code == RecoveryUnavailable
    else if s.dir.Live().intent.Some? && s.target == s.admission.candidate then state == Succeeded && code == NoCode
    else if s.dir.Live().intent.Some? && s.target != s.admission.expected then
      state == ReceiptUnknown && code == TargetOutcomeUnknown
    else if !ReachesGit(s, a) then state == ReceiptFailed && code == AuthorityUnavailable
    else if ReachesUpdate(s, a) then
      (if a.applies || a.reports then
         (if (if a.reports then a.confirmable else a.examinable) then state == Succeeded && code == NoCode
          else state == ReceiptUnknown && code == TargetOutcomeUnknown)
       else if a.examinable then (state, code) == ErrorRecorded(a.updateError)
       else state == ReceiptUnknown && code == TargetOutcomeUnknown)
    else if a.early.Some? then (state, code) == ErrorRecorded(a.early.value)
    else if !a.readable || s.target != s.admission.expected then state == ReceiptFailed && code == TargetMoved
    else if a.failure.Some? then (state, code) == ErrorRecorded(a.failure.value)
    else state == ReceiptFailed && code == NonFastForward
  }

  /** The collaborators never report an outcome of their own invention: only the update itself can be lost. */
  predicate Plausible(a: Answers)
  {
    a.updateError != OutcomeLost && a.early != Some(OutcomeLost) && a.failure != Some(OutcomeLost)
  }

  ghost predicate WritesReceipt(s: Op, a: Answers)
  {
    s.dir.Live().receipt.None? && (s.dir.Live().intent.Some? || !a.source || !a.grant || a.intentWrite == Durable)
  }

  /** Git's steps leave the journal and the transport alone. */
  lemma EffectsKeep(s: Op, a: Answers)
    ensures var t := Effects(s, a); t.dir == s.dir && t.retained == s.retained && t.admission == s.admission
  {
    hide StepCheck, StepUpdateRef, StepConfirm, StepExamine;
    var s1 := StepOp(s, Grant(a.grantAgain));
    var s2 := StepOp(s1, Check(a.early, a.readable, a.failure));
    var s3 := StepOp(s2, UpdateRef(a.applies, a.reports));
    var s4 := StepOp(s3, Confirm(a.confirmable));
    KeepStep(s, Grant(a.grantAgain));
    KeepStep(s1, Check(a.early, a.readable, a.failure));
    KeepStep(s2, UpdateRef(a.applies, a.reports));
    KeepStep(s3, Confirm(a.confirmable));
    KeepStep(s4, Examine(a.examinable, a.updateError));
  }

  lemma KeepStep(s: Op, e: Event)
    requires e.Grant? || e.Check? || e.UpdateRef? || e.Confirm? || e.Examine?
    ensures StepOp(s, e).dir == s.dir && StepOp(s, e).retained == s.retained && StepOp(s, e).admission == s.admission
  {
    hide Before, Classify;
  }

  lemma ClassifyIs(e: EffectError)
    ensures Classify(e) == ErrorRecorded(e)
  {
  }

  /** How the effects of a call that got to Git end. */
  lemma EffectsConclude(s: Op, a: Answers)
    requires s.phase == Granting && Plausible(a) && a.grantAgain && WellFormed(s.admission.candidate)
    ensures var t := Effects(s, a);
      var checked := && a.early.None? && a.readable && s.target == s.admission.expected && a.failure.None?
                     && s.admission.expected.id in s.admission.candidate.ancestors
                     && s.admission.expected.ancestors <= s.admission.candidate.ancestors;
      var moved := checked && (a.applies || a.reports);
      && t.target == (if moved then s.admission.candidate else s.target)
      && t.phase ==
         if moved then
           (if (if a.reports then a.confirmable else a.examinable) then Concluding(Succeeded, NoCode)
            else Concluding(ReceiptUnknown, TargetOutcomeUnknown))
         else if checked then
           (if a.examinable then Concluding(ErrorRecorded(a.updateError).0, ErrorRecorded(a.updateError).1)
            else Concluding(ReceiptUnknown, TargetOutcomeUnknown))
         else if a.early.Some? then Concluding(ErrorRecorded(a.early.value).0, ErrorRecorded(a.early.value).1)
         else if !a.readable || s.target != s.admission.expected then Concluding(ReceiptFailed, TargetMoved)
         else if a.failure.Some? then Concluding(ErrorRecorded(a.failure.value).0, ErrorRecorded(a.failure.value).1)
         else Concluding(ReceiptFailed, NonFastForward)
  {
    hide StepCheck, AfterChecks, ErrorRecorded;
    var c := s.(phase := Checking);
    assert StepOp(s, Grant(true)) == c;
    ChecksConclude(c, a);
    var d := StepCheck(c, a.early, a.readable, a.failure);
    if d.phase == Updating {
      UpdateConcludes(d, a);
    } else {
      AfterChecksSkip(d, a);
    }
  }

  lemma ChecksConclude(s: Op, a: Answers)
    requires s.phase == Checking && Plausible(a)
    ensures StepCheck(s, a.early, a.readable, a.failure) ==
      s.(phase :=
           if a.early.Some? then Concluding(ErrorRecorded(a.early.value).0, ErrorRecorded(a.early.value).1)
           else if !a.readable || s.target != s.admission.expected then Concluding(ReceiptFailed, TargetMoved)
           else if a.failure.Some? then Concluding(ErrorRecorded(a.failure.value).0, ErrorRecorded(a.failure.value).1)
           else if && s.admission.expected.id in s.admission.candidate.ancestors
                   && s.admission.expected.ancestors <= s.admission.candidate.ancestors
           then Updating else Concluding(ReceiptFailed, NonFastForward))
  {
    if a.early.Some? { ClassifyIs(a.early.value); }
    if a.failure.Some? { ClassifyIs(a.failure.value); }
    hide Classify, ErrorRecorded;
  }

  lemma UpdateConcludes(s: Op, a: Answers)
    requires s.phase == Updating && Plausible(a) && WellFormed(s.admission.candidate)
      && s.target == s.admission.expected
    requires s.admission.expected.id in s.admission.candidate.ancestors
    ensures var t := AfterChecks(s, a); var moved := a.applies || a.reports;
      && t.target == (if moved then s.admission.candidate else s.target)
      && t.phase ==
         if moved then
           (if (if a.reports then a.confirmable else a.examinable) then Concluding(Succeeded, NoCode)
            else Concluding(ReceiptUnknown, TargetOutcomeUnknown))
         else if a.examinable then Concluding(ErrorRecorded(a.updateError).0, ErrorRecorded(a.updateError).1)
         else Concluding(ReceiptUnknown, TargetOutcomeUnknown)
  {
    ClassifyIs(a.updateError);
    hide Classify, ErrorRecorded;
  }

  lemma ConcludeIs(s: Op, a: Answers, state: ReceiptState, code: Code)
    requires s.phase == Concluding(state, code)
    ensures var t := StepConclude(s, a.now, a.receiptWrite, a.transport); var r := Receipt(state, code, a.now);
      && t.dir == s.dir.Write(s.dir.Live().(receipt := Some(r)), a.receiptWrite) && t.target == s.target
      && t.retained == s.retained + if a.receiptWrite == Durable && a.transport then [r] else []
  {
  }

  /** One uninterrupted Execute, without a receipt to replay: its receipt says exactly what Records allows, it is
      retained exactly when its write was durable and the transport took it, and the branch is moved exactly when
      update-ref was reached and took effect. */
  lemma AttemptRecords(s: Op, a: Answers)
    requires s.phase == Idle && Plausible(a) && WellFormed(s.admission.candidate) && WritesReceipt(s, a)
    ensures exists state, code :: AttemptEnds(s, a, state, code)
  {
    var j := s.dir.Live();
    AttemptBranches(s, a);
    hide Attempt, Effects;
    if j.intent.Some? && (!a.source || !a.inspectable || s.target == s.admission.candidate
        || s.target != s.admission.expected) {
      AttemptWithoutGit(s, a);
    } else if j.intent.None? && (!a.source || !a.grant) {
      ConcludeIs(s.(phase := Concluding(ReceiptFailed, AuthorityUnavailable)), a, ReceiptFailed, AuthorityUnavailable);
      assert AttemptEnds(s, a, ReceiptFailed, AuthorityUnavailable);
    } else {
      var t := if j.intent.Some? then s.(phase := Granting)
               else s.(dir := s.dir.Write(j.(intent := Some(s.admission)), Durable), phase := Granting);
      AttemptWithGit(s, a, t);
    }
  }

  /** The call ends with this receipt. */
  ghost predicate AttemptEnds(s: Op, a: Answers, state: ReceiptState, code: Code)
  {
    var t := Attempt(s, a); var j := s.dir.Live(); var r := Receipt(state, code, a.now);
    var before := if j.intent.None? && a.source && a.grant then s.dir.Write(j.(intent := Some(s.admission)), Durable)
        else s.dir;
    && Records(s, a, state, code)
    && t.dir == before.Write(before.Live().(receipt := Some(r)), a.receiptWrite)
    && t.retained == s.retained + (if a.receiptWrite == Durable && a.transport then [r] else [])
    && t.target == if ReachesUpdate(s, a) && (a.applies || a.reports) then s.admission.candidate else s.target
  }

  lemma AttemptWithoutGit(s: Op, a: Answers)
    requires s.phase == Idle && AttemptIs(s, a) && s.dir.Live().receipt.None? && s.dir.Live().intent.Some?
    requires !a.source || !a.inspectable || s.target == s.admission.candidate || s.target != s.admission.expected
    ensures exists state, code :: AttemptEnds(s, a, state, code)
  {
    hide Attempt, Effects;
    var u := if a.source then StepInspect(s.(phase := Inspecting), a.inspectable)
             else s.(phase := Concluding(ReceiptUnknown, RecoveryUnavailable));
    EffectsSkip(u, a);
    ConcludeIs(u, a, u.phase.state, u.phase.code);
    assert AttemptEnds(s, a, u.phase.state, u.phase.code);
  }

  lemma AttemptWithGit(s: Op, a: Answers, t: Op)
    requires s.phase == Idle && Plausible(a) && WellFormed(s.admission.candidate) && s.dir.Live().receipt.None?
    requires a.source && t.phase == Granting && t.target == s.target && t.admission == s.admission
      && t.retained == s.retained
    requires if s.dir.Live().intent.Some? then
               a.inspectable && s.target == s.admission.expected && s.target != s.admission.candidate && t.dir == s.dir
             else
               && a.grant && a.intentWrite == Durable
               && t.dir == s.dir.Write(s.dir.Live().(intent := Some(s.admission)), Durable)
    requires Attempt(s, a) == StepConclude(Effects(t, a), a.now, a.receiptWrite, a.transport)
    ensures exists state, code :: AttemptEnds(s, a, state, code)
  {
    hide Attempt, Effects, StepConclude;
    EffectsKeep(t, a);
    if a.grantAgain {
      EffectsConclude(t, a);
    } else {
      EffectsDenied(t, a);
    }
    var u := Effects(t, a);
    ConcludeIs(u, a, u.phase.state, u.phase.code);
    hide ErrorRecorded;
    assert AttemptEnds(s, a, u.phase.state, u.phase.code);
  }

  /** A call that records nothing replays the receipt, or fails to make its intent durable. */
  lemma AttemptReplays(s: Op, a: Answers)
    requires s.phase == Idle
    ensures var t := Attempt(s, a); var j := s.dir.Live();
      && (j.receipt.Some? ==> t == s.(retained := s.retained + [j.receipt.value]))
      && (j.receipt.None? && !WritesReceipt(s, a) ==>
            t == s.(dir := s.dir.Write(j.(intent := Some(s.admission)), a.intentWrite)))
  {
    AttemptBranches(s, a);
    hide Attempt, Effects, StepConclude, StepInspect;
  }

  /** After a crash: an uninterrupted call that finds an intent and no receipt records success exactly when the
      branch is at the candidate already, or it moves it and sees that; and an unknown outcome exactly when there is
      no source, the branch cannot be read, it is somewhere else, or the update's result could not be confirmed. */
  lemma RecoveryRecords(s: Op, a: Answers, state: ReceiptState, code: Code)
    requires Plausible(a) && s.dir.Live().intent.Some? && Records(s, a, state, code)
    ensures state == Succeeded <==>
      && a.source && a.inspectable
      && (|| s.target == s.admission.candidate
          || (ReachesUpdate(s, a) && (if a.reports then a.confirmable else a.applies && a.examinable)))
    ensures state == ReceiptUnknown <==>
      || !a.source || !a.inspectable
      || (s.target != s.admission.candidate && s.target != s.admission.expected)
      || (s.target != s.admission.candidate && ReachesUpdate(s, a)
          && !(if a.reports then a.confirmable else a.examinable))
  {
  }

  /** A fresh operation records success exactly when it moves the branch and sees that. */
  lemma FreshRecords(s: Op, a: Answers, state: ReceiptState, code: Code)
    requires Plausible(a) && s.dir.Live().intent.None? && Records(s, a, state, code)
    ensures state == Succeeded <==> ReachesUpdate(s, a) && if a.reports then a.confirmable
      else a.applies && a.examinable
    ensures state == ReceiptUnknown <==> ReachesUpdate(s, a) && !(if a.reports then a.confirmable else a.examinable)
  {
  }

  class GovernedIntegrationCoordinator {
    const admission: Admission
    var journal: Dir<JournalFiles>
    var target: Commit
    var retained: seq<Receipt>

    /** The protocol state `s`, between calls or at the given phase, has this journal, branch and transport log. */
    predicate Shows(s: Op, phase: Phase)
      reads this
    {
      s.admission == admission && s.dir == journal && s.target == target && s.retained == retained && s.phase == phase
    }

    constructor (a: Admission, current: Commit)
      ensures admission == a && Shows(InitOp(a, current), Idle)
    {
      admission, journal, target, retained := a, Dir(JournalFiles(None, None), []), current, [];
    }

    /** Write the receipt, then hand it over. */
    method RetainTerminal(state: ReceiptState, code: Code, a: Answers)
      modifies this`journal, this`retained
      ensures forall s :: old(Shows(s, Concluding(state, code))) ==>
        Shows(StepConclude(s, a.now, a.receiptWrite, a.transport), Idle)
    {
      var receipt := Receipt(state, code, a.now);
      journal := journal.Write(journal.Live().(receipt := Some(receipt)), a.receiptWrite);
      if a.receiptWrite == Durable && a.transport {
        retained := retained + [receipt];
      }
    }

    /** The only method that moves the branch; no error means the branch was seen at the candidate. */
    method IntegrateExactTarget(a: Answers) returns (err: Option<EffectError>)
      requires Plausible(a)
      modifies this`target
      ensures forall s :: old(Shows(s, Checking)) ==>
        Shows(AfterChecks(StepCheck(s, a.early, a.readable, a.failure), a),
              if err.None? then Concluding(Succeeded, NoCode)
                  else Concluding(Classify(err.value).0, Classify(err.value).1))
      ensures target != old(target) ==>
        old(target) == admission.expected && target == admission.candidate
            && Before(admission.expected, admission.candidate)
    {
      hide AfterChecks, Before;
      forall s | Shows(s, Checking) && StepCheck(s, a.early, a.readable, a.failure).phase.Concluding?
        ensures AfterChecks(StepCheck(s, a.early, a.readable, a.failure), a) ==
          StepCheck(s, a.early, a.readable, a.failure)
      {
        AfterChecksSkip(StepCheck(s, a.early, a.readable, a.failure), a);
      }
      if a.early.Some? {
        return a.early;
      }
      if !a.readable || target != admission.expected {
        return Some(Moved);
      }
      if a.failure.Some? {
        return a.failure;
      }
      if !Before(admission.expected, admission.candidate) {
        return Some(NotFastForward);
      }
      err := UpdateExactRef(a);
    }

    /** update-ref with the expected old value, then a look at what happened. */
    method UpdateExactRef(a: Answers) returns (err: Option<EffectError>)
      requires a.updateError != OutcomeLost && target == admission.expected
      modifies this`target
      ensures forall s :: old(Shows(s, Updating)) ==>
        Shows(AfterChecks(s, a),
              if err.None? then Concluding(Succeeded, NoCode)
                  else Concluding(Classify(err.value).0, Classify(err.value).1))
      ensures target == old(target) || target == admission.candidate
    {
      if a.applies || a.reports {
        target := admission.candidate;
      }
      if a.reports {
        return if a.confirmable && target == admission.candidate then None else Some(OutcomeLost);
      }
      if a.examinable && target == admission.candidate {
        return None;
      }
      if a.examinable && target == admission.expected {
        return Some(a.updateError);
      }
      return if a.examinable then Some(Moved) else Some(OutcomeLost);
    }

    method ExecuteCAS(a: Answers)
      requires Plausible(a)
      modifies this`journal, this`retained, this`target
      ensures forall s :: old(Shows(s, Granting)) ==>
        Shows(StepConclude(Effects(s, a), a.now, a.receiptWrite, a.transport), Idle)
    {
      hide StepCheck, AfterChecks;
      if !a.grantAgain {
        forall s | Shows(s, Granting) ensures Effects(s, a) ==
            s.(phase := Concluding(ReceiptFailed, AuthorityUnavailable)) {
          EffectsDenied(s, a);
        }
        RetainTerminal(ReceiptFailed, AuthorityUnavailable, a);
        return;
      }
      var err := IntegrateExactTarget(a);
      if err.None? {
        RetainTerminal(Succeeded, NoCode, a);
      } else {
        RetainTerminal(Classify(err.value).0, Classify(err.value).1, a);
      }
    }

    method RecoverOrExecute(a: Answers)
      requires Plausible(a)
      modifies this`journal, this`retained, this`target
      ensures a.source ==> forall s :: old(Shows(s, Inspecting)) ==>
        Shows(StepConclude(Effects(StepInspect(s, a.inspectable), a), a.now, a.receiptWrite, a.transport), Idle)
      ensures !a.source ==> forall s :: old(Shows(s, Concluding(ReceiptUnknown, RecoveryUnavailable))) ==>
        Shows(StepConclude(s, a.now, a.receiptWrite, a.transport), Idle)
    {
      hide Effects;
      if !a.source {
        RetainTerminal(ReceiptUnknown, RecoveryUnavailable, a);
        return;
      }
      forall s | Shows(s, Inspecting) && StepInspect(s, a.inspectable).phase.Concluding?
        ensures Effects(StepInspect(s, a.inspectable), a) == StepInspect(s, a.inspectable)
      {
        EffectsSkip(StepInspect(s, a.inspectable), a);
      }
      if !a.inspectable {
        RetainTerminal(ReceiptUnknown, RecoveryUnavailable, a);
      } else if target == admission.candidate {
        RetainTerminal(Succeeded, NoCode, a);
      } else if target != admission.expected {
        RetainTerminal(ReceiptUnknown, TargetOutcomeUnknown, a);
      } else {
        ExecuteCAS(a);
      }
    }

    /** The operation as it is between calls. */
    ghost function Here(): (s: Op)
      reads this
    {
      Op(admission, target, journal, Idle, retained, false, false)
    }

    /** Execute: a receipt is replayed and nothing else happens; an intent that cannot be made durable ends the call;
        otherwise the call records exactly what Records allows. */
    method Execute(a: Answers)
      requires Plausible(a)
      modifies this`journal, this`retained, this`target
      ensures forall s :: old(Shows(s, Idle)) ==> Shows(Attempt(s, a), Idle)
      ensures old(journal).Live().receipt.Some? ==>
        journal == old(journal) && target == old(target)
            && retained == old(retained) + [old(journal).Live().receipt.value]
      ensures old(journal).Live().receipt.None? && !WritesReceipt(old(Here()), a) ==>
        && journal == old(journal).Write(old(journal).Live().(intent := Some(admission)), a.intentWrite)
        && target == old(target) && retained == old(retained)
      ensures WellFormed(admission.candidate) && WritesReceipt(old(Here()), a) ==>
        exists state, code :: Recorded(old(Here()), a, state, code)
    {
      hide Attempt, Records, ReachesUpdate, AttemptEnds, WritesReceipt, Shows;
      ghost var was := Here();
      ShowsHere();
      AttemptReplays(was, a);
      if WellFormed(admission.candidate) && WritesReceipt(was, a) {
        AttemptRecords(was, a);
      }
      ExecuteOnce(a);
      ShownFields(Attempt(was, a));
      if WellFormed(admission.candidate) && WritesReceipt(was, a) {
        ghost var state, code :| AttemptEnds(was, a, state, code);
        EndsRecorded(was, a, state, code);
      }
    }

    lemma ShowsHere()
      ensures Shows(Here(), Idle)
    {
    }

    lemma ShownFields(s: Op)
      requires Shows(s, Idle)
      ensures s.admission == admission && s.dir == journal && s.target == target && s.retained == retained
    {
    }

    lemma EndsRecorded(was: Op, a: Answers, state: ReceiptState, code: Code)
      requires AttemptEnds(was, a, state, code) && WritesReceipt(was, a) && was.admission == admission
      requires var t := Attempt(was, a); t.dir == journal && t.target == target && t.retained == retained
      ensures Recorded(was, a, state, code)
    {
      hide Attempt, Records, ReachesUpdate;
    }

    /** From `was`, this call has recorded `state` and `code`: in the journal, to Central, and on the branch. */
    ghost predicate Recorded(was: Op, a: Answers, state: ReceiptState, code: Code)
      reads this
    {
      var r := Receipt(state, code, a.now);
      && Records(was, a, state, code)
      && (a.receiptWrite == Durable ==> journal.pending == [] && journal.durable.receipt == Some(r))
      && (a.receiptWrite == NotLinked ==> journal.Live().receipt.None?)
      && (journal.Live().intent.Some? || !a.source || !a.grant)
      && retained == was.retained + (if a.receiptWrite == Durable && a.transport then [r] else [])
      && target == if ReachesUpdate(was, a) && (a.applies || a.reports) then admission.candidate else was.target
    }

    /** Execute is exactly the protocol's uninterrupted attempt. */
    method ExecuteOnce(a: Answers)
      requires Plausible(a)
      modifies this`journal, this`retained, this`target
      ensures forall s :: old(Shows(s, Idle)) ==> Shows(Attempt(s, a), Idle)
    {
      hide Attempt, Effects, StepInspect;
      forall s | Shows(s, Idle) ensures AttemptIs(s, a) {
        AttemptBranches(s, a);
      }
      if journal.Live().receipt.Some? {
        retained := retained + [journal.Live().receipt.value];
        return;
      }
      if journal.Live().intent.Some? {
        RecoverOrExecute(a);
        return;
      }
      if !a.source || !a.grant {
        RetainTerminal(ReceiptFailed, AuthorityUnavailable, a);
        return;
      }
      journal := journal.Write(journal.Live().(intent := Some(admission)), a.intentWrite);
      if a.intentWrite == Durable {
        ExecuteCAS(a);
      }
    }
  }
}
