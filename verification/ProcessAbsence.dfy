/**
 What a successful fence proves: no process of the recorded tree exists. It does,
 as long as the lease gives up a prepared-only Run only after its tree has exited,
 which is how the Runtime uses it; one live tree given up breaks it.
 */
module ProcessAbsence {
  import opened DurableDirectory
  import opened Options
  import opened RuntimeFence
  import opened ProcessJournal

  /** The journal has a terminal record, which is what a fence answers with success on. */
  predicate Ended(f: ProcFiles)
  {
    f.finished.Some? || f.abandoned.Some?
  }

  predicate Absent(s: Proc)
  {
    !s.tree && !s.leaseFd
  }

  /** The lease gives up a prepared-only Run only after its tree has exited. */
  predicate Careful(s: Proc, m: Move)
  {
    (m.Abandon? || m.FinishBegin?) && s.lease.Held? && s.dir.Live().active.None? ==> !s.tree
  }

  predicate CarefulRun(s: Proc, moves: seq<Move>)
    decreases |moves|
  {
    moves == [] ||
    var before := moves[..|moves| - 1];
    CarefulRun(s, before) && Careful(RunProc(s, before), moves[|moves| - 1])
  }

  ghost predicate ReachableCareful(s: Proc)
  {
    exists moves :: s == RunProc(InitProc(), moves) && CarefulRun(InitProc(), moves)
  }

  /** Whoever can hold the lock is recorded, an open Run's lock file exists while it may be held, and a
      closed Run or one seen free has no process left. */
  ghost predicate AbsenceOk(s: Proc)
  {
    && (!Absent(s) ==> s.dir.Live().prepared.Some?)
    && (!Absent(s) && !Ended(s.dir.Live()) ==> s.lock)
    && (s.fences != map[] ==> s.dir.Live().prepared.Some?)
    && (forall c :: c in s.fences && s.fences[c].PreparedSeen? ==> Ended(s.dir.Live()) || Absent(s))
    && (Ended(s.dir.Live()) ==> Absent(s))
  }

  /** Writing a terminal record of an absent tree, removing the lock only after that is durable. */
  lemma CloseKeeps(s: Proc, after: ProcFiles, w: WriteOutcome, lock: bool)
    requires AbsenceOk(s) && Absent(s) && after.prepared.Some?
    ensures AbsenceOk(s.(dir := s.dir.Write(after, w), lock := lock))
  {
    WriteContents(s.dir, after, w);
  }

  lemma LeaseStates(s: Proc, lease: LeasePhase, lock: bool)
    requires AbsenceOk(s) && (Ended(s.dir.Live()) || lock == s.lock)
    ensures AbsenceOk(s.(leaseFd := false, lease := lease, lock := lock)) && AbsenceOk(s.(lease := lease))
  {
  }

  lemma PrepareAbsence(s: Proc, identity: Identity, now: nat, w: WriteOutcome, lockOk: bool, wa: WriteOutcome)
    requires ProcInv(s) && AbsenceOk(s)
    ensures AbsenceOk(StepPrepare(s, identity, now, w, lockOk, wa))
  {
    LiveOk(s.dir);
    hide JournalOk;
    if ReadProcess(s.dir.Live()) == Err(NotExist) {
      assert Absent(s) && s.fences == map[] && !Ended(s.dir.Live());
      var after := s.dir.Live().(prepared := Some(Prepared(identity, now)));
      WriteContents(s.dir, after, w);
    }
  }

  lemma StartedAbsence(s: Proc, o: nat, now: nat, w: WriteOutcome)
    requires ProcInv(s) && AbsenceOk(s)
    ensures AbsenceOk(StepStarted(s, o, now, w))
  {
    LiveOk(s.dir);
    hide JournalOk, RecordsOk;
    if s.lease.Held? {
      WriteContents(s.dir, s.dir.Live().(active := Some(Active(s.lease.prepared, o, now))), w);
    }
  }

  /** The lease abandons a prepared-only Run whose tree is gone. */
  lemma GiveUpAbsence(s: Proc, now: nat, w: WriteOutcome, removes: Removal)
    requires AbsenceOk(s) && s.lease.Held? && !s.tree && s.dir.Live().prepared.Some?
    ensures var t := AbandonPrepared(s.(leaseFd := false), s.lease.prepared, now, w, removes);
      AbsenceOk(t) && AbsenceOk(t.(lease := LeaseClosed))
  {
    LeaseStates(s, s.lease, s.lock);
    var after := s.dir.Live().(abandoned := Some(Closing(s.lease.prepared, None, now)));
    var lock := if w == Durable && removes != NotRemoved then false else s.lock;
    CloseKeeps(s.(leaseFd := false), after, w, lock);
    LeaseStates(s.(leaseFd := false, dir := s.dir.Write(after, w), lock := lock), LeaseClosed, lock);
  }

  lemma FinishBeginAbsence(s: Proc, o: nat, now: nat, w: WriteOutcome, removes: Removal)
    requires ProcInv(s) && AbsenceOk(s) && Careful(s, FinishBegin(o, now, w, removes))
    ensures AbsenceOk(StepFinishBegin(s, o, now, w, removes))
  {
    if s.lease.Held? {
      LeaseStates(s, s.lease, s.lock);
      LeaseStates(s, LeaseClosed, s.lock);
      LeaseStates(s, Finishing(s.lease.prepared, o), s.lock);
      var v := ReadProcess(s.dir.Live());
      if v.Ok? && v.value.active.None? {
        GiveUpAbsence(s, now, w, removes);
      }
    }
    hide AbsenceOk, ProcInv;
  }

  lemma AbandonAbsence(s: Proc, now: nat, w: WriteOutcome, removes: Removal)
    requires ProcInv(s) && AbsenceOk(s) && Careful(s, Abandon(now, w, removes))
    ensures AbsenceOk(StepAbandon(s, now, w, removes))
  {
    if s.lease.Held? {
      LeaseStates(s, s.lease, s.lock);
      var v := ReadProcess(s.dir.Live());
      if v.Ok? && v.value.active.None? {
        if v.value.terminal == Open {
          GiveUpAbsence(s, now, w, removes);
        } else {
          LeaseStates(s, s.lease, false);
          LeaseStates(s, LeaseClosed, false);
        }
      }
    }
    hide AbsenceOk, ProcInv;
  }

  /** Finishing, by the lease or by a fence, follows a look that found the tree absent. */
  lemma FinishActiveAbsence(s: Proc, p: Prepared, a: Active, now: nat, w: WriteOutcome, removes: Removal)
    requires AbsenceOk(s) && Absent(s) && s.dir.Live().prepared.Some?
    ensures AbsenceOk(FinishActive(s, p, a, now, w, removes))
    ensures forall lease :: AbsenceOk(FinishActive(s, p, a, now, w, removes).(lease := lease))
  {
    CloseKeeps(s, s.dir.Live().(finished := Some(Closing(p, Some(a), now))), w,
               if w == Durable && removes != NotRemoved then false else s.lock);
  }

  lemma FinishCommitAbsence(s: Proc, now: nat, w: WriteOutcome, removes: Removal)
    requires ProcInv(s) && AbsenceOk(s)
    ensures AbsenceOk(StepFinishCommit(s, now, w, removes))
  {
    hide JournalOk;
    if s.lease.FinishSeen? {
      assert Absent(s);
      var v := ReadProcess(s.dir.Live());
      LeaseStates(s, LeaseClosed, s.lock);
      LeaseStates(s, Held(s.lease.prepared), s.lock);
      if v.Ok? && v.value.active.Some? {
        FinishActiveAbsence(s, s.lease.prepared, v.value.active.value, now, w, removes);
      }
      hide AbsenceOk, ProcInv;
    }
  }

  lemma FenceGone(s: Proc, caller: nat)
    requires AbsenceOk(s)
    ensures AbsenceOk(s.(fences := s.fences - {caller}))
  {
  }

  lemma FenceCommitAbsence(s: Proc, caller: nat, now: nat, w: WriteOutcome, removes: Removal)
    requires ProcInv(s) && AbsenceOk(s)
    ensures AbsenceOk(StepFenceCommit(s, caller, now, w, removes))
  {
    hide JournalOk;
    if caller in s.fences {
      var t := s.(fences := s.fences - {caller});
      FenceGone(s, caller);
      var v := ReadProcess(s.dir.Live());
      if v.Ok? && v.value.terminal == Open {
        if s.fences[caller].PreparedSeen? {
          assert Absent(s);
          CloseKeeps(t, s.dir.Live().(abandoned := Some(Closing(v.value.prepared, None, now))), w,
                     if w == Durable && removes != NotRemoved then false else s.lock);
        } else if s.fences[caller].ActiveSeen? && v.value.active.Some? {
          assert Absent(s);
          FinishActiveAbsence(t, v.value.prepared, v.value.active.value, now, w, removes);
        }
      }
      hide AbsenceOk, ProcInv;
    }
  }

  lemma SmallAbsence(s: Proc, m: Move)
    requires ProcInv(s) && AbsenceOk(s)
    requires m.Spawn? || m.TreeExits? || m.CloseLockFile? || m.FinishSee? || m.FinishFail? || m.Restart? || m.PowerLost?
    ensures AbsenceOk(StepProc(s, m))
  {
    hide JournalOk, RecordsOk;
  }

  lemma FenceMoveAbsence(s: Proc, m: Move)
    requires ProcInv(s) && AbsenceOk(s) && (m.FenceBegin? || m.FenceSee? || m.FenceFail?)
    ensures AbsenceOk(StepProc(s, m))
  {
    hide JournalOk, RecordsOk;
  }

  lemma StepAbsence(s: Proc, m: Move)
    requires ProcInv(s) && AbsenceOk(s) && Careful(s, m)
    ensures AbsenceOk(StepProc(s, m))
  {
    hide ProcInv, AbsenceOk, Careful;
    match m {
      case Prepare(identity, now, w, lockOk, wa) => PrepareAbsence(s, identity, now, w, lockOk, wa);
      case Started(o, now, w) => StartedAbsence(s, o, now, w);
      case FinishBegin(o, now, w, removes) => FinishBeginAbsence(s, o, now, w, removes);
      case FinishCommit(now, w, removes) => FinishCommitAbsence(s, now, w, removes);
      case Abandon(now, w, removes) => AbandonAbsence(s, now, w, removes);
      case FenceCommit(caller, now, w, removes) => FenceCommitAbsence(s, caller, now, w, removes);
      case FenceBegin(_, _) => FenceMoveAbsence(s, m);
      case FenceSee(_) => FenceMoveAbsence(s, m);
      case FenceFail(_) => FenceMoveAbsence(s, m);
      case _ => SmallAbsence(s, m);
    }
  }

  lemma {:induction false} RunAbsence(s: Proc, moves: seq<Move>)
    requires ProcInv(s) && AbsenceOk(s) && CarefulRun(s, moves)
    ensures AbsenceOk(RunProc(s, moves))
    decreases |moves|
  {
    hide ProcInv, AbsenceOk, StepProc, Careful;
    if moves != [] {
      var before := moves[..|moves| - 1];
      RunAbsence(s, before);
      RunProcKeeps(s, before);
      StepAbsence(RunProc(s, before), moves[|moves| - 1]);
    }
  }

  // ---------- main results ----------

  /** When a fence answers with success, because the journal is closed or after closing it, no process of
      the recorded tree exists and none can be spawned. */
  lemma FencedMeansAbsent(s: Proc)
    requires ReachableCareful(s) && Ended(s.dir.Live())
    ensures !s.tree && StepProc(s, Spawn) == s
  {
    var moves :| s == RunProc(InitProc(), moves) && CarefulRun(InitProc(), moves);
    RunAbsence(InitProc(), moves);
  }

  /** A lease that gives up a prepared-only Run, by Abandon or by Finished, closes the journal and leaves a
      tree exactly when there was one: the condition cannot be dropped. */
  lemma GivingUpKeepsTree(s: Proc, m: Move)
    requires ReachableProc(s) && s.lease.Held? && s.dir.Live().active.None?
    requires (m.Abandon? || m.FinishBegin?) && m.w != NotLinked
    requires var v := ReadProcess(s.dir.Live());
      v.Ok? && v.value.prepared == s.lease.prepared && v.value.terminal == Open
    ensures Ended(StepProc(s, m).dir.Live()) && (StepProc(s, m).tree <==> s.tree)
  {
    hide ReadProcess;
    WriteContents(s.dir, s.dir.Live().(abandoned := Some(Closing(s.lease.prepared, None, m.now))), m.w);
    ReadActive(s.dir.Live());
  }

  lemma ReadActive(f: ProcFiles)
    requires ReadProcess(f).Ok?
    ensures ReadProcess(f).value.active == f.active
  {
  }

  lemma RunProcMore(s: Proc, moves: seq<Move>, m: Move)
    ensures RunProc(s, moves + [m]) == StepProc(RunProc(s, moves), m)
    ensures CarefulRun(s, moves + [m]) <==> CarefulRun(s, moves) && Careful(RunProc(s, moves), m)
  {
    hide StepProc, Careful;
    assert (moves + [m])[..|moves|] == moves;
  }

  lemma ReachableProcStep(s: Proc, m: Move)
    requires ReachableProc(s)
    ensures ReachableProc(StepProc(s, m))
    ensures ReachableCareful(s) && Careful(s, m) ==> ReachableCareful(StepProc(s, m))
  {
    hide StepProc, Careful, InitProc;
    var moves :| s == RunProc(InitProc(), moves);
    RunProcMore(InitProc(), moves, m);
    if ReachableCareful(s) && Careful(s, m) {
      var more :| s == RunProc(InitProc(), more) && CarefulRun(InitProc(), more);
      RunProcMore(InitProc(), more, m);
    }
  }

  lemma FirstReachable()
    ensures ReachableProc(InitProc()) && ReachableCareful(InitProc())
  {
    assert RunProc(InitProc(), []) == InitProc() && CarefulRun(InitProc(), []);
  }

  /** Giving up a live tree: a closed journal, on which a fence answers at once, with the tree alive. */
  lemma LiveTreeCanBeClosed(id: Identity)
    ensures exists s :: ReachableProc(s) && s.tree && s.dir.durable.abandoned.Some?
  {
    var p := Prepared(id, 5);
    var f := NO_RECORDS.(prepared := Some(p));
    var s1 := Proc(Dir(f, []), true, true, false, Held(p), map[]);
    var s2 := s1.(tree := true);
    var m1, m3 := Prepare(id, 5, Durable, true, Durable), Abandon(6, Durable, Removed);
    assert ReadProcess(NO_RECORDS) == Err(NotExist);
    assert StepProc(InitProc(), m1) == s1;
    assert StepProc(s1, Spawn) == s2;
    assert ReadProcess(f) == Ok(ProcView(p, None, Open));
    var s3 := StepProc(s2, m3);
    assert s3.tree && s3.dir.durable.abandoned.Some?;
    hide StepProc, ReachableProc, ReachableCareful;
    FirstReachable();
    ReachableProcStep(InitProc(), m1);
    ReachableProcStep(s1, Spawn);
    ReachableProcStep(s2, m3);
  }
}
