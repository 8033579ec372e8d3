/**
 The process store object with the lease of one Run. Its methods are the critical
 sections of the store mutex; `model` is the state of the process journal that goes
 with its fields, so what holds of every reachable journal holds of the object, in
 particular that a finished or fenced Run has no process left.
 */
module ProcessStore {
  import opened DurableDirectory
  import opened Options
  import opened RuntimeFence
  import opened ProcessJournal
  import opened ProcessAbsence
  import opened ProcessFencing
  import opened ProcessAnswers

  /** How FenceAndWait's first section ends: it is done, it fails, or it waits outside the mutex. */
  datatype FenceReply = Answered | Rejected | Waits(phase: FencePhase)

  class GovernedProcessStore {
    var dir: Dir<ProcFiles>
    var lock: bool
    var lockFile: bool
    var lease: LeasePhase
    ghost var model: Proc
    /** The lease gave up prepared-only Runs only after their tree had exited. */
    ghost var careful: bool

    /** The journal state `s` has the store's own data. */
    predicate Shows(s: Proc)
      reads this`dir, this`lock, this`lockFile, this`lease
    {
      s.dir == dir && s.lock == lock && s.leaseFd == lockFile && s.lease == lease
    }

    ghost predicate Valid()
      reads this
    {
      ReachableProc(model) && (careful ==> ReachableCareful(model)) && Shows(model)
    }

    /** A new, empty journal. */
    constructor ()
      ensures Valid() && model == InitProc() && careful
    {
      dir, lock, lockFile, lease := Dir(NO_RECORDS, []), false, false, NoLease;
      model, careful := InitProc(), true;
      FirstReachable();
    }

    /** The journal that an earlier process left behind, which may have ended at any point. */
    constructor Reopen(found: Dir<ProcFiles>, lockExists: bool, ghost left: Proc)
      requires ReachableProc(left) && left.dir == found && left.lock == lockExists
      ensures Valid() && model == StepProc(left, Restart) && (ReachableCareful(left) ==> careful)
    {
      dir, lock, lockFile, lease := found, lockExists, false, NoLease;
      model, careful := StepProc(left, Restart), ReachableCareful(left);
      ReachableProcStep(left, Restart);
    }

    /** The journal takes the step `m`. */
    ghost method Take(m: Move)
      requires ReachableProc(model) && (careful ==> ReachableCareful(model))
      modifies this`model, this`careful
      ensures ReachableProc(model) && (careful ==> ReachableCareful(model))
      ensures model == StepProc(old(model), m) && careful == (old(careful) && Careful(old(model), m))
    {
      ReachableProcStep(model, m);
      careful := careful && Careful(model, m);
      model := StepProc(model, m);
    }

    // ---------- what every sequence of calls keeps ----------

    /** A finished Run has no process, and a Run with any terminal record has none if the lease was
        careful. */
    lemma ClosedMeansAbsent()
      requires Valid()
      ensures dir.Live().finished.Some? ==> !model.tree
      ensures careful && Ended(dir.Live()) ==> !model.tree && StepProc(model, Spawn) == model
    {
      ReachableProcInv(model);
      hide StepProc, ReachableCareful;
      if careful && Ended(dir.Live()) {
        FencedMeansAbsent(model);
      }
    }

    /** RequireFinished: only for the exact, active Run whose tree is gone for good. */
    method RequireFinishedRun(identity: Identity) returns (ok: bool)
      requires Valid()
      ensures var f := dir.Live();
        ok <==> && f.prepared.Some? && f.prepared.value.identity == identity && Intact(f, f.prepared.value)
                && f.active.Some? && f.finished.Some? && !lock
      ensures ok <==> RequireFinished(model, identity)
      ensures ok ==> !model.tree && StepProc(model, Spawn) == model && dir.Live().active.Some?
    {
      ReadHere(model);
      ReadIs(dir.Live());
      var view := ReadProcess(dir.Live());
      ok := view.Ok? && view.value.prepared.identity == identity && view.value.terminal == Finished
            && view.value.active.Some? && !lock;
      if ok {
        FinishedMeansAbsent(model, identity);
      }
    }

    // ---------- parts of sections ----------

    method AbandonPreparedLocked(p: Prepared, now: nat, w: WriteOutcome) returns (ok: bool)
      modifies this`dir
      ensures ok <==> w == Durable
      ensures dir == old(dir).Write(old(dir).Live().(abandoned := Some(Closing(p, None, now))), w)
    {
      dir := dir.Write(dir.Live().(abandoned := Some(Closing(p, None, now))), w);
      ok := w == Durable;
    }

    method RemoveLockLocked(removes: Removal) returns (ok: bool)
      modifies this`lock
      ensures ok <==> removes == Removed
      ensures lock == (old(lock) && removes == NotRemoved)
    {
      if removes != NotRemoved {
        lock := false;
      }
      ok := removes == Removed;
    }

    method FinishActiveLocked(p: Prepared, a: Active, now: nat, w: WriteOutcome, removes: Removal) returns (ok: bool)
      modifies this`dir, this`lock
      ensures ok <==> w == Durable && removes == Removed
      ensures dir == old(dir).Write(old(dir).Live().(finished := Some(Closing(p, Some(a), now))), w)
      ensures lock == (old(lock) && !(w == Durable && removes != NotRemoved))
    {
      dir := dir.Write(dir.Live().(finished := Some(Closing(p, Some(a), now))), w);
      ok := w == Durable;
      if ok {
        ok := RemoveLockLocked(removes);
      }
    }

    // ---------- the sections ----------

    /** On success the prepared record is new and durable and the caller holds the process lock. */
    method PrepareProcess(identity: Identity, now: nat, w: WriteOutcome, lockOk: bool, wAbandon: WriteOutcome)
      returns (ok: bool)
      requires Valid()
      modifies this
      ensures Valid() && model == StepProc(old(model), Prepare(identity, now, w, lockOk, wAbandon))
      ensures ok <==> old(dir).Live().prepared.None? && w == Durable && lockOk
      ensures ok ==> dir.durable.prepared == Some(Prepared(identity, now)) && lock && lockFile
      ensures old(dir).Live().prepared.None? && w == Durable && !lockOk ==>
        !lock && dir == Dir(old(dir).Live().(prepared := Some(Prepared(identity, now))), [])
                        .Write(AbandonedFiles(old(dir).Live().(prepared := Some(Prepared(identity, now))),
                                              Prepared(identity, now), now), wAbandon)
    {
      PrepareAnswer(model, identity, now, w, lockOk, wAbandon);
      hide ReachableProc, ReachableCareful;
      ok := false;
      if ReadProcess(dir.Live()) == Err(NotExist) {
        var record := Prepared(identity, now);
        dir := dir.Write(dir.Live().(prepared := Some(record)), w);
        if w == Durable {
          if lockOk {
            lock, lockFile, lease := true, true, Held(record);
            ok := true;
          } else {
            lock := false;
            var _ := AbandonPreparedLocked(record, now, wAbandon);
          }
        }
      }
      Take(Prepare(identity, now, w, lockOk, wAbandon));
    }

    /** Started, up to the return of startLease. */
    method StartLease(observation: nat, now: nat, w: WriteOutcome) returns (ok: bool)
      requires Valid() && (lease.Held? || lease.LeaseClosed?)
      modifies this
      ensures Valid() && model == StepProc(old(model), Started(observation, now, w))
      ensures var f := old(dir).Live();
        ok <==> && old(lease).Held? && w == Durable
                && Intact(f, old(lease).prepared) && f.active.None? && !HasTerminal(f)
      ensures ok ==> dir.durable.active == Some(Active(old(lease).prepared, observation, now))
    {
      if lease.Held? {
        StartedAnswer(model, observation, now, w);
        ReadHere(model);
        ReadIs(dir.Live());
      }
      hide ReachableProc, ReachableCareful;
      ok := false;
      if lease.Held? {
        var view := ReadProcess(dir.Live());
        var record := lease.prepared;
        lease := Recorded(record);
        if view.Ok? && view.value.prepared == record && view.value.active.None? && view.value.terminal == Open {
          dir := dir.Write(dir.Live().(active := Some(Active(record, observation, now))), w);
          ok := w == Durable;
        }
      }
      Take(Started(observation, now, w));
    }

    /** Started's last step: the Bridge gives up its own handle, the tree keeps the inherited one. */
    method CloseLockFileAfterStart()
      requires Valid() && lease.Recorded?
      modifies this
      ensures Valid() && model == StepProc(old(model), CloseLockFile) && !lockFile
    {
      hide ReachableProc, ReachableCareful;
      lockFile := false;
      lease := Held(lease.prepared);
      Take(CloseLockFile);
    }

    /** Finished up to the release of the store mutex. `fence` says that the caller now waits for absence. */
    method FinishLeaseBegin(observation: nat, now: nat, w: WriteOutcome, removes: Removal)
        returns (ok: bool, fence: bool)
      requires Valid() && lease.Held?
      modifies this
      ensures Valid() && model == StepProc(old(model), FinishBegin(observation, now, w, removes))
      ensures var f, p := old(dir).Live(), old(lease).prepared;
        && (ok <==> Intact(f, p) && (HasTerminal(f) || (f.active.None? && w == Durable && removes == Removed)))
        && (fence <==> Intact(f, p) && !HasTerminal(f) && f.active.Some? && f.active.value.observation == observation)
        && dir == (if Intact(f, p) && !HasTerminal(f) && f.active.None? then
            old(dir).Write(AbandonedFiles(f, p, now), w)
                   else old(dir))
        && !lockFile
      ensures fence <==> lease.Finishing?
      ensures ok <==> lease.LeaseClosed?
    {
      FinishBeginAnswer(model, observation, now, w, removes);
      hide ReachableProc, ReachableCareful, StepFinishBegin;
      ok, fence := GiveUpOrFence(observation, now, w, removes);
      Take(FinishBegin(observation, now, w, removes));
    }

    method GiveUpOrFence(observation: nat, now: nat, w: WriteOutcome, removes: Removal) returns (ok: bool, fence: bool)
      requires lease.Held?
      modifies this`dir, this`lock, this`lockFile, this`lease
      ensures forall s :: old(Shows(s)) ==> Shows(StepFinishBegin(s, observation, now, w, removes))
      ensures fence <==> lease.Finishing?
      ensures ok <==> lease.LeaseClosed?
    {
      lockFile := false;
      ok, fence := false, false;
      var record := lease.prepared;
      var view := ReadProcess(dir.Live());
      if view.Err? || view.value.prepared != record {
        return;
      }
      if view.value.terminal != Open {
        lease := LeaseClosed;
        return true, false;
      }
      if view.value.active.None? {
        ok := AbandonPreparedLocked(record, now, w);
        if ok {
          ok := RemoveLockLocked(removes);
        }
        if ok {
          lease := LeaseClosed;
        }
        return;
      }
      if view.value.active.value.observation == observation {
        lease := Finishing(record, observation);
        fence := true;
      }
    }

    /** The fence of Finished ended: the lock was seen free, or the fence failed. */
    method FinishFenceEnds(seen: bool)
      requires Valid() && lease.Finishing? && (seen ==> lock && LockFree(model))
      modifies this
      ensures Valid() && model == StepProc(old(model), if seen then FinishSee else FinishFail)
      ensures lease.FinishSeen? <==> seen
    {
      hide ReachableProc, ReachableCareful;
      lease := if seen then FinishSeen(lease.prepared, lease.observation) else Held(lease.prepared);
      Take(if seen then FinishSee else FinishFail);
    }

    /** Finished after the fence saw the tree absent: everything is read again. */
    method FinishLeaseCommit(now: nat, w: WriteOutcome, removes: Removal) returns (ok: bool)
      requires Valid() && lease.FinishSeen?
      modifies this
      ensures Valid() && model == StepProc(old(model), FinishCommit(now, w, removes))
      ensures var f, p := old(dir).Live(), old(lease).prepared;
        var same := Intact(f, p) && f.active.Some? && f.active.value.observation == old(lease).observation;
        && (ok <==> same && (HasTerminal(f) || (w == Durable && removes == Removed)))
        && dir == (if same && !HasTerminal(f) then old(dir).Write(FinishedFiles(f, p, now), w) else old(dir))
        && lock == (old(lock) && !(same && !HasTerminal(f) && w == Durable && removes != NotRemoved))
      ensures ok <==> lease.LeaseClosed?
      ensures ok ==> dir.Live().finished.Some? && !model.tree
    {
      FinishCommitAnswer(model, now, w, removes);
      CommitIsFinished(now, w, removes);
      hide ReachableProc, ReachableCareful, StepFinishCommit;
      ok := FinishIfSame(now, w, removes);
      Take(FinishCommit(now, w, removes));
    }

    method FinishIfSame(now: nat, w: WriteOutcome, removes: Removal) returns (ok: bool)
      requires lease.FinishSeen?
      modifies this`dir, this`lock, this`lease
      ensures forall s :: old(Shows(s)) ==> Shows(StepFinishCommit(s, now, w, removes))
      ensures ok <==> lease.LeaseClosed?
    {
      var record := lease.prepared;
      var observation := lease.observation;
      var view := ReadProcess(dir.Live());
      lease := Held(record);
      if view.Err? || view.value.prepared != record || view.value.active.None?
         || view.value.active.value.observation != observation {
        return false;
      }
      ok := true;
      if view.value.terminal == Open {
        ok := FinishActiveLocked(record, view.value.active.value, now, w, removes);
      }
      if ok {
        lease := LeaseClosed;
      }
    }

    /** A lease that this step closes has a finished record and no tree. */
    lemma CommitIsFinished(now: nat, w: WriteOutcome, removes: Removal)
      requires Valid() && lease.FinishSeen?
      ensures var t := StepProc(model, FinishCommit(now, w, removes));
        t.lease.LeaseClosed? ==> t.dir.Live().finished.Some? && !t.tree
    {
      ReachableProcInv(model);
      LiveOk(model.dir);
      hide JournalOk;
    }

    method AbandonLease(now: nat, w: WriteOutcome, removes: Removal) returns (ok: bool)
      requires Valid() && lease.Held?
      modifies this
      ensures Valid() && model == StepProc(old(model), Abandon(now, w, removes))
      ensures var f, p := old(dir).Live(), old(lease).prepared;
        var applies := Intact(f, p) && f.active.None?;
        && (ok <==> applies && (HasTerminal(f) || w == Durable) && removes == Removed)
        && dir == (if applies && !HasTerminal(f) then old(dir).Write(AbandonedFiles(f, p, now), w) else old(dir))
        && lock == (old(lock) && !(applies && (HasTerminal(f) || w == Durable) && removes != NotRemoved))
      ensures ok <==> lease.LeaseClosed?
    {
      AbandonAnswer(model, now, w, removes);
      hide ReachableProc, ReachableCareful, StepAbandon;
      ok := AbandonIfPrepared(now, w, removes);
      Take(Abandon(now, w, removes));
    }

    method AbandonIfPrepared(now: nat, w: WriteOutcome, removes: Removal) returns (ok: bool)
      requires lease.Held?
      modifies this`dir, this`lock, this`lockFile, this`lease
      ensures forall s :: old(Shows(s)) ==> Shows(StepAbandon(s, now, w, removes))
      ensures ok <==> lease.LeaseClosed?
    {
      lockFile := false;
      var record := lease.prepared;
      var view := ReadProcess(dir.Live());
      if view.Err? || view.value.prepared != record || view.value.active.Some? {
        return false;
      }
      if view.value.terminal == Open {
        ok := AbandonPreparedLocked(record, now, w);
        if !ok {
          return;
        }
      }
      ok := RemoveLockLocked(removes);
      if ok {
        lease := LeaseClosed;
      }
    }

    /** FenceAndWait's first section. An immediate answer means that no process is left. */
    method FenceStarts(caller: nat, identity: Identity) returns (reply: FenceReply)
      requires Valid() && caller !in model.fences
      modifies this`model, this`careful
      ensures Valid() && model == StepProc(old(model), FenceBegin(caller, identity))
      ensures var f := dir.Live();
        var mine := f.prepared.Some? && f.prepared.value.identity == identity && Intact(f, f.prepared.value);
        reply ==
          if !mine then Rejected else if HasTerminal(f) then Answered
          else if f.active.None? then Waits(PreparedWait(identity))
          else Waits(ActiveWait(identity, f.active.value.observation))
      ensures reply.Waits? <==> caller in model.fences
      ensures reply.Waits? ==> model.fences[caller] == reply.phase
      ensures reply.Answered? <==> Succeeds(old(model), FenceBegin(caller, identity), identity)
      ensures reply.Answered? ==> Ended(dir.Live()) && (careful ==> !model.tree)
    {
      FenceBeginAnswer(model, caller, identity);
      ReadHere(model);
      ReadIs(dir.Live());
      ClosedMeansAbsent();
      hide ReachableProc, ReachableCareful;
      var view := ReadProcess(dir.Live());
      if view.Err? || view.value.prepared.identity != identity {
        reply := Rejected;
      } else if view.value.terminal != Open {
        reply := Answered;
      } else if view.value.active.None? {
        reply := Waits(PreparedWait(identity));
      } else {
        reply := Waits(ActiveWait(identity, view.value.active.value.observation));
      }
      Take(FenceBegin(caller, identity));
    }

    /** FenceAndWait's second section, after absence was seen. Success means that no process is left. */
    method FenceEnds(caller: nat, phase: FencePhase, now: nat, w: WriteOutcome, removes: Removal) returns (ok: bool)
      requires Valid() && caller in model.fences && model.fences[caller] == phase
      requires phase.PreparedSeen? || phase.ActiveSeen?
      modifies this
      ensures Valid() && model == StepProc(old(model), FenceCommit(caller, now, w, removes))
      ensures var f := old(dir).Live();
        var mine := f.prepared.Some? && f.prepared.value.identity == phase.identity && Intact(f, f.prepared.value);
        var abandons := mine && phase.PreparedSeen? && f.active.None? && !HasTerminal(f);
        var same := mine && phase.ActiveSeen? && f.active.Some? && f.active.value.observation == phase.observation;
        && (ok <==> (abandons && w == Durable && removes == Removed)
                    || (same && (HasTerminal(f) || (w == Durable && removes == Removed))))
        && dir == (if abandons then old(dir).Write(AbandonedFiles(f, f.prepared.value, now), w)
                   else if same && !HasTerminal(f) then old(dir).Write(FinishedFiles(f, f.prepared.value, now), w)
                   else old(dir))
      ensures ok <==> Succeeds(old(model), FenceCommit(caller, now, w, removes), phase.identity)
      ensures ok ==> Ended(dir.Live()) && (careful ==> !model.tree)
    {
      if phase.PreparedSeen? {
        PreparedFenceAnswer(model, caller, now, w, removes);
      } else {
        ActiveFenceAnswer(model, caller, now, w, removes);
      }
      hide ReachableProc, ReachableCareful, StepFenceCommit, Succeeds, Intact, HasTerminal;
      ok := CommitFence(phase, now, w, removes);
      Take(FenceCommit(caller, now, w, removes));
      ClosedMeansAbsent();
    }

    method CommitFence(phase: FencePhase, now: nat, w: WriteOutcome, removes: Removal) returns (ok: bool)
      requires phase.PreparedSeen? || phase.ActiveSeen?
      modifies this`dir, this`lock
      ensures forall s, caller :: old(Shows(s)) && caller in s.fences && s.fences[caller] == phase ==>
        Shows(StepFenceCommit(s, caller, now, w, removes)) &&
        (ok <==> Succeeds(s, FenceCommit(caller, now, w, removes), phase.identity))
      ensures ok ==> Ended(dir.Live())
    {
      hide StepFenceCommit, Succeeds;
      if phase.PreparedSeen? {
        ok := CommitPreparedFence(phase, now, w, removes);
      } else {
        ok := CommitActiveFence(phase, now, w, removes);
      }
    }

    method CommitPreparedFence(phase: FencePhase, now: nat, w: WriteOutcome, removes: Removal) returns (ok: bool)
      requires phase.PreparedSeen?
      modifies this`dir, this`lock
      ensures forall s, caller :: old(Shows(s)) && caller in s.fences && s.fences[caller] == phase ==>
        Shows(StepFenceCommit(s, caller, now, w, removes)) &&
        (ok <==> Succeeds(s, FenceCommit(caller, now, w, removes), phase.identity))
      ensures ok ==> Ended(dir.Live())
    {
      hide ReadProcess;
      var view := ReadProcess(dir.Live());
      if view.Err? || view.value.prepared.identity != phase.identity || view.value.active.Some?
         || view.value.terminal != Open {
        return false;
      }
      ok := AbandonPreparedLocked(view.value.prepared, now, w);
      if ok {
        ok := RemoveLockLocked(removes);
      }
    }

    method CommitActiveFence(phase: FencePhase, now: nat, w: WriteOutcome, removes: Removal) returns (ok: bool)
      requires phase.ActiveSeen?
      modifies this`dir, this`lock
      ensures forall s, caller :: old(Shows(s)) && caller in s.fences && s.fences[caller] == phase ==>
        Shows(StepFenceCommit(s, caller, now, w, removes)) &&
        (ok <==> Succeeds(s, FenceCommit(caller, now, w, removes), phase.identity))
      ensures ok ==> Ended(dir.Live())
    {
      ReadEnded(dir.Live());
      hide ReadProcess;
      var view := ReadProcess(dir.Live());
      if view.Err? || view.value.prepared.identity != phase.identity || view.value.active.None?
         || view.value.active.value.observation != phase.observation {
        return false;
      }
      ok := true;
      if view.value.terminal == Open {
        ok := FinishActiveLocked(view.value.prepared, view.value.active.value, now, w, removes);
      }
    }

    /** What happens outside the store: the lease's holder spawns, the tree exits, a fence sees the lock
        free or gives up. */
    ghost method Elsewhere(m: Move)
      requires Valid() && (m.Spawn? || m.TreeExits? || m.FenceSee? || m.FenceFail?)
      modifies this`model, this`careful
      ensures Valid() && model == StepProc(old(model), m)
    {
      hide ReachableProc, ReachableCareful;
      Take(m);
    }
  }

  lemma ReadEnded(f: ProcFiles)
    ensures ReadProcess(f).Ok? && ReadProcess(f).value.terminal != Open ==> Ended(f)
  {
  }
}
