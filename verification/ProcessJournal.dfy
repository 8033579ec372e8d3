/**
 The process journal of one governed Run: prepared -> active -> finished, or
 prepared -> abandoned, together with the process lock file, the lease that may
 spawn the process tree, and any number of concurrent FenceAndWait callers.

 The files of different Runs have different names, so one Run is modelled.
 The process tree holds the inherited lock as long as any of its processes
 exists; that is the platform fact the source relies on.
 */
module ProcessJournal {
  import opened DurableDirectory
  import opened Options
  import opened RuntimeFence

  // A digest is the record it is the digest of.
  datatype Identity = Identity(runId: Id, admissionDigest: Claim, startDigest: Start)
  datatype Prepared = Prepared(identity: Identity, at: nat)
  datatype Active = Active(preparedDigest: Prepared, observation: nat, at: nat)
  datatype Closing = Closing(preparedDigest: Prepared, activeDigest: Option<Active>, at: nat)

  datatype ProcFiles = ProcFiles(
    prepared: Option<Prepared>, active: Option<Active>, finished: Option<Closing>, abandoned: Option<Closing>)

  const NO_RECORDS := ProcFiles(None, None, None, None)

  datatype Terminal = Open | Finished | Abandoned

  datatype ProcView = ProcView(prepared: Prepared, active: Option<Active>, terminal: Terminal)

  // ---------- reading ----------

  function ReadProcess(f: ProcFiles): (r: Result<ProcView>)
  {
    if f.prepared.None? then Err(NotExist)
    else
      var p := f.prepared.value;
      if f.active.Some? && (f.active.value.preparedDigest != p || f.active.value.at < p.at) then Err(Changed)
      else if f.finished.Some? && (f.finished.value.preparedDigest != p || f.finished.value.at < p.at || f.active.None?
                                   || f.finished.value.activeDigest != f.active
                                   || f.finished.value.at < f.active.value.at) then Err(Changed)
      else if f.abandoned.Some? && (f.finished.Some? || f.abandoned.value.preparedDigest != p
          || f.abandoned.value.at < p.at
                                    || f.active.Some? || f.abandoned.value.activeDigest.Some?) then Err(Changed)
      else Ok(ProcView(p, f.active, if f.finished.Some? then Finished else if f.abandoned.Some? then Abandoned
          else Open))
  }

  ghost predicate RecordsOk(f: ProcFiles)
  {
    && (f.active.Some? ==> f.prepared.Some? && f.active.value.preparedDigest == f.prepared.value)
    && (f.finished.Some? ==>
        && f.active.Some? && f.prepared.Some?
        && f.finished.value == Closing(f.prepared.value, f.active, f.finished.value.at))
    && (f.abandoned.Some? ==>
        && f.active.None? && f.prepared.Some?
        && f.abandoned.value == Closing(f.prepared.value, None, f.abandoned.value.at))
  }

  /** Some record is dated before the record it follows. */
  predicate ClockWentBack(f: ProcFiles)
  {
    f.prepared.Some? &&
    (|| (f.active.Some? && f.active.value.at < f.prepared.value.at)
     || (f.finished.Some? && f.active.Some? && f.finished.value.at < f.active.value.at)
     || (f.abandoned.Some? && f.abandoned.value.at < f.prepared.value.at))
  }

  ghost predicate Grows(f: ProcFiles, g: ProcFiles)
  {
    && (f.prepared.Some? ==> g.prepared == f.prepared) && (f.active.Some? ==> g.active == f.active)
    && (f.finished.Some? ==> g.finished == f.finished) && (f.abandoned.Some? ==> g.abandoned == f.abandoned)
  }

  /** On records this journal can contain, reading fails exactly when a clock went back. */
  lemma ReadExact(f: ProcFiles)
    requires RecordsOk(f) && f.prepared.Some?
    ensures ReadProcess(f).Err? <==> ClockWentBack(f)
    ensures ReadProcess(f).Ok? ==>
      && ReadProcess(f).value.prepared == f.prepared.value && ReadProcess(f).value.active == f.active
      && (ReadProcess(f).value.terminal == Finished <==> f.finished.Some?)
      && (ReadProcess(f).value.terminal == Abandoned <==> f.abandoned.Some?)
  {
  }

  // ---------- the world of one Run ----------

  /** Removing the lock file: it may fail, or succeed without its directory being synced, which is an error too. */
  datatype Removal = NotRemoved | RemovedUnsynced | Removed

  datatype LeasePhase =
    | NoLease
    | Held(prepared: Prepared)                        // usable lease, no call in progress
    | Recorded(prepared: Prepared)                    // Started wrote its record, the lock file is still open
    | Finishing(prepared: Prepared, observation: nat) // Finished released the store mutex and fences
    | FinishSeen(prepared: Prepared, observation: nat)
    | LeaseClosed

  datatype FencePhase =
    | PreparedWait(identity: Identity)
    | PreparedSeen(identity: Identity)
    | ActiveWait(identity: Identity, observation: nat)
    | ActiveSeen(identity: Identity, observation: nat)

  /** `tree`: some process of the tree exists. `leaseFd`: the Bridge itself holds the lock. */
  datatype Proc = Proc(
    dir: Dir<ProcFiles>, lock: bool, leaseFd: bool, tree: bool, lease: LeasePhase, fences: map<nat, FencePhase>)

  function InitProc(): (s: Proc)
  {
    Proc(Dir(NO_RECORDS, []), false, false, false, NoLease, map[])
  }

  predicate LockFree(s: Proc)
  {
    !s.leaseFd && !s.tree
  }

  datatype Move =
    | Prepare(identity: Identity, now: nat, w: WriteOutcome, lockOk: bool, wAbandon: WriteOutcome)
    | Spawn
    | TreeExits
    | Started(observation: nat, now: nat, w: WriteOutcome)
    | CloseLockFile
    | FinishBegin(observation: nat, now: nat, w: WriteOutcome, removes: Removal)
    | FinishSee
    | FinishFail
    | FinishCommit(now: nat, w: WriteOutcome, removes: Removal)
    | Abandon(now: nat, w: WriteOutcome, removes: Removal)
    | FenceBegin(caller: nat, identity: Identity)
    | FenceSee(caller: nat)
    | FenceFail(caller: nat)
    | FenceCommit(caller: nat, now: nat, w: WriteOutcome, removes: Removal)
    | Restart
    | PowerLost(kept: nat, lockAfter: bool)

  /** Write the abandoned record of a prepared-only Run and, once durable, try to remove the lock. */
  function AbandonPrepared(s: Proc, p: Prepared, now: nat, w: WriteOutcome, removes: Removal): (t: Proc)
  {
    s.(dir := s.dir.Write(s.dir.Live().(abandoned := Some(Closing(p, None, now))), w),
       lock := if w == Durable && removes != NotRemoved then false else s.lock)
  }

  /** Write the finished record of an active Run and, once durable, try to remove the lock. */
  function FinishActive(s: Proc, p: Prepared, a: Active, now: nat, w: WriteOutcome, removes: Removal): (t: Proc)
  {
    s.(dir := s.dir.Write(s.dir.Live().(finished := Some(Closing(p, Some(a), now))), w),
       lock := if w == Durable && removes != NotRemoved then false else s.lock)
  }

  function StepPrepare(s: Proc, identity: Identity, now: nat, w: WriteOutcome, lockOk: bool,
      wAbandon: WriteOutcome): (t: Proc)
  {
    if ReadProcess(s.dir.Live()) != Err(NotExist) then s
    else
      var p := Prepared(identity, now);
      var t := s.(dir := s.dir.Write(s.dir.Live().(prepared := Some(p)), w));
      if w != Durable then t
      else if lockOk then t.(lock := true, leaseFd := true, lease := Held(p))
      else t.(lock := false, dir := t.dir.Write(t.dir.Live().(abandoned := Some(Closing(p, None, now))), wAbandon))
  }

  function StepStarted(s: Proc, observation: nat, now: nat, w: WriteOutcome): (t: Proc)
  {
    if !s.lease.Held? then s
    else
      var v := ReadProcess(s.dir.Live());
      if v.Err? || v.value.prepared != s.lease.prepared || v.value.active.Some? || v.value.terminal != Open then
        s.(lease := Recorded(s.lease.prepared))
      else
        s.(lease := Recorded(s.lease.prepared),
           dir := s.dir.Write(s.dir.Live().(active := Some(Active(s.lease.prepared, observation, now))), w))
  }

  function StepFinishBegin(s: Proc, observation: nat, now: nat, w: WriteOutcome, removes: Removal): (t: Proc)
  {
    if !s.lease.Held? then s
    else
      var t := s.(leaseFd := false);
      var v := ReadProcess(s.dir.Live());
      if v.Err? || v.value.prepared != s.lease.prepared then t
      else if v.value.terminal != Open then t.(lease := LeaseClosed)
      else if v.value.active.None? then
        AbandonPrepared(t, s.lease.prepared, now, w, removes)
        .(lease := if w == Durable && removes == Removed then LeaseClosed else s.lease)
      else if v.value.active.value.observation != observation then t
      else t.(lease := Finishing(s.lease.prepared, observation))
  }

  function StepFinishCommit(s: Proc, now: nat, w: WriteOutcome, removes: Removal): (t: Proc)
  {
    if !s.lease.FinishSeen? then s
    else
      var p := s.lease.prepared;
      var v := ReadProcess(s.dir.Live());
      if v.Err? || v.value.prepared != p || v.value.active.None?
          || v.value.active.value.observation != s.lease.observation then
        s.(lease := Held(p))
      else if v.value.terminal != Open then s.(lease := LeaseClosed)
      else
        FinishActive(s, p, v.value.active.value, now, w, removes)
        .(lease := if w == Durable && removes == Removed then LeaseClosed else Held(p))
  }

  function StepAbandon(s: Proc, now: nat, w: WriteOutcome, removes: Removal): (t: Proc)
  {
    if !s.lease.Held? then s
    else
      var t := s.(leaseFd := false);
      var v := ReadProcess(s.dir.Live());
      if v.Err? || v.value.prepared != s.lease.prepared || v.value.active.Some? then t
      else if v.value.terminal != Open then
          t.(lock := if removes != NotRemoved then false else s.lock, lease := if removes == Removed then LeaseClosed
              else s.lease)
      else
        AbandonPrepared(t, s.lease.prepared, now, w, removes)
        .(lease := if w == Durable && removes == Removed then LeaseClosed else s.lease)
  }

  function StepFenceBegin(s: Proc, caller: nat, identity: Identity): (t: Proc)
  {
    var v := ReadProcess(s.dir.Live());
    if caller in s.fences || v.Err? || v.value.prepared.identity != identity || v.value.terminal != Open then s
    else if v.value.active.None? then s.(fences := s.fences[caller := PreparedWait(identity)])
    else s.(fences := s.fences[caller := ActiveWait(identity, v.value.active.value.observation)])
  }

  /** The lock was seen free; a missing lock file proves absence only for a prepared-only Run. */
  function StepFenceSee(s: Proc, caller: nat): (t: Proc)
  {
    if caller !in s.fences then s
    else
      match s.fences[caller]
      case PreparedWait(identity) =>
          if !s.lock || LockFree(s) then s.(fences := s.fences[caller := PreparedSeen(identity)]) else s
      case ActiveWait(identity, o) =>
          if s.lock && LockFree(s) then s.(fences := s.fences[caller := ActiveSeen(identity, o)]) else s
      case _ => s
  }

  function StepFenceCommit(s: Proc, caller: nat, now: nat, w: WriteOutcome, removes: Removal): (t: Proc)
  {
    if caller !in s.fences then s
    else
      var t := s.(fences := s.fences - {caller});
      var v := ReadProcess(s.dir.Live());
      match s.fences[caller]
      case PreparedSeen(identity) =>
        if v.Err? || v.value.prepared.identity != identity || v.value.active.Some? || v.value.terminal != Open then t
        else AbandonPrepared(t, v.value.prepared, now, w, removes)
      case ActiveSeen(identity, o) =>
        if v.Err? || v.value.prepared.identity != identity || v.value.active.None?
            || v.value.active.value.observation != o
           || v.value.terminal != Open then t
        else FinishActive(t, v.value.prepared, v.value.active.value, now, w, removes)
      case _ => s
  }

  function StepProc(s: Proc, m: Move): (t: Proc)
  {
    match m
    case Prepare(identity, now, w, lockOk, wa) => StepPrepare(s, identity, now, w, lockOk, wa)
    case Spawn => if s.lease.Held? && s.leaseFd then s.(tree := true) else s
    case TreeExits => s.(tree := false)
    case Started(o, now, w) => StepStarted(s, o, now, w)
    case CloseLockFile => if s.lease.Recorded? then s.(leaseFd := false, lease := Held(s.lease.prepared)) else s
    case FinishBegin(o, now, w, removes) => StepFinishBegin(s, o, now, w, removes)
    case FinishSee => if s.lease.Finishing? && s.lock && LockFree(s) then
        s.(lease := FinishSeen(s.lease.prepared, s.lease.observation)) else s
    case FinishFail => if s.lease.Finishing? then s.(lease := Held(s.lease.prepared)) else s
    case FinishCommit(now, w, removes) => StepFinishCommit(s, now, w, removes)
    case Abandon(now, w, removes) => StepAbandon(s, now, w, removes)
    case FenceBegin(caller, identity) => StepFenceBegin(s, caller, identity)
    case FenceSee(caller) => StepFenceSee(s, caller)
    case FenceFail(caller) => s.(fences := s.fences - {caller})
    case FenceCommit(caller, now, w, removes) => StepFenceCommit(s, caller, now, w, removes)
    case Restart => s.(leaseFd := false, lease := NoLease, fences := map[])
    case PowerLost(kept, lockAfter) =>
      s.(dir := s.dir.PowerLoss(kept), lock := lockAfter, leaseFd := false, tree := false, lease := NoLease,
          fences := map[])
  }

  function RunProc(s: Proc, moves: seq<Move>): (t: Proc)
    decreases |moves|
  {
    if moves == [] then s else StepProc(RunProc(s, moves[..|moves| - 1]), moves[|moves| - 1])
  }

  // ---------- the invariant ----------

  ghost predicate JournalOk(d: Dir<ProcFiles>)
  {
    && (forall i :: 0 <= i < |d.Snapshots()| ==> RecordsOk(d.Snapshots()[i]))
    && (forall i, j :: 0 <= i <= j < |d.Snapshots()| ==> Grows(d.Snapshots()[i], d.Snapshots()[j]))
  }

  predicate Seen(s: Proc)
  {
    s.lease.FinishSeen? || exists c :: c in s.fences && s.fences[c].ActiveSeen?
  }

  ghost predicate ProcInv(s: Proc)
  {
    && JournalOk(s.dir)
    && (s.leaseFd ==> (s.lease.Held? || s.lease.Recorded?) && s.dir.Live().prepared.Some?)
    && (s.lease.FinishSeen? || s.lease.Finishing? ==> s.dir.Live().active.Some?)
    && (forall c :: c in s.fences && (s.fences[c].ActiveSeen? || s.fences[c].ActiveWait?) ==> s.dir.Live().active.Some?)
    && (Seen(s) ==> !s.tree && !s.leaseFd)
    && (s.dir.Live().finished.Some? ==> !s.tree && !s.leaseFd)
  }

  lemma JournalWrite(d: Dir<ProcFiles>, after: ProcFiles, w: WriteOutcome)
    requires JournalOk(d) && RecordsOk(after) && Grows(d.Live(), after)
    ensures JournalOk(d.Write(after, w)) && Grows(d.durable, d.Write(after, w).durable)
      && Grows(d.Live(), d.Write(after, w).Live())
    ensures d.Write(after, w).Live() == d.Live() || d.Write(after, w).Live() == after
  {
    var before := d.Snapshots();
    Ends(d);
    WriteContents(d, after, w);
    if w == LinkedUnsynced {
      var now' := d.Write(after, w).Snapshots();
      forall i, j | 0 <= i <= j < |now'| ensures Grows(now'[i], now'[j]) {
        assert i < |before| ==> Grows(before[i], d.Live());
      }
    }
    assert Grows(before[0], d.Live());
  }

  lemma LiveOk(d: Dir<ProcFiles>)
    requires JournalOk(d)
    ensures RecordsOk(d.Live()) && Grows(d.durable, d.Live())
  {
    Ends(d);
  }

  lemma AbandonKeeps(s: Proc, p: Prepared, now: nat, w: WriteOutcome, removes: Removal)
    requires ProcInv(s) && s.dir.Live().prepared == Some(p) && s.dir.Live().active.None?
    requires s.dir.Live().finished.None? && s.dir.Live().abandoned.None?
    ensures var t := AbandonPrepared(s, p, now, w, removes); ProcInv(t) && Grows(s.dir.durable, t.dir.durable)
  {
    LiveOk(s.dir);
    JournalWrite(s.dir, s.dir.Live().(abandoned := Some(Closing(p, None, now))), w);
    hide JournalOk;
  }

  lemma FinishKeeps(s: Proc, p: Prepared, a: Active, now: nat, w: WriteOutcome, removes: Removal)
    requires ProcInv(s) && s.dir.Live().prepared == Some(p) && s.dir.Live().active == Some(a)
    requires s.dir.Live().finished.None? && s.dir.Live().abandoned.None? && !s.tree && !s.leaseFd
    ensures var t := FinishActive(s, p, a, now, w, removes); ProcInv(t) && Grows(s.dir.durable, t.dir.durable)
  {
    LiveOk(s.dir);
    JournalWrite(s.dir, s.dir.Live().(finished := Some(Closing(p, Some(a), now))), w);
    hide JournalOk;
  }

  lemma PrepareKeeps(s: Proc, identity: Identity, now: nat, w: WriteOutcome, lockOk: bool, wa: WriteOutcome)
    requires ProcInv(s)
    ensures var t := StepPrepare(s, identity, now, w, lockOk, wa); ProcInv(t) && Grows(s.dir.durable, t.dir.durable)
  {
    LiveOk(s.dir);
    if ReadProcess(s.dir.Live()) == Err(NotExist) {
      var p := Prepared(identity, now);
      var after := s.dir.Live().(prepared := Some(p));
      JournalWrite(s.dir, after, w);
      if w == Durable {
        JournalWrite(Dir(after, []), after.(abandoned := Some(Closing(p, None, now))), wa);
      }
    }
    hide JournalOk;
  }

  lemma GrowsSelf(f: ProcFiles)
    ensures Grows(f, f)
  {
  }

  lemma RecordedKeeps(s: Proc)
    requires ProcInv(s) && s.lease.Held?
    ensures ProcInv(s.(lease := Recorded(s.lease.prepared)))
  {
    hide JournalOk;
  }

  lemma ActiveKeeps(s: Proc, o: nat, now: nat, w: WriteOutcome)
    requires ProcInv(s) && s.lease.Held? && s.dir.Live().prepared == Some(s.lease.prepared) && s.dir.Live().active.None?
    requires s.dir.Live().finished.None? && s.dir.Live().abandoned.None?
    ensures var t := s.(lease := Recorded(s.lease.prepared),
                        dir := s.dir.Write(s.dir.Live().(active := Some(Active(s.lease.prepared, o, now))), w));
      ProcInv(t) && Grows(s.dir.durable, t.dir.durable)
  {
    LiveOk(s.dir);
    JournalWrite(s.dir, s.dir.Live().(active := Some(Active(s.lease.prepared, o, now))), w);
    hide JournalOk;
  }

  lemma StartedKeeps(s: Proc, o: nat, now: nat, w: WriteOutcome)
    requires ProcInv(s)
    ensures var t := StepStarted(s, o, now, w); ProcInv(t) && Grows(s.dir.durable, t.dir.durable)
  {
    LiveOk(s.dir);
    GrowsSelf(s.dir.durable);
    if s.lease.Held? {
      var v := ReadProcess(s.dir.Live());
      RecordedKeeps(s);
      if v.Ok? && v.value.prepared == s.lease.prepared && v.value.active.None? && v.value.terminal == Open {
        ReadExact(s.dir.Live());
        ActiveKeeps(s, o, now, w);
      }
    }
    hide ProcInv, Grows, ReadProcess, RecordsOk;
  }

  /** Giving up the lock handle and settling the lease. */
  lemma LeaseKeeps(s: Proc, lease: LeasePhase, lock: bool)
    requires ProcInv(s) && (lease == LeaseClosed || lease == s.lease)
    ensures ProcInv(s.(leaseFd := false, lease := lease, lock := lock))
  {
    hide JournalOk;
  }

  lemma ReleaseKeeps(s: Proc, now: nat, w: WriteOutcome, removes: Removal)
    requires ProcInv(s) && s.lease.Held? && s.dir.Live().prepared == Some(s.lease.prepared) && s.dir.Live().active.None?
    requires s.dir.Live().finished.None? && s.dir.Live().abandoned.None?
    ensures var t := AbandonPrepared(s.(leaseFd := false), s.lease.prepared, now, w, removes)
                     .(lease := if w == Durable && removes == Removed then LeaseClosed else s.lease);
      ProcInv(t) && Grows(s.dir.durable, t.dir.durable)
  {
    hide ProcInv, Grows;
    LeaseKeeps(s, s.lease, s.lock);
    AbandonKeeps(s.(leaseFd := false), s.lease.prepared, now, w, removes);
    var t := AbandonPrepared(s.(leaseFd := false), s.lease.prepared, now, w, removes);
    LeaseKeeps(t, if w == Durable && removes == Removed then LeaseClosed else s.lease, t.lock);
  }

  lemma FinishingKeeps(s: Proc, o: nat)
    requires ProcInv(s) && s.lease.Held? && s.dir.Live().active.Some?
    ensures ProcInv(s.(leaseFd := false, lease := Finishing(s.lease.prepared, o)))
  {
    hide JournalOk;
  }

  lemma FinishBeginKeeps(s: Proc, o: nat, now: nat, w: WriteOutcome, removes: Removal)
    requires ProcInv(s)
    ensures var t := StepFinishBegin(s, o, now, w, removes); ProcInv(t) && Grows(s.dir.durable, t.dir.durable)
  {
    GrowsSelf(s.dir.durable);
    if s.lease.Held? {
      LeaseKeeps(s, s.lease, s.lock);
      LeaseKeeps(s, LeaseClosed, s.lock);
      var f := s.dir.Live();
      var v := ReadProcess(f);
      if v.Ok? {
        ReadOk(s);
        hide ProcInv, ReadProcess, Grows;
        if f.active.Some? {
          FinishingKeeps(s, o);
        } else if v.value.prepared == s.lease.prepared && v.value.terminal == Open {
          ReleaseKeeps(s, now, w, removes);
        }
      }
    }
    hide ProcInv, Grows;
  }

  /** What a successful read says about the records. */
  lemma ReadOk(s: Proc)
    requires ProcInv(s) && ReadProcess(s.dir.Live()).Ok?
    ensures var v := ReadProcess(s.dir.Live()).value; var f := s.dir.Live();
      && f.prepared == Some(v.prepared) && f.active == v.active
      && (v.terminal == Open <==> f.finished.None? && f.abandoned.None?)
  {
    LiveOk(s.dir);
    ReadExact(s.dir.Live());
  }

  lemma FinishCommitKeeps(s: Proc, now: nat, w: WriteOutcome, removes: Removal)
    requires ProcInv(s)
    ensures var t := StepFinishCommit(s, now, w, removes); ProcInv(t) && Grows(s.dir.durable, t.dir.durable)
  {
    LiveOk(s.dir);
    if s.lease.FinishSeen? {
      var v := ReadProcess(s.dir.Live());
      if v.Ok? && v.value.prepared == s.lease.prepared && v.value.terminal == Open && v.value.active.Some? {
        ReadExact(s.dir.Live());
        FinishKeeps(s, s.lease.prepared, v.value.active.value, now, w, removes);
      }
    }
    hide JournalOk, RecordsOk;
  }

  lemma AbandonStepKeeps(s: Proc, now: nat, w: WriteOutcome, removes: Removal)
    requires ProcInv(s)
    ensures var t := StepAbandon(s, now, w, removes); ProcInv(t) && Grows(s.dir.durable, t.dir.durable)
  {
    LiveOk(s.dir);
    if s.lease.Held? {
      LeaseKeeps(s, s.lease, s.lock);
      LeaseKeeps(s, s.lease, false);
      LeaseKeeps(s, LeaseClosed, false);
      var v := ReadProcess(s.dir.Live());
      if v.Ok? && v.value.prepared == s.lease.prepared && v.value.terminal == Open && v.value.active.None? {
        ReadExact(s.dir.Live());
        ReleaseKeeps(s, now, w, removes);
      }
    }
    hide JournalOk, RecordsOk;
  }

  lemma FenceCommitKeeps(s: Proc, caller: nat, now: nat, w: WriteOutcome, removes: Removal)
    requires ProcInv(s)
    ensures var t := StepFenceCommit(s, caller, now, w, removes); ProcInv(t) && Grows(s.dir.durable, t.dir.durable)
  {
    LiveOk(s.dir);
    if caller in s.fences {
      var t := s.(fences := s.fences - {caller});
      assert ProcInv(t) by { hide JournalOk; }
      var v := ReadProcess(s.dir.Live());
      if v.Ok? && v.value.terminal == Open {
        ReadExact(s.dir.Live());
        if s.fences[caller].PreparedSeen? && v.value.active.None? {
          AbandonKeeps(t, v.value.prepared, now, w, removes);
        } else if s.fences[caller].ActiveSeen? && v.value.active.Some? {
          FinishKeeps(t, v.value.prepared, v.value.active.value, now, w, removes);
        }
      }
    }
    hide JournalOk, RecordsOk;
  }

  lemma ProcStepKeeps(s: Proc, m: Move)
    requires ProcInv(s)
    ensures ProcInv(StepProc(s, m)) && Grows(s.dir.durable, StepProc(s, m).dir.durable)
  {
    LiveOk(s.dir);
    match m {
      case Prepare(identity, now, w, lockOk, wa) => PrepareKeeps(s, identity, now, w, lockOk, wa);
      case Started(o, now, w) => StartedKeeps(s, o, now, w);
      case FinishBegin(o, now, w, removes) => FinishBeginKeeps(s, o, now, w, removes);
      case FinishCommit(now, w, removes) => FinishCommitKeeps(s, now, w, removes);
      case Abandon(now, w, removes) => AbandonStepKeeps(s, now, w, removes);
      case FenceCommit(caller, now, w, removes) => FenceCommitKeeps(s, caller, now, w, removes);
      case PowerLost(kept, _) =>
        if kept < |s.dir.Snapshots()| {
          assert Grows(s.dir.Snapshots()[0], s.dir.Snapshots()[kept]);
        }
      case CloseLockFile => LeaseMove(s, m);
      case FinishSee => LeaseMove(s, m);
      case FinishFail => LeaseMove(s, m);
      case FenceBegin(_, _) => FenceMove(s, m);
      case FenceSee(_) => FenceMove(s, m);
      case FenceFail(_) => FenceMove(s, m);
      case _ => TreeMove(s, m);
    }
  }

  lemma TreeMove(s: Proc, m: Move)
    requires ProcInv(s) && (m.Spawn? || m.TreeExits? || m.Restart?)
    ensures ProcInv(StepProc(s, m)) && StepProc(s, m).dir == s.dir
  {
    hide JournalOk;
  }

  lemma LeaseMove(s: Proc, m: Move)
    requires ProcInv(s) && (m.CloseLockFile? || m.FinishSee? || m.FinishFail?)
    ensures ProcInv(StepProc(s, m)) && StepProc(s, m).dir == s.dir
  {
    hide JournalOk;
  }

  lemma FenceMove(s: Proc, m: Move)
    requires ProcInv(s) && (m.FenceBegin? || m.FenceSee? || m.FenceFail?)
    ensures ProcInv(StepProc(s, m)) && StepProc(s, m).dir == s.dir
  {
    LiveOk(s.dir);
    if s.dir.Live().prepared.Some? {
      ReadExact(s.dir.Live());
    }
    hide JournalOk, RecordsOk;
  }

  lemma {:induction false} RunProcKeeps(s: Proc, moves: seq<Move>)
    requires ProcInv(s)
    ensures ProcInv(RunProc(s, moves)) && Grows(s.dir.durable, RunProc(s, moves).dir.durable)
    decreases |moves|
  {
    hide ProcInv, StepProc;
    if moves != [] {
      RunProcKeeps(s, moves[..|moves| - 1]);
      ProcStepKeeps(RunProc(s, moves[..|moves| - 1]), moves[|moves| - 1]);
    }
  }

  // ---------- main results ----------

  ghost predicate ReachableProc(s: Proc)
  {
    exists moves :: s == RunProc(InitProc(), moves)
  }

  ghost predicate LeadsProc(s: Proc, t: Proc)
  {
    exists moves :: t == RunProc(s, moves)
  }

  lemma ReachableProcInv(s: Proc)
    requires ReachableProc(s)
    ensures ProcInv(s)
  {
    var moves :| s == RunProc(InitProc(), moves);
    RunProcKeeps(InitProc(), moves);
  }

  /** In every content a reader or a power loss can meet: finished and abandoned never coexist,
      abandoned never coexists with active, and finished implies active implies prepared. */
  lemma StagesNeverContradict(s: Proc, k: nat)
    requires ReachableProc(s) && k < |s.dir.Snapshots()|
    ensures var f := s.dir.Snapshots()[k];
      && !(f.finished.Some? && f.abandoned.Some?) && !(f.active.Some? && f.abandoned.Some?)
      && (f.finished.Some? ==> f.active.Some?) && (f.active.Some? ==> f.prepared.Some?)
      && (f.prepared.Some? ==> (ReadProcess(f).Err? <==> ClockWentBack(f)))
  {
    ReachableProcInv(s);
    assert RecordsOk(s.dir.Snapshots()[k]);
  }

  /** RequireFinished's answer. */
  predicate RequireFinished(s: Proc, identity: Identity)
  {
    var v := ReadProcess(s.dir.Live());
    v.Ok? && v.value.prepared.identity == identity && v.value.terminal == Finished && v.value.active.Some? && !s.lock
  }

  /** RequireFinished succeeds only while no process of the recorded tree exists and none can be spawned. */
  lemma FinishedMeansAbsent(s: Proc, identity: Identity)
    requires ReachableProc(s) && RequireFinished(s, identity)
    ensures !s.tree && !s.leaseFd && StepProc(s, Spawn) == s
    ensures s.dir.Live().active.Some? && s.dir.Live().abandoned.None?
  {
    ReachableProcInv(s);
    LiveOk(s.dir);
    ReadExact(s.dir.Live());
  }

  /** Once the finished record is durable the tree is absent in every continuation. */
  lemma FinishedAbsentForever(s: Proc, t: Proc)
    requires ReachableProc(s) && LeadsProc(s, t) && s.dir.durable.finished.Some?
    ensures !t.tree && t.dir.durable.finished == s.dir.durable.finished && t.dir.durable.active == s.dir.durable.active
  {
    ReachableProcInv(s);
    var moves :| t == RunProc(s, moves);
    RunProcKeeps(s, moves);
    LiveOk(s.dir);
    LiveOk(t.dir);
    assert RecordsOk(s.dir.Snapshots()[0]);
  }
}
