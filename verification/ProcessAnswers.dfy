/**
 What each section of the process store answers and writes, stated on the Run's own
 records: which of them exist, for which prepared record and observation, and whether
 a clock went back between them.
 */
module ProcessAnswers {
  import opened DurableDirectory
  import opened Options
  import opened RuntimeFence
  import opened ProcessJournal
  import opened ProcessFencing

  /** The Run has this prepared record, and no record predates the one it follows. */
  ghost predicate Intact(f: ProcFiles, p: Prepared)
  {
    && f.prepared == Some(p)
    && (f.active.Some? ==> p.at <= f.active.value.at)
    && (f.active.Some? && f.finished.Some? ==> f.active.value.at <= f.finished.value.at)
    && (f.abandoned.Some? ==> p.at <= f.abandoned.value.at)
  }

  ghost predicate HasTerminal(f: ProcFiles)
  {
    f.finished.Some? || f.abandoned.Some?
  }

  ghost function AbandonedFiles(f: ProcFiles, p: Prepared, now: nat): (g: ProcFiles)
  {
    f.(abandoned := Some(Closing(p, None, now)))
  }

  ghost function FinishedFiles(f: ProcFiles, p: Prepared, now: nat): (g: ProcFiles)
  {
    f.(finished := Some(Closing(p, f.active, now)))
  }

  // ---------- reading ----------

  /** Any records, consistent or not: they are readable exactly when each belongs to the prepared record and
      does not predate what it follows, finished needs its active, and abandoned excludes everything else. */
  lemma ReadableIff(f: ProcFiles)
    ensures ReadProcess(f).Ok? <==>
      && f.prepared.Some?
      && var p := f.prepared.value;
         && (f.active.Some? ==> f.active.value.preparedDigest == p && p.at <= f.active.value.at)
         && (f.finished.Some? ==>
               && f.active.Some? && f.finished.value.preparedDigest == p && f.finished.value.activeDigest == f.active
               && p.at <= f.finished.value.at && f.active.value.at <= f.finished.value.at)
         && (f.abandoned.Some? ==>
               && f.active.None? && f.finished.None? && f.abandoned.value.preparedDigest == p
               && f.abandoned.value.activeDigest.None? && p.at <= f.abandoned.value.at)
  {
  }

  /** On records this journal can contain, what is read. */
  lemma ReadIs(f: ProcFiles)
    requires RecordsOk(f)
    ensures f.prepared.None? ==> ReadProcess(f) == Err(NotExist)
    ensures f.prepared.Some? ==>
      && (ReadProcess(f).Ok? <==> Intact(f, f.prepared.value))
      && (ReadProcess(f).Err? ==> ReadProcess(f).error == Changed)
      && (ReadProcess(f).Ok? ==>
            && ReadProcess(f).value.prepared == f.prepared.value && ReadProcess(f).value.active == f.active
            && (ReadProcess(f).value.terminal == Open <==> !HasTerminal(f))
            && (ReadProcess(f).value.terminal == Finished <==> f.finished.Some?)
            && (ReadProcess(f).value.terminal == Abandoned <==> f.abandoned.Some?))
  {
  }

  lemma ReadHere(s: Proc)
    requires ReachableProc(s)
    ensures RecordsOk(s.dir.Live())
  {
    ReachableProcInv(s);
    LiveOk(s.dir);
  }

  // ---------- the sections ----------

  /** Prepare: only an unknown Run gets a record; with it durable the lock is taken, or the Run is abandoned
      at once. */
  lemma PrepareAnswer(s: Proc, identity: Identity, now: nat, w: WriteOutcome, lockOk: bool, wa: WriteOutcome)
    requires ReachableProc(s)
    ensures var t := StepProc(s, Prepare(identity, now, w, lockOk, wa)); var f := s.dir.Live();
      var p := Prepared(identity, now); var d := s.dir.Write(f.(prepared := Some(p)), w);
      if f.prepared.Some? then t == s
      else if w != Durable then t == s.(dir := d)
      else if lockOk then t == s.(dir := d, lock := true, leaseFd := true, lease := Held(p))
      else t == s.(dir := d.Write(AbandonedFiles(d.Live(), p, now), wa), lock := false)
  {
    ReadHere(s);
    ReadIs(s.dir.Live());
    hide ReachableProc, RecordsOk, ReadProcess;
  }

  /** Started: an active record is written exactly for the lease's own prepared-only Run. */
  lemma StartedAnswer(s: Proc, o: nat, now: nat, w: WriteOutcome)
    requires ReachableProc(s) && s.lease.Held?
    ensures var t := StepProc(s, Started(o, now, w)); var f, p := s.dir.Live(), s.lease.prepared;
      var applies := Intact(f, p) && f.active.None? && !HasTerminal(f);
      t == s.(lease := Recorded(p),
              dir := if applies then s.dir.Write(f.(active := Some(Active(p, o, now))), w) else s.dir)
  {
    ReadHere(s);
    ReadIs(s.dir.Live());
    hide ReachableProc, RecordsOk, ReadProcess;
  }

  /** Finished before its fence: a closed Run ends the lease, a prepared-only one is abandoned, an active one of
      this observation is fenced; the lock handle is given up in any case. */
  lemma FinishBeginAnswer(s: Proc, o: nat, now: nat, w: WriteOutcome, removes: Removal)
    requires ReachableProc(s) && s.lease.Held?
    ensures var t := StepProc(s, FinishBegin(o, now, w, removes)); var f, p := s.dir.Live(), s.lease.prepared;
      var u := s.(leaseFd := false);
      if !Intact(f, p) then t == u
      else if HasTerminal(f) then t == u.(lease := LeaseClosed)
      else if f.active.None? then
        t == u.(dir := s.dir.Write(AbandonedFiles(f, p, now), w),
                lock := s.lock && !(w == Durable && removes != NotRemoved),
                lease := if w == Durable && removes == Removed then LeaseClosed else s.lease)
      else if f.active.value.observation == o then t == u.(lease := Finishing(p, o))
      else t == u
  {
    ReadHere(s);
    ReadIs(s.dir.Live());
    hide ReachableProc, RecordsOk, ReadProcess;
  }

  /** Finished after its fence: an open Run that is still active with this observation gets its finished record
      and, once that is durable, loses its lock; success closes the lease. */
  lemma FinishCommitAnswer(s: Proc, now: nat, w: WriteOutcome, removes: Removal)
    requires ReachableProc(s) && s.lease.FinishSeen?
    ensures var t := StepProc(s, FinishCommit(now, w, removes)); var f, p := s.dir.Live(), s.lease.prepared;
      if !Intact(f, p) || f.active.None? || f.active.value.observation != s.lease.observation then
        t == s.(lease := Held(p))
      else if HasTerminal(f) then t == s.(lease := LeaseClosed)
      else
        t == s.(dir := s.dir.Write(FinishedFiles(f, p, now), w),
                lock := s.lock && !(w == Durable && removes != NotRemoved),
                lease := if w == Durable && removes == Removed then LeaseClosed else Held(p))
  {
    ReadHere(s);
    ReadIs(s.dir.Live());
    hide ReachableProc, RecordsOk, ReadProcess;
  }

  /** Abandon: only a prepared-only Run of this lease is given up, its lock removed once that is durable. */
  lemma AbandonAnswer(s: Proc, now: nat, w: WriteOutcome, removes: Removal)
    requires ReachableProc(s) && s.lease.Held?
    ensures var t := StepProc(s, Abandon(now, w, removes)); var f, p := s.dir.Live(), s.lease.prepared;
      var u := s.(leaseFd := false);
      var recorded := HasTerminal(f) || w == Durable;
      if !Intact(f, p) || f.active.Some? then t == u
      else
        t == u.(dir := if HasTerminal(f) then s.dir else s.dir.Write(AbandonedFiles(f, p, now), w),
                lock := s.lock && !(recorded && removes != NotRemoved),
                lease := if recorded && removes == Removed then LeaseClosed else s.lease)
  {
    ReadHere(s);
    ReadIs(s.dir.Live());
    hide ReachableProc, RecordsOk, ReadProcess;
  }

  /** A fence begins: it answers at once for a closed Run of this identity, waits for a prepared-only or an active
      one, and fails otherwise. */
  lemma FenceBeginAnswer(s: Proc, caller: nat, identity: Identity)
    requires ReachableProc(s) && caller !in s.fences
    ensures var m := FenceBegin(caller, identity); var t := StepProc(s, m); var f := s.dir.Live();
      var mine := f.prepared.Some? && f.prepared.value.identity == identity && Intact(f, f.prepared.value);
      && (Succeeds(s, m, identity) <==> mine && HasTerminal(f))
      && t == if !mine || HasTerminal(f) then s
              else if f.active.None? then s.(fences := s.fences[caller := PreparedWait(identity)])
              else s.(fences := s.fences[caller := ActiveWait(identity, f.active.value.observation)])
  {
    ReadHere(s);
    ReadIs(s.dir.Live());
    hide ReachableProc, RecordsOk, ReadProcess;
  }

  /** A fence that saw a prepared-only Run absent abandons it, if it is still prepared only. */
  lemma PreparedFenceAnswer(s: Proc, caller: nat, now: nat, w: WriteOutcome, removes: Removal)
    requires ReachableProc(s) && caller in s.fences && s.fences[caller].PreparedSeen?
    ensures var m := FenceCommit(caller, now, w, removes); var t := StepProc(s, m); var f := s.dir.Live();
      var identity := s.fences[caller].identity; var u := s.(fences := s.fences - {caller});
      var applies := && f.prepared.Some? && f.prepared.value.identity == identity && Intact(f, f.prepared.value)
                     && f.active.None? && !HasTerminal(f);
      && (Succeeds(s, m, identity) <==> applies && w == Durable && removes == Removed)
      && t == if !applies then u
              else u.(dir := s.dir.Write(AbandonedFiles(f, f.prepared.value, now), w),
                      lock := s.lock && !(w == Durable && removes != NotRemoved))
  {
    ReadHere(s);
    ReadIs(s.dir.Live());
    hide ReachableProc, RecordsOk, ReadProcess;
  }

  /** A fence that saw an active Run absent finishes it, if it is still active with that observation and open. */
  lemma ActiveFenceAnswer(s: Proc, caller: nat, now: nat, w: WriteOutcome, removes: Removal)
    requires ReachableProc(s) && caller in s.fences && s.fences[caller].ActiveSeen?
    ensures var m := FenceCommit(caller, now, w, removes); var t := StepProc(s, m); var f := s.dir.Live();
      var identity := s.fences[caller].identity; var u := s.(fences := s.fences - {caller});
      var same := && f.prepared.Some? && f.prepared.value.identity == identity && Intact(f, f.prepared.value)
                  && f.active.Some? && f.active.value.observation == s.fences[caller].observation;
      && (Succeeds(s, m, identity) <==> same && (HasTerminal(f) || (w == Durable && removes == Removed)))
      && t == if !same || HasTerminal(f) then u
              else u.(dir := s.dir.Write(FinishedFiles(f, f.prepared.value, now), w),
                      lock := s.lock && !(w == Durable && removes != NotRemoved))
  {
    ReadHere(s);
    ReadIs(s.dir.Live());
    hide ReachableProc, RecordsOk, ReadProcess;
  }

  /** What is seen: a prepared-only Run is absent when its lock file is missing or free, an active one only when
      its lock file is there and free. */
  lemma SeenAnswer(s: Proc, caller: nat)
    ensures var free := !s.leaseFd && !s.tree;
      && StepProc(s, FinishSee) ==
         (if s.lease.Finishing? && s.lock && free then s.(lease := FinishSeen(s.lease.prepared, s.lease.observation))
             else s)
      && StepProc(s, FenceSee(caller)) ==
         if caller in s.fences && s.fences[caller].PreparedWait? && (!s.lock || free) then
           s.(fences := s.fences[caller := PreparedSeen(s.fences[caller].identity)])
         else if caller in s.fences && s.fences[caller].ActiveWait? && s.lock && free then
           s.(fences := s.fences[caller := ActiveSeen(s.fences[caller].identity, s.fences[caller].observation)])
         else s
  {
  }

  // ---------- one whole Finished ----------

  /** An active Run of this lease whose tree has exited is finished by one undisturbed Finished: the record is
      durable, the lock removed, the lease closed. */
  lemma FinishedSucceeds(s: Proc, now: nat)
    requires ReachableProc(s) && s.lease.Held? && !s.tree && s.lock
    requires var f := s.dir.Live(); Intact(f, s.lease.prepared) && f.active.Some? && !HasTerminal(f)
    ensures var f, o := s.dir.Live(), s.dir.Live().active.value.observation;
      var begun := StepProc(s, FinishBegin(o, now, Durable, Removed));
      var done := StepProc(StepProc(begun, FinishSee), FinishCommit(now, Durable, Removed));
      && done.dir == Dir(FinishedFiles(f, s.lease.prepared, now), []) && !done.lock && done.lease == LeaseClosed
  {
    var f, o := s.dir.Live(), s.dir.Live().active.value.observation;
    ReadHere(s);
    ReadIs(f);
    hide ReadProcess, RecordsOk, ReachableProc;
    var begun := StepProc(s, FinishBegin(o, now, Durable, Removed));
    assert begun == s.(leaseFd := false, lease := Finishing(s.lease.prepared, o));
    var seen := StepProc(begun, FinishSee);
    assert seen == begun.(lease := FinishSeen(s.lease.prepared, o));
  }
}
