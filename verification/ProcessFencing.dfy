/**
 When a fence can succeed. After a restart the process journal is what the earlier
 process left; a fence may be repeated any number of times, the tree may exit and
 the Bridge may restart again. Whether FenceAndWait can ever answer with success
 depends on the records alone.
 */
module ProcessFencing {
  import opened DurableDirectory
  import opened Options
  import opened RuntimeFence
  import opened ProcessJournal

  /** What may happen to a Run that only fences still touch. */
  predicate Fencing(m: Move)
  {
    m.TreeExits? || m.FenceBegin? || m.FenceSee? || m.FenceFail? || m.FenceCommit? || m.Restart?
  }

  predicate AllFencing(moves: seq<Move>)
  {
    forall i :: 0 <= i < |moves| ==> Fencing(moves[i])
  }

  /** FenceAndWait for `identity` answers with success at this move. */
  predicate Succeeds(s: Proc, m: Move, identity: Identity)
  {
    var v := ReadProcess(s.dir.Live());
    v.Ok? && v.value.prepared.identity == identity &&
    match m
    case FenceBegin(caller, id) => caller !in s.fences && id == identity && v.value.terminal != Open
    case FenceCommit(caller, now, w, removes) =>
      caller in s.fences && s.fences[caller].identity == identity &&
      (match s.fences[caller]
       case PreparedSeen(_) => v.value.active.None? && v.value.terminal == Open && w == Durable && removes == Removed
       case ActiveSeen(_, o) =>
         && v.value.active.Some? && v.value.active.value.observation == o
         && (v.value.terminal != Open || (w == Durable && removes == Removed))
       case _ => false)
    case _ => false
  }

  ghost predicate CanSucceed(s: Proc, identity: Identity)
  {
    exists moves, m :: AllFencing(moves) && Succeeds(RunProc(s, moves), m, identity)
  }

  /** The journal as a restarted Bridge finds it. */
  ghost predicate Restarted(s: Proc)
  {
    ReachableProc(s) && s.lease == NoLease && s.fences == map[]
  }

  /** The Run is readable, it is this very Run, and it is closed already, prepared only, or active with its
      lock file in place. */
  predicate Fenceable(s: Proc, identity: Identity)
  {
    var v := ReadProcess(s.dir.Live());
    && v.Ok? && v.value.prepared.identity == identity
    && (v.value.terminal != Open || v.value.active.None? || s.lock)
  }

  // ---------- a fenceable Run ----------

  /** The whole call on a Run whose tree exits meanwhile. */
  function WholeFence(identity: Identity): (moves: seq<Move>)
  {
    [FenceBegin(0, identity), TreeExits, FenceSee(0)]
  }

  lemma RunThreeMoves(s: Proc, a: Move, b: Move, c: Move)
    ensures RunProc(s, [a, b, c]) == StepProc(StepProc(StepProc(s, a), b), c)
  {
    hide StepProc;
    assert [a, b, c][..2] == [a, b] && [a, b][..1] == [a] && [a][..0] == [];
    assert RunProc(s, []) == s;
    assert RunProc(s, [a]) == StepProc(s, a);
    assert RunProc(s, [a, b]) == StepProc(StepProc(s, a), b);
  }

  lemma NoHandleAfterRestart(s: Proc)
    requires Restarted(s)
    ensures !s.leaseFd
  {
    ReachableProcInv(s);
  }

  /** What the fence of an open Run waits for, and what it has seen afterwards. */
  function WaitOf(s: Proc, identity: Identity): (p: FencePhase)
    requires ReadProcess(s.dir.Live()).Ok?
  {
    var v := ReadProcess(s.dir.Live()).value;
    if v.active.None? then PreparedWait(identity) else ActiveWait(identity, v.active.value.observation)
  }

  function SeenOf(s: Proc, identity: Identity): (p: FencePhase)
    requires ReadProcess(s.dir.Live()).Ok?
  {
    var v := ReadProcess(s.dir.Live()).value;
    if v.active.None? then PreparedSeen(identity) else ActiveSeen(identity, v.active.value.observation)
  }

  lemma WholeFenceStates(s: Proc, identity: Identity)
    requires s.fences == map[] && !s.leaseFd && Fenceable(s, identity)
    requires ReadProcess(s.dir.Live()).value.terminal == Open
    ensures var t := s.(fences := map[0 := WaitOf(s, identity)]); var u := t.(tree := false);
      && StepProc(s, FenceBegin(0, identity)) == t && StepProc(t, TreeExits) == u
      && StepProc(u, FenceSee(0)) == u.(fences := map[0 := SeenOf(s, identity)])
  {
    hide ReadProcess;
  }

  lemma WholeFenceSees(s: Proc, identity: Identity)
    requires s.fences == map[] && !s.leaseFd && Fenceable(s, identity)
    requires ReadProcess(s.dir.Live()).value.terminal == Open
    ensures var t := RunProc(s, WholeFence(identity)); Succeeds(t, FenceCommit(0, 0, Durable, Removed), identity)
  {
    RunThreeMoves(s, FenceBegin(0, identity), TreeExits, FenceSee(0));
    hide ReadProcess, RunProc, StepProc;
    WholeFenceStates(s, identity);
  }

  // ---------- a Run that is not ----------

  /** No fence of this identity is on its way, and none can be. */
  ghost predicate Foreign(s: Proc, identity: Identity)
  {
    && (s.dir.Live().prepared.Some? ==> s.dir.Live().prepared.value.identity != identity)
    && (forall c :: c in s.fences ==> s.fences[c].identity != identity)
  }

  predicate Unreadable(s: Proc)
  {
    ReadProcess(s.dir.Live()).Err? && s.fences == map[]
  }

  /** Active with its lock file gone: fences wait for it in vain. */
  ghost predicate Lockless(s: Proc)
  {
    var v := ReadProcess(s.dir.Live());
    && v.Ok? && v.value.terminal == Open && v.value.active.Some? && !s.lock
    && (forall c :: c in s.fences ==> s.fences[c].ActiveWait?)
  }

  ghost predicate Blocked(s: Proc, identity: Identity)
  {
    Foreign(s, identity) || Unreadable(s) || Lockless(s)
  }

  lemma ReadsPrepared(f: ProcFiles)
    ensures ReadProcess(f).Ok? ==> f.prepared == Some(ReadProcess(f).value.prepared)
  {
  }

  /** Fencing adds terminal records only. */
  lemma CommitKeepsPrepared(s: Proc, caller: nat, now: nat, w: WriteOutcome, removes: Removal)
    ensures StepFenceCommit(s, caller, now, w, removes).dir.Live().prepared == s.dir.Live().prepared
  {
    hide ReadProcess, LockFree;
    var v := ReadProcess(s.dir.Live());
    if v.Ok? {
      WriteContents(s.dir, s.dir.Live().(abandoned := Some(Closing(v.value.prepared, None, now))), w);
      if v.value.active.Some? {
        var a := v.value.active.value;
        WriteContents(s.dir, s.dir.Live().(finished := Some(Closing(v.value.prepared, Some(a), now))), w);
      }
    }
  }

  lemma CommitKeepsFences(s: Proc, caller: nat, now: nat, w: WriteOutcome, removes: Removal)
    ensures var t := StepFenceCommit(s, caller, now, w, removes);
      forall c :: c in t.fences ==> c in s.fences && t.fences[c] == s.fences[c]
  {
    hide ReadProcess;
  }

  lemma ForeignQuiet(s: Proc, m: Move, identity: Identity)
    requires Foreign(s, identity) && Fencing(m) && !m.FenceCommit?
    ensures Foreign(StepProc(s, m), identity)
  {
    ReadsPrepared(s.dir.Live());
    hide ReadProcess;
  }

  lemma ForeignStep(s: Proc, m: Move, identity: Identity)
    requires Foreign(s, identity) && Fencing(m)
    ensures Foreign(StepProc(s, m), identity) && !Succeeds(s, m, identity)
  {
    ReadsPrepared(s.dir.Live());
    hide ReadProcess, StepFenceCommit, StepFenceBegin, StepFenceSee;
    if m.FenceCommit? {
      CommitKeepsPrepared(s, m.caller, m.now, m.w, m.removes);
      CommitKeepsFences(s, m.caller, m.now, m.w, m.removes);
    } else {
      ForeignQuiet(s, m, identity);
    }
  }

  lemma BlockedStep(s: Proc, m: Move, identity: Identity)
    requires Blocked(s, identity) && Fencing(m)
    ensures Blocked(StepProc(s, m), identity) && !Succeeds(s, m, identity)
  {
    if Foreign(s, identity) {
      ForeignStep(s, m, identity);
    } else {
      hide ReadProcess, Foreign;
    }
  }

  lemma {:induction false} BlockedRun(s: Proc, moves: seq<Move>, identity: Identity)
    requires Blocked(s, identity) && AllFencing(moves)
    ensures Blocked(RunProc(s, moves), identity)
    decreases |moves|
  {
    hide Blocked, StepProc, Succeeds, Fencing;
    if moves != [] {
      BlockedRun(s, moves[..|moves| - 1], identity);
      BlockedStep(RunProc(s, moves[..|moves| - 1]), moves[|moves| - 1], identity);
    }
  }

  lemma OnlyFencesSucceed(s: Proc, m: Move, identity: Identity)
    requires Succeeds(s, m, identity)
    ensures Fencing(m)
  {
  }

  // ---------- main results ----------

  /** After a restart FenceAndWait can succeed for a Run exactly when its records are fenceable. */
  lemma CanSucceedIff(s: Proc, identity: Identity)
    requires Restarted(s)
    ensures CanSucceed(s, identity) <==> Fenceable(s, identity)
  {
    NoHandleAfterRestart(s);
    hide Restarted;
    if Fenceable(s, identity) {
      if ReadProcess(s.dir.Live()).value.terminal == Open {
        WholeFenceSees(s, identity);
        assert AllFencing(WholeFence(identity));
      } else {
        assert RunProc(s, []) == s && AllFencing([]);
        assert Succeeds(RunProc(s, []), FenceBegin(0, identity), identity);
      }
    } else {
      ReadsPrepared(s.dir.Live());
      assert Blocked(s, identity) by { hide ReadProcess; }
      hide Blocked, Succeeds, RunProc, AllFencing, Fencing;
      forall moves, m | AllFencing(moves) ensures !Succeeds(RunProc(s, moves), m, identity) {
        BlockedRun(s, moves, identity);
        if Succeeds(RunProc(s, moves), m, identity) {
          OnlyFencesSucceed(RunProc(s, moves), m, identity);
          BlockedStep(RunProc(s, moves), m, identity);
        }
      }
    }
  }

  /** Nothing was ever prepared, in no content that can be read or survive. */
  ghost predicate NeverPrepared(s: Proc)
  {
    s.fences == map[] && forall f :: f in s.dir.Snapshots() ==> f.prepared.None?
  }

  lemma NeverPreparedStep(s: Proc, m: Move, identity: Identity)
    requires NeverPrepared(s) && !m.Prepare?
    ensures NeverPrepared(StepProc(s, m)) && !Succeeds(s, m, identity)
  {
    Ends(s.dir);
    assert s.dir.Live() in s.dir.Snapshots();
    assert ReadProcess(s.dir.Live()) == Err(NotExist);
    if m.PowerLost? {
      PowerLossContents(s.dir, m.kept);
    }
    hide ReadProcess;
  }

  /** A Run without a prepared record is never fenced by any continuation that does not prepare it, power
      losses and restarts included. */
  lemma {:induction false} NeverPreparedNeverFenced(s: Proc, moves: seq<Move>, m: Move, identity: Identity)
    requires NeverPrepared(s) && !m.Prepare? && forall i :: 0 <= i < |moves| ==> !moves[i].Prepare?
    ensures NeverPrepared(RunProc(s, moves)) && !Succeeds(RunProc(s, moves), m, identity)
    decreases |moves|
  {
    hide NeverPrepared, StepProc, Succeeds;
    if moves != [] {
      var before := moves[..|moves| - 1];
      NeverPreparedNeverFenced(s, before, moves[|moves| - 1], identity);
      NeverPreparedStep(RunProc(s, before), moves[|moves| - 1], identity);
    }
    NeverPreparedStep(RunProc(s, moves), m, identity);
  }
}
