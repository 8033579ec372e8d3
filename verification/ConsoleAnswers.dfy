/**
 What each section of the Console service leaves behind, field by field: when exactly
 a Bridge worker is started, and what the user is shown.
 */
module ConsoleAnswers {
  import opened Options
  import opened Console

  /** One more worker, the current one, on a fresh channel; the Bridge is shown as running and connecting. */
  ghost function Launched(s: Svc): (t: Svc)
  {
    s.(workers := s.workers[s.nextWorker := s.bridgeEpoch + 1], nextWorker := s.nextWorker + 1,
       bridgeWorkers := s.bridgeWorkers + 1, bridgeEpoch := s.bridgeEpoch + 1, bridgeDone := Some(s.nextWorker),
       bridgeCancel := true, restartPending := false,
       pub := s.pub.(running := true, phase := Running, connection := ConnectionConnecting))
  }

  ghost function Shown(s: Svc, phase: Phase): (t: Svc)
  {
    s.(pub := s.pub.(phase := phase))
  }

  /** Without a Bridge: ready if configured, otherwise still to be set up. */
  ghost function RestPhase(s: Svc): (phase: Phase)
  {
    if s.pub.running then Running else if s.pub.configured then Ready else Setup
  }

  /** The current Bridge is told to end and shown as stopped; its worker is not waited for. */
  ghost function Halted(s: Svc): (t: Svc)
  {
    s.(bridgeEpoch := s.bridgeEpoch + 1, bridgeCancel := false,
       pub := s.pub.(running := false, connection := ConnectionStopped))
  }

  /** Everything a Bridge needs is there and nothing forbids it. */
  ghost predicate MayLaunch(s: Svc)
  {
    !s.closed && !s.joinCancel && !s.governedMutation && s.pub.configuration.Some? && s.pub.credential.Some?
  }

  /** StartBridge starts a worker exactly when none runs or winds down, nothing forbids it, and the inspection
      of the owner state succeeds. */
  lemma StartAnswer(s: Svc, inspect: bool)
    ensures var t := StepSvc(s, StartBridge(inspect));
      t == if s.closed || s.bridgeCancel || s.bridgeDone.Some? then s
           else if MayLaunch(s) && inspect then Launched(s)
           else s.(restartPending := false)
  {
  }

  /** Stop and, during an enrollment, nothing. */
  lemma StopAnswer(s: Svc)
    ensures StepSvc(s, StopBridge) ==
      if s.joinCancel then s
      else var h := Halted(s).(restartPending := false); Shown(h, if s.pub.configured then Ready else Setup)
  {
  }

  /** Close cancels the enrollment, stops the Bridge and takes the owner lock away to release it later. */
  lemma CloseAnswer(s: Svc)
    ensures var t := StepSvc(s, CloseService);
      var h := Shown(Halted(s), if s.pub.configured then Ready else Setup);
      && t == h.(closed := true, owner := None, joinCancel := false, joinEpoch := s.joinEpoch + 1,
                 restartPending := false, closers := s.closers + {Closer(s.bridgeDone, s.owner)},
                 enrollments := t.enrollments)
      && t.enrollments.Keys == s.enrollments.Keys
      && forall e :: e in s.enrollments ==>
           (t.enrollments[e] <==> s.enrollments[e] && !(s.joinCancel && e == s.joinEpoch))
  {
  }

  /** A worker's own bookkeeping when it leaves. */
  ghost function Departed(s: Svc, worker: nat): (t: Svc)
  {
    s.(bridgeWorkers := s.bridgeWorkers - 1, workers := s.workers - {worker}, leaving := s.leaving + {worker},
       bridgeDone := if s.bridgeDone == Some(worker) then None else s.bridgeDone)
  }

  /** A worker that is not the current one only leaves. The current one ends the Bridge; an error is shown; a
      changed configuration starts the next worker with the reloaded credential, exactly when that is allowed. */
  lemma ExitAnswer(s: Svc, worker: nat, exit: Exit, reload: Option<nat>, inspect: bool)
    requires worker in s.workers
    ensures var t := StepSvc(s, WorkerExit(worker, exit, reload, inspect));
      var left := Departed(s, worker);
      var ended := left.(bridgeCancel := false, pub := s.pub.(running := false, connection := ConnectionStopped));
      var credential := if s.pub.configuration.Some? then reload else s.pub.credential;
      var ready := Shown(ended.(pub := ended.pub.(credential := credential)), Ready);
      t == if s.workers[worker] != s.bridgeEpoch then left
           else if exit == ExitClean then Shown(ended, Ready)
           else if exit == ExitError || (s.pub.configuration.Some? && reload.None?) then Shown(ended, Failing)
           else if MayLaunch(ready) && inspect then Launched(ready)
           else Shown(ready, Failing)
  {
  }

  /** A replaced configuration halts the Bridge and leaves a restart behind exactly when one ran or was due. */
  lemma ReplaceAnswer(s: Svc, configuration: nat, idle: bool, viewOk: bool)
    ensures var t := StepSvc(s, ReplaceConfiguration(configuration, idle, viewOk));
      var allowed := !s.closed && s.pub.configuration.Some? && s.pub.credential.Some? && !s.joinCancel && idle;
      var h := Halted(s); var halted := h.(pub := h.pub.(configuration := Some(configuration)));
      t == if !allowed then s
           else if !viewOk then Shown(halted, Failing)
           else if !s.bridgeCancel && !s.restartPending then Shown(halted, Ready)
           else Shown(halted, Ready).(restartPending := true,
                                      restarts := s.restarts + {Restart(s.bridgeDone, s.bridgeEpoch + 1)})
  {
  }

  /** The restart after a configuration change starts a worker exactly when it is still due for this epoch,
      nothing forbids it and the inspection succeeds. */
  lemma RestartAnswer(s: Svc, r: Restart, inspect: bool)
    requires r in s.restarts && Waited(s, r.stopped)
    ensures var t := StepSvc(s, RestartAfterWorker(r, inspect));
      var gone := s.(restarts := s.restarts - {r});
      var due := && s.bridgeEpoch == r.epoch && s.restartPending && !s.bridgeCancel && !s.joinCancel && !s.closed
                 && s.pub.configuration.Some? && s.pub.credential.Some?;
      var ready := gone.(restartPending := false, bridgeDone := if s.bridgeDone == r.stopped then None
          else s.bridgeDone);
      t == if !due then gone
           else if !s.governedMutation && inspect then Launched(ready)
           else Shown(ready, Failing)
  {
  }

  /** An enrollment begins, with a new epoch, exactly when nothing blocks it. */
  lemma EnrollAnswer(s: Svc, idle: bool)
    ensures StepSvc(s, BeginEnrollment(idle)) ==
      if s.closed || s.joinCancel || s.bridgeCancel || s.bridgeWorkers > 0 || !idle then s
      else
        Shown(s, Joining).(joinCancel := true, joinEpoch := s.joinEpoch + 1,
                           enrollments := s.enrollments[s.joinEpoch + 1 := true])
  {
  }

  /** An enrollment that is no longer the live one changes nothing. A canceled one returns to rest, a failed one
      is shown and keeps what was saved, an approved one installs its identity and its owner lock and starts the
      Bridge exactly when no governed mutation is under way and the inspection succeeds. */
  lemma EnrolledAnswer(s: Svc, epoch: nat, result: Enrolled, newOwner: Option<nat>, inspect: bool)
    requires ReachableSvc(s) && epoch in s.enrollments
    ensures var t := StepSvc(s, FinishEnrollment(epoch, result, newOwner, inspect));
      var gone := s.(enrollments := s.enrollments - {epoch});
      var over := gone.(joinCancel := false);
      if epoch != s.joinEpoch || !s.enrollments[epoch] then t == gone
      else match result
        case EnrollCanceled => t == Shown(over, RestPhase(s))
        case EnrollFailed(None) => t == Shown(over, Failing)
        case EnrollFailed(Some(saved)) =>
          t == Shown(over.(pub := s.pub.(configuration := Some(saved), configured := true)), Failing)
        case Approved(configuration, credential) =>
          var identity := s.pub.(configuration := Some(configuration), credential := Some(credential),
              configured := true);
          var ready := Shown(over.(owner := if newOwner.Some? then newOwner else s.owner, pub := identity), Ready);
          t == if !s.governedMutation && inspect then Launched(ready) else Shown(ready, Failing)
  {
    if epoch == s.joinEpoch && s.enrollments[epoch] {
      EnrollingMeansFree(s, epoch);
    }
    hide ReachableSvc;
  }

  lemma EnrollingMeansFree(s: Svc, epoch: nat)
    requires ReachableSvc(s) && epoch in s.enrollments && epoch == s.joinEpoch && s.enrollments[epoch]
    ensures s.joinCancel && !s.bridgeCancel && !s.closed
  {
    ReachableSvcInv(s);
    hide WorkersOk, InFlightOk;
  }

  /** Canceling ends the live enrollment and no other, and returns to rest. */
  lemma CancelAnswer(s: Svc)
    ensures var t := StepSvc(s, CancelEnrollment);
      && t == Shown(s, RestPhase(s)).(joinCancel := false, joinEpoch := s.joinEpoch + 1, enrollments := t.enrollments)
      && t.enrollments.Keys == s.enrollments.Keys
      && forall e :: e in s.enrollments ==>
           (t.enrollments[e] <==> s.enrollments[e] && !(s.joinCancel && e == s.joinEpoch))
  {
  }

  /** Only the current epoch's observer and the live enrollment's challenge are heard. */
  lemma HeardAnswer(s: Svc, epoch: nat, connection: Connection)
    ensures StepSvc(s, Observe(epoch, connection)) ==
      if epoch == s.bridgeEpoch then s.(pub := s.pub.(connection := connection)) else s
    ensures StepSvc(s, Challenge(epoch)) ==
      if epoch == s.joinEpoch && s.joinCancel && epoch in s.enrollments && s.enrollments[epoch] then Shown(s, Approval)
          else s
  {
  }

  /** Channels: closed by a worker that has left, forgotten once closed, and awaited before the owner is released. */
  lemma ChannelAnswer(s: Svc, worker: nat, c: Closer)
    ensures StepSvc(s, CloseDone(worker)) ==
      if worker in s.leaving then s.(leaving := s.leaving - {worker}, finished := s.finished + {worker}) else s
    ensures StepSvc(s, ReapDone(worker)) ==
      if worker in s.finished && s.bridgeDone == Some(worker) then s.(bridgeDone := None) else s
    ensures StepSvc(s, ReleaseOwner(c)) ==
      if c in s.closers && (c.done.None? || c.done.value in s.finished) then s.(closers := s.closers - {c}) else s
  {
  }

  // ---------- when a Bridge can come to run ----------

  /** The awaited channel is that of a live worker. */
  ghost predicate DoneIsLive(s: Svc)
  {
    s.bridgeDone.Some? ==> s.bridgeDone.value in s.workers
  }

  lemma StartKeepsDone(s: Svc, inspect: bool)
    requires DoneIsLive(s)
    ensures DoneIsLive(StartLocked(s, inspect).0) && DoneIsLive(StartOrFail(s, inspect))
  {
  }

  lemma ExitKeepsDone(s: Svc, worker: nat, exit: Exit, reload: Option<nat>, inspect: bool)
    requires DoneIsLive(s)
    ensures DoneIsLive(StepWorkerExit(s, worker, exit, reload, inspect))
  {
    if worker in s.workers {
      ExitAnswer(s, worker, exit, reload, inspect);
      hide StepWorkerExit;
    }
  }

  lemma RestartKeepsDone(s: Svc, r: Restart, inspect: bool)
    requires DoneIsLive(s)
    ensures DoneIsLive(StepRestart(s, r, inspect))
  {
    hide StartOrFail;
    var ready := s.(restarts := s.restarts - {r}, restartPending := false,
                    bridgeDone := if s.bridgeDone == r.stopped then None else s.bridgeDone);
    StartKeepsDone(ready, inspect);
  }

  lemma EnrolledKeepsDone(s: Svc, epoch: nat, result: Enrolled, newOwner: Option<nat>, inspect: bool)
    requires DoneIsLive(s)
    ensures DoneIsLive(StepFinishEnrollment(s, epoch, result, newOwner, inspect))
  {
    hide StartOrFail;
    if epoch in s.enrollments && result.Approved? {
      var u := s.(enrollments := s.enrollments - {epoch}, joinCancel := false);
      StartKeepsDone(u.(owner := if newOwner.Some? then newOwner else u.owner,
                        pub := u.pub.(configuration := Some(result.configuration),
                                      credential := Some(result.credential), configured := true, phase := Ready)),
                     inspect);
    }
  }

  lemma StepKeepsDone(s: Svc, a: Section)
    requires DoneIsLive(s)
    ensures DoneIsLive(StepSvc(s, a))
  {
    hide StartLocked, StepWorkerExit, StepRestart, StepFinishEnrollment;
    match a {
      case StartBridge(inspect) => StartKeepsDone(s.(restartPending := false), inspect);
      case WorkerExit(w, exit, reload, inspect) => ExitKeepsDone(s, w, exit, reload, inspect);
      case RestartAfterWorker(r, inspect) => RestartKeepsDone(s, r, inspect);
      case FinishEnrollment(e, result, newOwner, inspect) => EnrolledKeepsDone(s, e, result, newOwner, inspect);
      case _ =>
    }
  }

  lemma {:induction false} RunKeepsDone(s: Svc, sections: seq<Section>)
    requires DoneIsLive(s)
    ensures DoneIsLive(RunSvc(s, sections))
    decreases |sections|
  {
    hide StepSvc, DoneIsLive;
    if sections != [] {
      RunKeepsDone(s, sections[..|sections| - 1]);
      StepKeepsDone(RunSvc(s, sections[..|sections| - 1]), sections[|sections| - 1]);
    }
  }

  lemma ReachableDone(s: Svc)
    requires ReachableSvc(s)
    ensures DoneIsLive(s)
  {
    var configuration: Option<nat>, credential: Option<nat>, owner: Option<nat>, sections: seq<Section> :|
      s == RunSvc(InitSvc(configuration, credential, owner), sections);
    RunKeepsDone(InitSvc(configuration, credential, owner), sections);
  }

  /** Starts, stops, restarts, and workers that leave on their own: nothing that changes the identity, enrolls,
      closes, or toggles a governed mutation. */
  predicate Ordinary(a: Section)
  {
    || a.StartBridge? || a.StopBridge? || a.RestartAfterWorker? || a.CloseDone? || a.ReapDone? || a.Observe?
    || (a.WorkerExit? && a.exit != ConfigurationChanged)
  }

  ghost predicate CanRun(s: Svc)
  {
    exists sections: seq<Section> ::
      (forall i :: 0 <= i < |sections| ==> Ordinary(sections[i])) && RunSvc(s, sections).bridgeCancel
  }

  lemma ExitStaysBarred(s: Svc, w: nat, exit: Exit, reload: Option<nat>, inspect: bool)
    requires exit != ConfigurationChanged && !MayLaunch(s) && !s.bridgeCancel
    ensures var t := StepWorkerExit(s, w, exit, reload, inspect); !MayLaunch(t) && !t.bridgeCancel
  {
    if w in s.workers {
      ExitAnswer(s, w, exit, reload, inspect);
      hide StepWorkerExit;
    }
  }

  lemma RestartStaysBarred(s: Svc, r: Restart, inspect: bool)
    requires !MayLaunch(s) && !s.bridgeCancel
    ensures var t := StepRestart(s, r, inspect); !MayLaunch(t) && !t.bridgeCancel
  {
  }

  lemma OrdinaryStaysBarred(s: Svc, a: Section)
    requires Ordinary(a) && !MayLaunch(s) && !s.bridgeCancel
    ensures !MayLaunch(StepSvc(s, a)) && !StepSvc(s, a).bridgeCancel
  {
    hide StepWorkerExit, StepRestart;
    match a {
      case WorkerExit(w, exit, reload, inspect) => ExitStaysBarred(s, w, exit, reload, inspect);
      case RestartAfterWorker(r, inspect) => RestartStaysBarred(s, r, inspect);
      case _ =>
    }
  }

  lemma {:induction false} OrdinaryRunStaysBarred(s: Svc, sections: seq<Section>)
    requires (forall i :: 0 <= i < |sections| ==> Ordinary(sections[i])) && !MayLaunch(s) && !s.bridgeCancel
    ensures !MayLaunch(RunSvc(s, sections)) && !RunSvc(s, sections).bridgeCancel
    decreases |sections|
  {
    hide StepSvc, MayLaunch;
    if sections != [] {
      OrdinaryRunStaysBarred(s, sections[..|sections| - 1]);
      OrdinaryStaysBarred(RunSvc(s, sections[..|sections| - 1]), sections[|sections| - 1]);
    }
  }

  /** The way to a running Bridge: the worker that winds down leaves, then one start. */
  lemma RunsAfterWindingDown(s: Svc)
    requires DoneIsLive(s) && MayLaunch(s) && !s.bridgeCancel && s.bridgeDone.Some?
    ensures CanRun(s)
  {
    var leave, start := WorkerExit(s.bridgeDone.value, ExitClean, None, true), StartBridge(true);
    ExitAnswer(s, s.bridgeDone.value, ExitClean, None, true);
    var left := StepSvc(s, leave);
    assert left.bridgeDone.None? && MayLaunch(left) && !left.bridgeCancel;
    StartAnswer(left, true);
    hide StepSvc, MayLaunch;
    var sections := [leave, start];
    assert sections[..1] == [leave] && [leave][..0] == [];
    assert RunSvc(s, []) == s;
    assert RunSvc(s, [leave]) == left;
    assert RunSvc(s, sections) == StepSvc(left, start);
  }

  lemma RunsAtOnce(s: Svc)
    requires MayLaunch(s) && !s.bridgeCancel && s.bridgeDone.None?
    ensures CanRun(s)
  {
    StartAnswer(s, true);
    assert StepSvc(s, StartBridge(true)).bridgeCancel;
    hide StepSvc, MayLaunch;
    var sections := [StartBridge(true)];
    assert sections[..0] == [] && RunSvc(s, []) == s;
    assert RunSvc(s, sections) == StepSvc(s, StartBridge(true));
  }

  /** In every reachable state without a running Bridge, starts, stops, restarts and leaving workers can bring one
      up if and only if the service is open, not enrolling, without a governed mutation, and has its
      configuration and credential: no state is stuck, and nothing else starts one. */
  lemma CanRunIff(s: Svc)
    requires ReachableSvc(s) && !s.bridgeCancel
    ensures CanRun(s) <==> MayLaunch(s)
  {
    hide MayLaunch;
    if MayLaunch(s) {
      ReachableDone(s);
      if s.bridgeDone.Some? {
        RunsAfterWindingDown(s);
      } else {
        RunsAtOnce(s);
      }
    } else if sections: seq<Section> :|
        (forall i :: 0 <= i < |sections| ==> Ordinary(sections[i])) && RunSvc(s, sections).bridgeCancel {
      OrdinaryRunStaysBarred(s, sections);
    }
  }
}
