/**
 The Console service object. Its methods are the sections of its mutex. The ghost
 field `model` is the lifecycle state that goes with the fields: every method takes
 the section of its name, so whatever holds of all reachable lifecycle states holds
 of the object after any sequence of calls.
 */
module ConsoleService {
  import opened Options
  import opened Console
  import opened ConsoleAnswers

  function StoppedView(p: Public): (q: Public)
  {
    p.(running := false, connection := ConnectionStopped, phase := PhaseFor(p.configured, false))
  }

  /** Ready with the reloaded credential of a configured service. */
  function Reloaded(p: Public, reload: Option<nat>): (q: Public)
  {
    p.(phase := Ready, credential := if p.configuration.Some? then reload else p.credential)
  }

  lemma SectionReachable(s: Svc, a: Section)
    requires ReachableSvc(s)
    ensures ReachableSvc(StepSvc(s, a))
  {
    hide StepSvc, InitSvc;
    var configuration: Option<nat>, credential: Option<nat>, owner: Option<nat>, sections: seq<Section> :|
      s == RunSvc(InitSvc(configuration, credential, owner), sections);
    assert (sections + [a])[..|sections|] == sections;
    assert RunSvc(InitSvc(configuration, credential, owner), sections + [a]) == StepSvc(s, a);
  }

  lemma FirstSection(configuration: Option<nat>, credential: Option<nat>, owner: Option<nat>)
    ensures ReachableSvc(InitSvc(configuration, credential, owner))
  {
    assert RunSvc(InitSvc(configuration, credential, owner), []) == InitSvc(configuration, credential, owner);
  }

  class Service {
    var pub: Public
    var closed: bool
    var joinCancel: bool
    var joinEpoch: nat
    var bridgeCancel: bool
    var bridgeDone: Option<nat>
    var bridgeEpoch: nat
    var bridgeWorkers: int
    var restartPending: bool
    var governedMutation: bool
    var owner: Option<nat>
    ghost var model: Svc

    /** The lifecycle state `s` has the service's own fields. */
    predicate Shows(s: Svc)
      reads this`pub, this`closed, this`joinCancel, this`joinEpoch, this`bridgeCancel, this`bridgeDone, this`bridgeEpoch
      reads this`bridgeWorkers, this`restartPending, this`governedMutation, this`owner
    {
      && s.pub == pub && s.closed == closed && s.joinCancel == joinCancel && s.joinEpoch == joinEpoch
      && s.bridgeCancel == bridgeCancel && s.bridgeDone == bridgeDone && s.bridgeEpoch == bridgeEpoch
      && s.bridgeWorkers == bridgeWorkers && s.restartPending == restartPending
      && s.governedMutation == governedMutation && s.owner == owner
    }

    ghost predicate Valid()
      reads this
    {
      ReachableSvc(model) && Shows(model)
    }

    constructor (configuration: Option<nat>, credential: Option<nat>, initialOwner: Option<nat>)
      ensures Valid() && model == InitSvc(configuration, credential, initialOwner)
    {
      pub := Public(PhaseFor(configuration.Some?, false), ConnectionStopped, false, configuration.Some?, configuration,
          credential);
      closed, joinCancel, joinEpoch := false, false, 0;
      bridgeCancel, bridgeDone, bridgeEpoch, bridgeWorkers := false, None, 0, 0;
      restartPending, governedMutation, owner := false, false, initialOwner;
      model := InitSvc(configuration, credential, initialOwner);
      FirstSection(configuration, credential, initialOwner);
    }

    // ---------- what every sequence of calls keeps ----------

    /** The counter never exceeds one worker; it is zero while an enrollment is active, and one while the
        Bridge is running. */
    lemma WorkersBounded()
      requires Valid()
      ensures 0 <= bridgeWorkers <= 1
      ensures joinCancel ==> bridgeWorkers == 0 && !bridgeCancel
      ensures bridgeCancel ==> bridgeWorkers == 1 && bridgeDone.Some?
    {
      ReachableSvcInv(model);
      hide InFlightOk;
      if w :| w in model.workers {
        AtMostOneWorker(model, w, w);
      } else {
        assert model.workers == map[];
      }
    }

    lemma EpochsShown(s: Svc)
      requires Shows(s)
      ensures bridgeEpoch == s.bridgeEpoch && joinEpoch == s.joinEpoch && joinCancel == s.joinCancel && owner == s.owner
      ensures forall enrollments :: Shows(s.(enrollments := enrollments))
    {
    }

    // ---------- parts of sections ----------

    /** `done` is the fresh channel of the worker that may be started. */
    method StartBridgeLocked(done: nat, inspect: bool) returns (ok: bool)
      modifies this
      ensures model == old(model)
      ensures forall s :: old(Shows(s)) && s.nextWorker == done ==>
        Shows(StartLocked(s, inspect).0) && StartLocked(s, inspect).1 == ok
      ensures var may := && !old(closed) && !old(joinCancel) && !old(governedMutation)
                         && old(pub).configuration.Some? && old(pub).credential.Some?;
        var running := !old(closed) && !old(joinCancel) && !old(governedMutation) && old(bridgeCancel);
        && (ok <==> running || (may && !old(bridgeCancel) && inspect))
        && (if may && !old(bridgeCancel) && inspect then
              && bridgeCancel && bridgeDone == Some(done) && !restartPending && bridgeEpoch == old(bridgeEpoch) + 1
              && bridgeWorkers == old(bridgeWorkers) + 1
              && pub == old(pub).(running := true, phase := Running, connection := ConnectionConnecting)
            else
              && bridgeCancel == old(bridgeCancel) && bridgeDone == old(bridgeDone) && pub == old(pub)
              && restartPending == old(restartPending) && bridgeEpoch == old(bridgeEpoch)
              && bridgeWorkers == old(bridgeWorkers))
    {
      if closed || joinCancel || governedMutation {
        return false;
      }
      if bridgeCancel {
        return true;
      }
      if pub.configuration.None? || pub.credential.None? || !inspect {
        return false;
      }
      bridgeEpoch := bridgeEpoch + 1;
      bridgeCancel, bridgeDone, restartPending := true, Some(done), false;
      bridgeWorkers := bridgeWorkers + 1;
      pub := pub.(running := true, phase := Running, connection := ConnectionConnecting);
      return true;
    }

    /** Start, and show the failure in the phase. */
    method StartOrShowFailure(done: nat, inspect: bool)
      modifies this
      ensures model == old(model)
      ensures forall s :: old(Shows(s)) && s.nextWorker == done ==> Shows(StartOrFail(s, inspect))
    {
      var ok := StartBridgeLocked(done, inspect);
      if !ok {
        pub := pub.(phase := Failing);
      }
    }

    method StopBridgeLocked() returns (done: Option<nat>)
      modifies this`bridgeEpoch, this`bridgeCancel, this`restartPending, this`pub
      ensures done == if joinCancel then None else bridgeDone
      ensures joinCancel ==> pub == old(pub) && bridgeEpoch == old(bridgeEpoch)
                             && bridgeCancel == old(bridgeCancel) && restartPending == old(restartPending)
      ensures !joinCancel ==> pub == StoppedView(old(pub)) && bridgeEpoch == old(bridgeEpoch) + 1
                              && !bridgeCancel && !restartPending
    {
      if joinCancel {
        return None;
      }
      bridgeEpoch := bridgeEpoch + 1;
      bridgeCancel, restartPending := false, false;
      pub := pub.(running := false, connection := ConnectionStopped);
      pub := pub.(phase := PhaseFor(pub.configured, false));
      done := bridgeDone;
    }

    method TakeReloaded(reload: Option<nat>)
      modifies this`pub
      ensures pub == Reloaded(old(pub), reload)
      ensures forall s :: old(Shows(s)) ==> Shows(s.(pub := Reloaded(s.pub, reload))) && s.pub == old(pub)
    {
      pub := Reloaded(pub, reload);
    }

    /** The worker ended because its configuration changed. */
    method RestartInWorker(reload: Option<nat>, done: nat, inspect: bool)
      modifies this
      ensures model == old(model)
      ensures forall s :: old(Shows(s)) && s.nextWorker == done ==>
        Shows(AfterExit(s, ConfigurationChanged, reload, inspect))
    {
      hide StartOrFail;
      if pub.configuration.Some? && reload.None? {
        pub := pub.(phase := Failing);
        return;
      }
      TakeReloaded(reload);
      hide Shows;
      StartOrShowFailure(done, inspect);
    }

    /** What follows the exit of the current worker. */
    method FollowExit(exit: Exit, reload: Option<nat>, done: nat, inspect: bool)
      modifies this
      ensures model == old(model)
      ensures forall s :: old(Shows(s)) && s.nextWorker == done ==> Shows(AfterExit(s, exit, reload, inspect))
    {
      hide StartOrFail;
      match exit {
        case ConfigurationChanged => RestartInWorker(reload, done, inspect);
        case ExitError => pub := pub.(phase := Failing);
        case ExitClean => pub := pub.(phase := Ready);
      }
    }

    /** A worker's own bookkeeping; only the current worker also gives up the Bridge. */
    method LeaveBookkeeping(mine: nat, epoch: nat)
      modifies this
      ensures model == old(model)
      ensures forall s :: old(Shows(s)) ==>
        Shows(Left(s, mine, epoch)) && Left(s, mine, epoch).nextWorker == s.nextWorker
    {
      bridgeWorkers := bridgeWorkers - 1;
      if bridgeDone == Some(mine) {
        bridgeDone := None;
      }
      if bridgeEpoch != epoch {
        return;
      }
      bridgeCancel := false;
      pub := pub.(running := false, connection := ConnectionStopped);
    }

    method DeclineEnrollment(epoch: nat, result: Enrolled)
      requires !result.Approved?
      modifies this
      ensures model == old(model)
      ensures forall s :: old(Shows(s)) ==> Shows(Declined(s, epoch, result))
    {
      joinCancel := false;
      if result.EnrollCanceled? {
        pub := pub.(phase := PhaseFor(pub.configured, pub.running));
        return;
      }
      if result.saved.Some? {
        pub := pub.(configuration := result.saved, configured := true);
      }
      pub := pub.(phase := Failing);
    }

    /** Close's updates: the enrollment is cancelled first, so the stop always takes effect. */
    method CloseFields() returns (closer: Closer)
      modifies this
      ensures model == old(model) && closer == Closer(old(bridgeDone), old(owner)) && owner.None? && closed
      ensures forall s :: old(Shows(s)) ==> Shows(ClosedState(s))
    {
      closed := true;
      var mine := owner;
      owner := None;
      if joinCancel {
        joinCancel := false;
      }
      joinEpoch := joinEpoch + 1;
      var done := StopBridgeLocked();
      closer := Closer(done, mine);
    }

    /** `spawned` is the restart goroutine these updates leave behind. */
    method ApplyReplacedConfigurationLocked(configuration: nat, viewOk: bool) returns (spawned: Option<Restart>)
      requires !closed && pub.configuration.Some? && pub.credential.Some? && !joinCancel
      modifies this
      ensures model == old(model)
      ensures forall s :: old(Shows(s)) ==>
        && Shows(StepReplace(s, configuration, true, viewOk))
        && StepReplace(s, configuration, true, viewOk).restarts == s.restarts + if spawned.Some? then {spawned.value}
            else {}
    {
      var wasRunning := bridgeCancel || restartPending;
      var stopped := bridgeDone;
      bridgeEpoch := bridgeEpoch + 1;
      bridgeCancel := false;
      pub := pub.(running := false, connection := ConnectionStopped, configuration := Some(configuration));
      if !viewOk {
        pub := pub.(phase := Failing);
        return None;
      }
      pub := pub.(phase := Ready);
      if !wasRunning {
        return None;
      }
      restartPending := true;
      spawned := Some(Restart(stopped, bridgeEpoch));
    }

    // ---------- the sections ----------

    /** One turn of StartBridge's loop; `again` names the channel it must wait for first. */
    method StartBridgeTurn(done: nat, inspect: bool) returns (again: Option<nat>)
      requires Valid() && done == model.nextWorker
      modifies this
      ensures Valid() && model == StepSvc(old(model), StartBridge(inspect))
      ensures again == if old(closed || bridgeCancel) then None else old(bridgeDone)
      ensures var starts := && !old(closed) && !old(bridgeCancel) && old(bridgeDone).None? && !old(joinCancel)
                            && !old(governedMutation) && old(pub).configuration.Some? && old(pub).credential.Some?
                            && inspect;
        && (starts ==> model == Launched(old(model)))
        && (!starts ==> model.workers == old(model).workers && bridgeWorkers == old(bridgeWorkers) && pub == old(pub))
    {
      StartAnswer(model, inspect);
      hide ReachableSvc;
      SectionReachable(model, StartBridge(inspect));
      again := None;
      if !closed && !bridgeCancel {
        again := bridgeDone;
        if again.None? {
          restartPending := false;
          assert Shows(model.(restartPending := false));
          var _ := StartBridgeLocked(done, inspect);
        }
      }
      model := StepSvc(model, StartBridge(inspect));
    }

    method StopBridge() returns (done: Option<nat>)
      requires Valid()
      modifies this
      ensures Valid() && model == StepSvc(old(model), Section.StopBridge)
      ensures done == if old(joinCancel) then None else old(bridgeDone)
      ensures !old(joinCancel) ==> !bridgeCancel
    {
      hide ReachableSvc;
      SectionReachable(model, Section.StopBridge);
      done := StopBridgeLocked();
      model := StepSvc(model, Section.StopBridge);
    }

    /** Close up to the wait: it yields the channel to wait for and the owner lock to release after it. */
    method Close() returns (closer: Closer)
      requires Valid()
      modifies this
      ensures Valid() && model == StepSvc(old(model), CloseService) && closed
      ensures closer == Closer(old(bridgeDone), old(owner)) && owner.None? && closer in model.closers
    {
      SectionReachable(model, CloseService);
      CloseComposes(model);
      hide ReachableSvc, StepSvc;
      closer := CloseFields();
      model := StepSvc(model, CloseService);
    }

    /** After the awaited channel is closed, Close releases the owner lock it took: no worker is live. */
    method ReleaseOwnerAfterWait(closer: Closer)
      requires Valid() && closer in model.closers && Waited(model, closer.done)
      modifies this`model
      ensures Valid() && model == StepSvc(old(model), ReleaseOwner(closer)) && bridgeWorkers == 0
    {
      var s := ReleaseOwner(closer);
      SectionReachable(model, s);
      ReachableSvcInv(model);
      WaitedMeansIdle(model, closer);
      hide ReachableSvc;
      model := StepSvc(model, s);
    }

    /** The section in which the worker with this channel and epoch leaves. */
    method WorkerLeaves(mine: nat, epoch: nat, exit: Exit, reload: Option<nat>, done: nat, inspect: bool)
      requires Valid() && done == model.nextWorker && mine in model.workers && model.workers[mine] == epoch
      modifies this
      ensures Valid() && model == StepSvc(old(model), WorkerExit(mine, exit, reload, inspect))
    {
      ghost var a := WorkerExit(mine, exit, reload, inspect);
      hide ReachableSvc, AfterExit, StepSvc, Left, Shows;
      SectionReachable(model, a);
      LeftThenFollows(model, mine, epoch, exit, reload, inspect);
      EpochsShown(model);
      var current := bridgeEpoch == epoch;
      LeaveBookkeeping(mine, epoch);
      if current {
        FollowExit(exit, reload, done, inspect);
      }
      model := StepSvc(model, a);
    }

    /** waitForBridgeWorker after the channel is closed. */
    method ReapWorker(mine: nat)
      requires Valid() && mine in model.finished
      modifies this
      ensures Valid() && model == StepSvc(old(model), ReapDone(mine))
    {
      hide ReachableSvc;
      SectionReachable(model, ReapDone(mine));
      if bridgeDone == Some(mine) {
        bridgeDone := None;
      }
      model := StepSvc(model, ReapDone(mine));
    }

    /** `idle`: no runtime test runs and no replacement is blocked by it. `spawned` is the restart
        goroutine this section leaves behind. */
    method ReplaceConfigurationLocked(configuration: nat, idle: bool, viewOk: bool) returns (spawned: Option<Restart>)
      requires Valid()
      modifies this
      ensures Valid() && model == StepSvc(old(model), ReplaceConfiguration(configuration, idle, viewOk))
      ensures model.restarts == old(model).restarts + if spawned.Some? then {spawned.value} else {}
    {
      ghost var a := ReplaceConfiguration(configuration, idle, viewOk);
      SectionReachable(model, a);
      ReplaceGuard(model, configuration, idle, viewOk);
      hide ReachableSvc, StepReplace;
      spawned := None;
      if !closed && pub.configuration.Some? && pub.credential.Some? && !joinCancel && idle {
        spawned := ApplyReplacedConfigurationLocked(configuration, viewOk);
      }
      model := StepSvc(model, a);
    }

    /** After the channel it waits for is closed. */
    method RestartBridgeAfterWorker(r: Restart, done: nat, inspect: bool)
      requires Valid() && done == model.nextWorker && r in model.restarts && Waited(model, r.stopped)
      modifies this
      ensures Valid() && model == StepSvc(old(model), RestartAfterWorker(r, inspect))
    {
      ghost var a := RestartAfterWorker(r, inspect);
      hide ReachableSvc, StartOrFail;
      SectionReachable(model, a);
      if bridgeEpoch == r.epoch && restartPending && !bridgeCancel && !joinCancel && !closed
         && pub.configuration.Some? && pub.credential.Some? {
        restartPending := false;
        if bridgeDone == r.stopped {
          bridgeDone := None;
        }
        assert Shows(model.(restarts := model.restarts - {r}, restartPending := false,
                            bridgeDone := if model.bridgeDone == r.stopped then None else model.bridgeDone));
        StartOrShowFailure(done, inspect);
      }
      model := StepSvc(model, a);
    }

    /** An enrollment begins unless something blocks it; no worker is live while it is active. */
    method BeginEnroll(idle: bool) returns (epoch: Option<nat>)
      requires Valid()
      modifies this
      ensures Valid() && model == StepSvc(old(model), BeginEnrollment(idle))
      ensures epoch == if old(closed || joinCancel || bridgeCancel || bridgeWorkers > 0) || !idle then None
        else Some(joinEpoch)
      ensures epoch.Some? ==> joinCancel && bridgeWorkers == 0
    {
      SectionReachable(model, BeginEnrollment(idle));
      WorkersBounded();
      hide ReachableSvc;
      epoch := None;
      if !closed && !joinCancel && !bridgeCancel && bridgeWorkers <= 0 && idle {
        joinCancel := true;
        joinEpoch := joinEpoch + 1;
        pub := pub.(phase := Joining);
        epoch := Some(joinEpoch);
      }
      model := StepSvc(model, BeginEnrollment(idle));
    }

    /** `alive`: the enrollment's context has not ended. */
    method FinishEnroll(epoch: nat, alive: bool, result: Enrolled, newOwner: Option<nat>, done: nat, inspect: bool)
      requires Valid() && done == model.nextWorker && epoch in model.enrollments && model.enrollments[epoch] == alive
      modifies this
      ensures Valid() && model == StepSvc(old(model), FinishEnrollment(epoch, result, newOwner, inspect))
      ensures owner != old(owner) ==> old(bridgeWorkers) == 0
    {
      ghost var a := FinishEnrollment(epoch, result, newOwner, inspect);
      hide ReachableSvc, StartOrFail, StepSvc, Declined, Installed, Shows;
      SectionReachable(model, a);
      WorkersBounded();
      FinishedEnrollment(model, epoch, result, newOwner, inspect);
      OwnerOnlyWhenCurrent(model, epoch, result, newOwner, inspect);
      EpochsShown(model);
      var current := joinEpoch == epoch && alive;
      if current {
        if result.Approved? {
          InstallAndStart(epoch, result.configuration, result.credential, newOwner, done, inspect);
        } else {
          DeclineEnrollment(epoch, result);
        }
      }
      model := StepSvc(model, a);
      EpochsShown(model);
    }

    /** An approved enrollment: take over the identity and the owner lock, then start the Bridge. */
    method InstallAndStart(epoch: nat, configuration: nat, credential: nat, newOwner: Option<nat>, done: nat,
        inspect: bool)
      modifies this
      ensures model == old(model)
      ensures forall s :: old(Shows(s)) && s.nextWorker == done ==>
        Shows(StartOrFail(Installed(s, epoch, configuration, credential, newOwner), inspect))
    {
      hide StartOrFail;
      joinCancel := false;
      if newOwner.Some? {
        owner := newOwner;
      }
      pub := pub.(configuration := Some(configuration), credential := Some(credential), configured := true,
          phase := Ready);
      StartOrShowFailure(done, inspect);
    }

    method CancelEnroll()
      requires Valid()
      modifies this
      ensures Valid() && model == StepSvc(old(model), CancelEnrollment) && !joinCancel
    {
      hide ReachableSvc;
      SectionReachable(model, CancelEnrollment);
      if joinCancel {
        joinCancel := false;
      }
      joinEpoch := joinEpoch + 1;
      pub := pub.(phase := PhaseFor(pub.configured, pub.running));
      model := StepSvc(model, CancelEnrollment);
    }

    method OnConnection(epoch: nat, connection: Connection)
      requires Valid()
      modifies this
      ensures Valid() && model == StepSvc(old(model), Observe(epoch, connection))
    {
      hide ReachableSvc;
      SectionReachable(model, Observe(epoch, connection));
      if bridgeEpoch == epoch {
        pub := pub.(connection := connection);
      }
      model := StepSvc(model, Observe(epoch, connection));
    }

    /** A worker that has left closes its channel: nothing the service holds changes. */
    ghost method WorkerClosesChannel(mine: nat)
      requires Valid()
      modifies this`model
      ensures Valid() && model == StepSvc(old(model), CloseDone(mine))
    {
      hide ReachableSvc;
      SectionReachable(model, CloseDone(mine));
      model := StepSvc(model, CloseDone(mine));
    }
  }

  // ---------- how a section's model state is composed ----------

  /** The state between a current worker's bookkeeping and what its exit leads to. */
  function Left(s: Svc, mine: nat, epoch: nat): (t: Svc)
  {
    var left := s.(bridgeWorkers := s.bridgeWorkers - 1, workers := s.workers - {mine}, leaving := s.leaving + {mine},
                   bridgeDone := if s.bridgeDone == Some(mine) then None else s.bridgeDone);
    if s.bridgeEpoch != epoch then left
    else left.(bridgeCancel := false, pub := left.pub.(running := false, connection := ConnectionStopped))
  }

  lemma LeftThenFollows(s: Svc, mine: nat, epoch: nat, exit: Exit, reload: Option<nat>, inspect: bool)
    requires mine in s.workers && s.workers[mine] == epoch
    ensures StepSvc(s, WorkerExit(mine, exit, reload, inspect)) ==
      if s.bridgeEpoch != epoch then Left(s, mine, epoch) else AfterExit(Left(s, mine, epoch), exit, reload, inspect)
  {
    hide AfterExit;
  }

  /** The state in which an approved enrollment starts the Bridge. */
  function Installed(s: Svc, epoch: nat, configuration: nat, credential: nat, newOwner: Option<nat>): (t: Svc)
  {
    s.(enrollments := s.enrollments - {epoch}, joinCancel := false, owner := if newOwner.Some? then newOwner
        else s.owner,
       pub := s.pub.(configuration := Some(configuration), credential := Some(credential), configured := true,
           phase := Ready))
  }

  /** The state after an enrollment that was canceled or failed. */
  function Declined(s: Svc, epoch: nat, result: Enrolled): (t: Svc)
    requires !result.Approved?
  {
    var u := s.(enrollments := s.enrollments - {epoch}, joinCancel := false);
    if result.EnrollCanceled? then u.(pub := u.pub.(phase := PhaseFor(u.pub.configured, u.pub.running)))
    else
      u.(pub := u.pub.(phase := Failing, configured := u.pub.configured || result.saved.Some?,
                       configuration := if result.saved.Some? then result.saved else u.pub.configuration))
  }

  lemma FinishedEnrollment(s: Svc, epoch: nat, result: Enrolled, newOwner: Option<nat>, inspect: bool)
    requires epoch in s.enrollments
    ensures StepSvc(s, FinishEnrollment(epoch, result, newOwner, inspect)) ==
      if s.joinEpoch != epoch || !s.enrollments[epoch] then s.(enrollments := s.enrollments - {epoch})
      else if !result.Approved? then Declined(s, epoch, result)
      else StartOrFail(Installed(s, epoch, result.configuration, result.credential, newOwner), inspect)
  {
    hide StartOrFail;
  }

  /** Only a live enrollment of the current epoch can change the owner, and then no worker is live. */
  lemma OwnerOnlyWhenCurrent(s: Svc, epoch: nat, result: Enrolled, newOwner: Option<nat>, inspect: bool)
    requires ReachableSvc(s) && epoch in s.enrollments
    ensures StepSvc(s, FinishEnrollment(epoch, result, newOwner, inspect)).owner != s.owner ==> s.joinCancel
  {
    ReachableSvcInv(s);
    if StepSvc(s, FinishEnrollment(epoch, result, newOwner, inspect)).owner != s.owner {
      OwnerKeptByStart(s, FinishEnrollment(epoch, result, newOwner, inspect));
    }
  }

  lemma ReplaceGuard(s: Svc, configuration: nat, idle: bool, viewOk: bool)
    ensures s.closed || s.pub.configuration.None? || s.pub.credential.None? || s.joinCancel || !idle ==>
      StepReplace(s, configuration, idle, viewOk) == s
  {
  }

  function ClosedState(s: Svc): (t: Svc)
  {
    s.(closed := true, owner := None, joinEpoch := s.joinEpoch + 1, joinCancel := false,
        enrollments := EndJoin(s).enrollments,
       bridgeEpoch := s.bridgeEpoch + 1, bridgeCancel := false, restartPending := false, pub := StoppedView(s.pub),
       closers := s.closers + {Closer(s.bridgeDone, s.owner)})
  }

  lemma CloseComposes(s: Svc)
    ensures StepSvc(s, CloseService) == ClosedState(s)
  {
  }
}
