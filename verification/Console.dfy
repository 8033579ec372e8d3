/**
 The Console service: Bridge worker lifecycle and enrollment.

 Every step is one critical section of the service mutex. A worker is live from
 the section that starts it until the section in which it leaves; its done
 channel is closed some time after that. Restart goroutines, enrollments and
 Close calls are in flight across sections and carry the epoch, channel or
 owner lock they were created with.
 */
module Console {
  import opened Options

  datatype Phase = Setup | Ready | Joining | Approval | Running | Failing

  datatype Connection = ConnectionStopped | ConnectionConnecting | ConnectionOther(code: nat)

  /** What the Console shows and persists. */
  datatype Public = Public(
    phase: Phase, connection: Connection, running: bool, configured: bool,
    configuration: Option<nat>, credential: Option<nat>)

  datatype Restart = Restart(stopped: Option<nat>, epoch: nat)
  datatype Closer = Closer(done: Option<nat>, owner: Option<nat>)

  /** `workers` maps each live worker to its epoch; `leaving` have left but not closed their
      channel; `finished` have. `enrollments` maps an epoch to whether its context is still live. */
  datatype Svc = Svc(
    pub: Public, closed: bool, joinCancel: bool, joinEpoch: nat,
    bridgeCancel: bool, bridgeDone: Option<nat>, bridgeEpoch: nat, bridgeWorkers: int,
    restartPending: bool, governedMutation: bool, owner: Option<nat>,
    nextWorker: nat, workers: map<nat, nat>, leaving: set<nat>, finished: set<nat>,
    restarts: set<Restart>, enrollments: map<nat, bool>, closers: set<Closer>)

  datatype Exit = ConfigurationChanged | ExitError | ExitClean
  datatype Enrolled = Approved(configuration: nat, credential: nat) | EnrollCanceled | EnrollFailed(saved: Option<nat>)

  datatype Section =
    | StartBridge(inspect: bool)
    | StopBridge
    | CloseService
    | ReleaseOwner(closer: Closer)
    | WorkerExit(worker: nat, exit: Exit, reload: Option<nat>, inspect: bool)
    | CloseDone(worker: nat)
    | ReapDone(worker: nat)
    | ReplaceConfiguration(configuration: nat, idle: bool, viewOk: bool)
    | RestartAfterWorker(restart: Restart, inspect: bool)
    | BeginEnrollment(idle: bool)
    | FinishEnrollment(epoch: nat, result: Enrolled, newOwner: Option<nat>, inspect: bool)
    | CancelEnrollment
    | Observe(epoch: nat, connection: Connection)
    | Challenge(epoch: nat)
    | SetMutation(on: bool)

  function PhaseFor(configured: bool, running: bool): (p: Phase)
  {
    if running then Running else if configured then Ready else Setup
  }

  function StartLocked(s: Svc, inspect: bool): (r: (Svc, bool))
  {
    if s.closed || s.joinCancel || s.governedMutation then (s, false)
    else if s.bridgeCancel then (s, true)
    else if s.pub.configuration.None? || s.pub.credential.None? || !inspect then (s, false)
    else
      var w := s.nextWorker;
      (s.(bridgeEpoch := s.bridgeEpoch + 1, bridgeCancel := true, bridgeDone := Some(w), restartPending := false,
          bridgeWorkers := s.bridgeWorkers + 1, nextWorker := w + 1, workers := s.workers[w := s.bridgeEpoch + 1],
          pub := s.pub.(running := true, phase := Running, connection := ConnectionConnecting)), true)
  }

  /** Start, and show the failure if starting was refused. */
  function StartOrFail(s: Svc, inspect: bool): (t: Svc)
  {
    var r := StartLocked(s, inspect);
    if r.1 then r.0 else r.0.(pub := r.0.pub.(phase := Failing))
  }

  function StopLocked(s: Svc): (t: Svc)
  {
    if s.joinCancel then s
    else s.(bridgeEpoch := s.bridgeEpoch + 1, bridgeCancel := false, restartPending := false,
            pub := s.pub.(running := false, connection := ConnectionStopped,
                phase := PhaseFor(s.pub.configured, false)))
  }

  /** The enrollment of `epoch` is told that its context ended. */
  function EndJoin(s: Svc): (t: Svc)
  {
    s.(joinCancel := false, enrollments := map e | e in s.enrollments ::
        s.enrollments[e] && !(s.joinCancel && e == s.joinEpoch))
  }

  function StepClose(s: Svc): (t: Svc)
  {
    var ended := EndJoin(s).(closed := true, owner := None, joinEpoch := s.joinEpoch + 1);
    var stopped := StopLocked(ended);
    stopped.(closers := s.closers + {Closer(stopped.bridgeDone, s.owner)})
  }

  predicate Waited(s: Svc, done: Option<nat>)
  {
    done.Some? ==> done.value in s.finished
  }

  /** What the current worker's exit leads to. */
  function AfterExit(t: Svc, exit: Exit, reload: Option<nat>, inspect: bool): (u: Svc)
  {
    match exit
    case ConfigurationChanged =>
      if t.pub.configuration.Some? && reload.None? then t.(pub := t.pub.(phase := Failing))
      else
        StartOrFail(t.(pub := t.pub.(phase := Ready, credential := if t.pub.configuration.Some? then reload
            else t.pub.credential)), inspect)
    case ExitError => t.(pub := t.pub.(phase := Failing))
    case ExitClean => t.(pub := t.pub.(phase := Ready))
  }

  function StepWorkerExit(s: Svc, worker: nat, exit: Exit, reload: Option<nat>, inspect: bool): (t: Svc)
  {
    if worker !in s.workers then s
    else
      var epoch := s.workers[worker];
      var left := s.(bridgeWorkers := s.bridgeWorkers - 1, workers := s.workers - {worker},
          leaving := s.leaving + {worker},
                     bridgeDone := if s.bridgeDone == Some(worker) then None else s.bridgeDone);
      if s.bridgeEpoch != epoch then left
      else AfterExit(left.(bridgeCancel := false, pub := left.pub.(running := false, connection := ConnectionStopped)),
          exit, reload, inspect)
  }

  function StepReplace(s: Svc, configuration: nat, idle: bool, viewOk: bool): (t: Svc)
  {
    if s.closed || s.pub.configuration.None? || s.pub.credential.None? || s.joinCancel || !idle then s
    else
      var wasRunning := s.bridgeCancel || s.restartPending;
      var t := s.(bridgeEpoch := s.bridgeEpoch + 1, bridgeCancel := false,
                  pub := s.pub.(running := false, connection := ConnectionStopped,
                      configuration := Some(configuration)));
      if !viewOk then t.(pub := t.pub.(phase := Failing))
      else
        var u := t.(pub := t.pub.(phase := Ready));
        if wasRunning then u.(restartPending := true, restarts := s.restarts + {Restart(s.bridgeDone, t.bridgeEpoch)})
            else u
  }

  function StepRestart(s: Svc, r: Restart, inspect: bool): (t: Svc)
  {
    if r !in s.restarts || !Waited(s, r.stopped) then s
    else
      var t := s.(restarts := s.restarts - {r});
      if s.bridgeEpoch != r.epoch || !s.restartPending || s.bridgeCancel || s.joinCancel || s.closed
         || s.pub.configuration.None? || s.pub.credential.None? then t
      else
        StartOrFail(t.(restartPending := false, bridgeDone := if s.bridgeDone == r.stopped then None else s.bridgeDone),
            inspect)
  }

  function StepBeginEnrollment(s: Svc, idle: bool): (t: Svc)
  {
    if s.closed || s.joinCancel || s.bridgeCancel || s.bridgeWorkers > 0 || !idle then s
    else s.(joinCancel := true, joinEpoch := s.joinEpoch + 1, enrollments := s.enrollments[s.joinEpoch + 1 := true],
            pub := s.pub.(phase := Joining))
  }

  /** An approved enrollment installs its identity (and, when re-enrolling, a new owner lock) and starts the Bridge. */
  function StepFinishEnrollment(s: Svc, epoch: nat, result: Enrolled, newOwner: Option<nat>, inspect: bool): (t: Svc)
  {
    if epoch !in s.enrollments then s
    else
      var t := s.(enrollments := s.enrollments - {epoch});
      if s.joinEpoch != epoch || !s.enrollments[epoch] then t
      else
        var u := t.(joinCancel := false);
        match result
        case EnrollCanceled => u.(pub := u.pub.(phase := PhaseFor(u.pub.configured, u.pub.running)))
        case EnrollFailed(saved) =>
          u.(pub := u.pub.(phase := Failing, configured := u.pub.configured || saved.Some?,
                           configuration := if saved.Some? then saved else u.pub.configuration))
        case Approved(configuration, credential) =>
          StartOrFail(u.(owner := if newOwner.Some? then newOwner else u.owner,
                         pub := u.pub.(configuration := Some(configuration), credential := Some(credential),
                             configured := true, phase := Ready)),
                      inspect)
  }

  function StepSvc(s: Svc, a: Section): (t: Svc)
  {
    match a
    case StartBridge(inspect) =>
      if s.closed || s.bridgeCancel || s.bridgeDone.Some? then s
      else StartLocked(s.(restartPending := false), inspect).0
    case StopBridge => StopLocked(s)
    case CloseService => StepClose(s)
    case ReleaseOwner(c) => if c in s.closers && Waited(s, c.done) then s.(closers := s.closers - {c}) else s
    case WorkerExit(w, exit, reload, inspect) => StepWorkerExit(s, w, exit, reload, inspect)
    case CloseDone(w) => if w in s.leaving then s.(leaving := s.leaving - {w}, finished := s.finished + {w}) else s
    case ReapDone(w) => if w in s.finished && s.bridgeDone == Some(w) then s.(bridgeDone := None) else s
    case ReplaceConfiguration(c, idle, viewOk) => StepReplace(s, c, idle, viewOk)
    case RestartAfterWorker(r, inspect) => StepRestart(s, r, inspect)
    case BeginEnrollment(idle) => StepBeginEnrollment(s, idle)
    case FinishEnrollment(e, result, newOwner, inspect) => StepFinishEnrollment(s, e, result, newOwner, inspect)
    case CancelEnrollment =>
      var t := EndJoin(s).(joinEpoch := s.joinEpoch + 1);
      t.(pub := t.pub.(phase := PhaseFor(t.pub.configured, t.pub.running)))
    case Observe(e, c) => if s.bridgeEpoch != e then s else s.(pub := s.pub.(connection := c))
    case Challenge(e) =>
      if s.joinEpoch != e || !s.joinCancel || e !in s.enrollments || !s.enrollments[e] then s
          else s.(pub := s.pub.(phase := Approval))
    case SetMutation(on) => s.(governedMutation := on)
  }

  function RunSvc(s: Svc, sections: seq<Section>): (t: Svc)
    decreases |sections|
  {
    if sections == [] then s else StepSvc(RunSvc(s, sections[..|sections| - 1]), sections[|sections| - 1])
  }

  function InitSvc(configuration: Option<nat>, credential: Option<nat>, owner: Option<nat>): (s: Svc)
  {
    Svc(Public(PhaseFor(configuration.Some?, false), ConnectionStopped, false, configuration.Some?, configuration,
        credential),
        false, false, 0, false, None, 0, 0, false, false, owner, 0, map[], {}, {}, {}, map[], {})
  }

  // ---------- the invariant ----------

  ghost predicate WorkersOk(s: Svc)
  {
    && (forall w :: w in s.workers ==>
        s.bridgeDone == Some(w) && s.workers[w] <= s.bridgeEpoch && w < s.nextWorker && w !in s.leaving
            && w !in s.finished)
    && (forall w :: w in s.leaving ==> w < s.nextWorker && w !in s.finished)
    && (forall w :: w in s.finished ==> w < s.nextWorker)
    && s.bridgeWorkers == |s.workers|
    && (s.bridgeCancel ==>
        && s.bridgeDone.Some? && s.bridgeDone.value in s.workers
        && s.workers[s.bridgeDone.value] == s.bridgeEpoch)
  }

  ghost predicate EnrollmentOk(s: Svc)
  {
    && (s.joinCancel ==> s.workers == map[] && !s.bridgeCancel && !s.closed)
    && (forall e :: e in s.enrollments ==> e <= s.joinEpoch && (e == s.joinEpoch && s.enrollments[e] ==> s.joinCancel))
  }

  ghost predicate InFlightOk(s: Svc)
  {
    && (forall r :: r in s.restarts ==> r.epoch <= s.bridgeEpoch)
    && (forall r, w :: r in s.restarts && r.epoch == s.bridgeEpoch && w in s.workers ==> r.stopped == Some(w))
    && (forall c :: c in s.closers ==> s.closed)
    && (forall c, w :: c in s.closers && w in s.workers ==> c.done == Some(w))
  }

  ghost predicate SvcInv(s: Svc)
  {
    WorkersOk(s) && EnrollmentOk(s) && InFlightOk(s)
  }

  lemma StartKeeps(s: Svc, inspect: bool)
    requires SvcInv(s) && s.workers == map[]
    ensures SvcInv(StartLocked(s, inspect).0)
  {
  }

  lemma PublicKeeps(s: Svc, pub: Public)
    requires SvcInv(s)
    ensures SvcInv(s.(pub := pub))
  {
  }

  lemma StartOrFailKeeps(s: Svc, inspect: bool)
    requires SvcInv(s) && s.workers == map[]
    ensures SvcInv(StartOrFail(s, inspect))
  {
    hide SvcInv, StartLocked;
    StartKeeps(s, inspect);
    var t := StartLocked(s, inspect).0;
    PublicKeeps(t, t.pub.(phase := Failing));
  }

  lemma StopKeeps(s: Svc)
    requires SvcInv(s)
    ensures SvcInv(StopLocked(s))
  {
  }

  lemma EndJoinKeeps(s: Svc, closed: bool, owner: Option<nat>)
    requires SvcInv(s) && (s.closed ==> closed)
    ensures SvcInv(EndJoin(s).(closed := closed, owner := owner, joinEpoch := s.joinEpoch + 1))
  {
  }

  lemma CloseKeeps(s: Svc)
    requires SvcInv(s)
    ensures SvcInv(StepClose(s))
  {
    EndJoinKeeps(s, true, None);
    var ended := EndJoin(s).(closed := true, owner := None, joinEpoch := s.joinEpoch + 1);
    StopKeeps(ended);
  }

  /** A worker that leaves was the only live one. */
  lemma LeaveKeeps(s: Svc, worker: nat)
    requires SvcInv(s) && worker in s.workers
    ensures s.workers - {worker} == map[] && s.bridgeDone == Some(worker) && !s.joinCancel
    ensures SvcInv(s.(bridgeWorkers := s.bridgeWorkers - 1, workers := map[], leaving := s.leaving + {worker},
      bridgeDone := None, bridgeCancel := false))
    ensures s.workers[worker] != s.bridgeEpoch ==> !s.bridgeCancel
  {
    forall w | w in s.workers ensures w == worker { }
    assert s.workers.Keys == {worker};
    assert |s.workers| == |s.workers.Keys|;
  }

  lemma AfterExitKeeps(s: Svc, exit: Exit, reload: Option<nat>, inspect: bool)
    requires SvcInv(s) && s.workers == map[]
    ensures SvcInv(AfterExit(s, exit, reload, inspect))
  {
    hide SvcInv, StartOrFail;
    PublicKeeps(s, s.pub.(phase := Failing));
    PublicKeeps(s, s.pub.(phase := Ready));
    var u := s.(pub := s.pub.(phase := Ready, credential := if s.pub.configuration.Some? then reload
        else s.pub.credential));
    PublicKeeps(s, u.pub);
    StartOrFailKeeps(u, inspect);
  }

  lemma ExitKeeps(s: Svc, worker: nat, exit: Exit, reload: Option<nat>, inspect: bool)
    requires SvcInv(s)
    ensures SvcInv(StepWorkerExit(s, worker, exit, reload, inspect))
  {
    hide SvcInv, AfterExit;
    if worker in s.workers {
      LeaveKeeps(s, worker);
      var left := s.(bridgeWorkers := s.bridgeWorkers - 1, workers := map[], leaving := s.leaving + {worker},
          bridgeDone := None, bridgeCancel := false);
      if s.bridgeEpoch == s.workers[worker] {
        var pub := left.pub.(running := false, connection := ConnectionStopped);
        PublicKeeps(left, pub);
        AfterExitKeeps(left.(pub := pub), exit, reload, inspect);
      }
    }
  }

  lemma ReplaceKeeps(s: Svc, configuration: nat, idle: bool, viewOk: bool)
    requires SvcInv(s)
    ensures SvcInv(StepReplace(s, configuration, idle, viewOk))
  {
  }

  lemma RestartBase(s: Svc, r: Restart)
    requires SvcInv(s) && r in s.restarts
    ensures SvcInv(s.(restarts := s.restarts - {r}))
    ensures Waited(s, r.stopped) && s.bridgeEpoch == r.epoch && !s.bridgeCancel ==>
      && s.workers == map[]
      && SvcInv(s.(restarts := s.restarts - {r}, restartPending := false,
          bridgeDone := if s.bridgeDone == r.stopped then None else s.bridgeDone))
  {
    if Waited(s, r.stopped) && s.bridgeEpoch == r.epoch {
      assert forall w :: w in s.workers ==> r.stopped == Some(w) && w !in s.finished;
      assert s.workers == map[];
    }
  }

  lemma RestartKeeps(s: Svc, r: Restart, inspect: bool)
    requires SvcInv(s)
    ensures SvcInv(StepRestart(s, r, inspect))
  {
    hide SvcInv, StartOrFail;
    if r in s.restarts && Waited(s, r.stopped) {
      RestartBase(s, r);
      if s.bridgeEpoch == r.epoch && !s.bridgeCancel {
        var t := s.(restarts := s.restarts - {r}, restartPending := false,
            bridgeDone := if s.bridgeDone == r.stopped then None else s.bridgeDone);
        StartOrFailKeeps(t, inspect);
      }
    }
  }

  lemma FinishBase(s: Svc, epoch: nat)
    requires SvcInv(s) && epoch in s.enrollments
    ensures SvcInv(s.(enrollments := s.enrollments - {epoch}))
    ensures s.joinEpoch == epoch && s.enrollments[epoch] ==>
      s.workers == map[] && SvcInv(s.(enrollments := s.enrollments - {epoch}, joinCancel := false))
  {
  }

  lemma OwnerKeeps(s: Svc, owner: Option<nat>)
    requires SvcInv(s)
    ensures SvcInv(s.(owner := owner))
  {
  }

  lemma FinishKeeps(s: Svc, epoch: nat, result: Enrolled, newOwner: Option<nat>, inspect: bool)
    requires SvcInv(s)
    ensures SvcInv(StepFinishEnrollment(s, epoch, result, newOwner, inspect))
  {
    if epoch in s.enrollments {
      FinishBase(s, epoch);
      hide SvcInv, StartOrFail;
      if s.joinEpoch == epoch && s.enrollments[epoch] {
        var u := s.(enrollments := s.enrollments - {epoch}, joinCancel := false);
        match result {
          case EnrollCanceled => PublicKeeps(u, u.pub.(phase := PhaseFor(u.pub.configured, u.pub.running)));
          case EnrollFailed(saved) =>
            PublicKeeps(u, u.pub.(phase := Failing, configured := u.pub.configured || saved.Some?,
                                  configuration := if saved.Some? then saved else u.pub.configuration));
          case Approved(configuration, credential) =>
            var v := u.(owner := if newOwner.Some? then newOwner else u.owner);
            OwnerKeeps(u, v.owner);
            var pub := v.pub.(configuration := Some(configuration), credential := Some(credential), configured := true,
                phase := Ready);
            PublicKeeps(v, pub);
            StartOrFailKeeps(v.(pub := pub), inspect);
        }
      }
    }
  }

  lemma StartBridgeKeeps(s: Svc, inspect: bool)
    requires SvcInv(s) && !s.bridgeCancel && s.bridgeDone.None?
    ensures SvcInv(StartLocked(s.(restartPending := false), inspect).0)
  {
    assert s.workers == map[];
    assert SvcInv(s.(restartPending := false));
    hide SvcInv;
    StartKeeps(s.(restartPending := false), inspect);
  }

  lemma CancelKeeps(s: Svc)
    requires SvcInv(s)
    ensures SvcInv(StepSvc(s, CancelEnrollment))
  {
    hide SvcInv, EndJoin;
    EndJoinKeeps(s, s.closed, s.owner);
    EndJoinKeepsRest(s);
    var t := EndJoin(s).(joinEpoch := s.joinEpoch + 1);
    PublicKeeps(t, t.pub.(phase := PhaseFor(t.pub.configured, t.pub.running)));
  }

  lemma EndJoinKeepsRest(s: Svc)
    ensures EndJoin(s).closed == s.closed && EndJoin(s).owner == s.owner
  {
  }

  lemma SectionKeeps(s: Svc, a: Section)
    requires SvcInv(s)
    ensures SvcInv(StepSvc(s, a))
  {
    hide SvcInv, StartLocked, StopLocked, StepClose, StepWorkerExit, StepReplace, StepRestart, StepFinishEnrollment,
        StepBeginEnrollment;
    match a {
      case StartBridge(inspect) =>
        if !s.closed && !s.bridgeCancel && s.bridgeDone.None? {
          StartBridgeKeeps(s, inspect);
        }
      case StopBridge => StopKeeps(s);
      case CloseService => CloseKeeps(s);
      case WorkerExit(w, exit, reload, inspect) => ExitKeeps(s, w, exit, reload, inspect);
      case ReplaceConfiguration(c, idle, viewOk) => ReplaceKeeps(s, c, idle, viewOk);
      case RestartAfterWorker(r, inspect) => RestartKeeps(s, r, inspect);
      case FinishEnrollment(e, result, newOwner, inspect) => FinishKeeps(s, e, result, newOwner, inspect);
      case CancelEnrollment => CancelKeeps(s);
      case BeginEnrollment(idle) => BeginKeeps(s, idle);
      case _ => SmallKeeps(s, a);
    }
  }

  lemma BeginKeeps(s: Svc, idle: bool)
    requires SvcInv(s)
    ensures SvcInv(StepBeginEnrollment(s, idle))
  {
    if s.bridgeWorkers <= 0 {
      assert s.workers == map[];
    }
  }

  lemma ChannelKeeps(s: Svc, a: Section)
    requires SvcInv(s) && (a.ReleaseOwner? || a.CloseDone? || a.ReapDone?)
    ensures SvcInv(StepSvc(s, a))
  {
  }

  lemma MutationKeeps(s: Svc, on: bool)
    requires SvcInv(s)
    ensures SvcInv(s.(governedMutation := on))
  {
  }

  lemma SmallKeeps(s: Svc, a: Section)
    requires SvcInv(s) && (a.ReleaseOwner? || a.CloseDone? || a.ReapDone? || a.Observe? || a.Challenge?
      || a.SetMutation?)
    ensures SvcInv(StepSvc(s, a))
  {
    hide SvcInv;
    match a {
      case Observe(e, c) => PublicKeeps(s, s.pub.(connection := c));
      case Challenge(e) => PublicKeeps(s, s.pub.(phase := Approval));
      case SetMutation(on) => MutationKeeps(s, on);
      case _ => ChannelKeeps(s, a);
    }
  }

  lemma {:induction false} RunSvcKeeps(s: Svc, sections: seq<Section>)
    requires SvcInv(s)
    ensures SvcInv(RunSvc(s, sections))
    decreases |sections|
  {
    hide SvcInv, StepSvc;
    if sections != [] {
      RunSvcKeeps(s, sections[..|sections| - 1]);
      SectionKeeps(RunSvc(s, sections[..|sections| - 1]), sections[|sections| - 1]);
    }
  }

  // ---------- main results ----------

  ghost predicate ReachableSvc(s: Svc)
  {
    exists configuration: Option<nat>, credential: Option<nat>, owner: Option<nat>, sections: seq<Section> ::
      s == RunSvc(InitSvc(configuration, credential, owner), sections)
  }

  lemma ReachableSvcInv(s: Svc)
    requires ReachableSvc(s)
    ensures SvcInv(s)
  {
    var configuration: Option<nat>, credential: Option<nat>, owner: Option<nat>, sections: seq<Section> :|
      s == RunSvc(InitSvc(configuration, credential, owner), sections);
    RunSvcKeeps(InitSvc(configuration, credential, owner), sections);
  }

  /** At most one Bridge worker is ever live, and the counter counts it. */
  lemma AtMostOneWorker(s: Svc, v: nat, w: nat)
    requires ReachableSvc(s) && v in s.workers && w in s.workers
    ensures v == w && s.bridgeDone == Some(w) && s.bridgeWorkers == 1
  {
    ReachableSvcInv(s);
    LeaveKeeps(s, v);
    assert s.workers.Keys == {v};
  }

  /** No worker is live while an enrollment is active. */
  lemma NoWorkerWhileEnrolling(s: Svc)
    requires ReachableSvc(s) && s.joinCancel
    ensures s.workers == map[] && s.bridgeWorkers == 0 && !s.bridgeCancel
  {
    ReachableSvcInv(s);
  }

  /** The data-directory owner lock is released, by Close or by re-enrollment, only when no worker is live. */
  lemma OwnerReleasedOnlyWhenIdle(s: Svc, a: Section)
    requires ReachableSvc(s)
    requires || (a.ReleaseOwner? && StepSvc(s, a).closers != s.closers)
             || (a.FinishEnrollment? && StepSvc(s, a).owner != s.owner)
    ensures s.workers == map[]
  {
    ReachableSvcInv(s);
    if a.ReleaseOwner? {
      WaitedMeansIdle(s, a.closer);
    } else {
      hide StartOrFail;
      OwnerKeptByStart(s, a);
    }
  }

  lemma WaitedMeansIdle(s: Svc, c: Closer)
    requires SvcInv(s) && c in s.closers && Waited(s, c.done)
    ensures s.workers == map[]
  {
    assert forall w :: w in s.workers ==> c.done == Some(w) && w !in s.finished;
  }

  lemma OwnerKeptByStart(s: Svc, a: Section)
    requires SvcInv(s) && a.FinishEnrollment? && StepSvc(s, a).owner != s.owner
    ensures s.joinCancel
  {
  }

  /** This completion carries an epoch older than the ones `s` is at. */
  predicate Stale(s: Svc, a: Section)
  {
    || (a.WorkerExit? && (a.worker in s.workers ==> s.workers[a.worker] < s.bridgeEpoch))
    || (a.Observe? && a.epoch < s.bridgeEpoch)
    || (a.Challenge? && a.epoch < s.joinEpoch)
    || (a.FinishEnrollment? && a.epoch < s.joinEpoch)
  }

  predicate AllStale(s: Svc, sections: seq<Section>)
  {
    forall i :: 0 <= i < |sections| ==> Stale(s, sections[i])
  }

  /** Any number of completions with old epochs leaves connection, phase, configuration,
      credential, epochs and enrollment exactly as they were. */
  lemma {:induction false} StaleCompletionsAreSilent(s: Svc, sections: seq<Section>)
    requires AllStale(s, sections)
    ensures var t := RunSvc(s, sections);
      && t.pub == s.pub && t.bridgeEpoch == s.bridgeEpoch && t.joinEpoch == s.joinEpoch && t.joinCancel == s.joinCancel
      && t.owner == s.owner && t.restartPending == s.restartPending
      && (forall w :: w in t.workers ==> w in s.workers && t.workers[w] == s.workers[w])
    decreases |sections|
  {
    if sections != [] {
      var before := RunSvc(s, sections[..|sections| - 1]);
      StaleCompletionsAreSilent(s, sections[..|sections| - 1]);
      assert Stale(s, sections[|sections| - 1]);
      StaleStep(before, sections[|sections| - 1]);
    }
  }

  lemma StaleStep(s: Svc, a: Section)
    requires Stale(s, a)
    ensures var t := StepSvc(s, a);
      && t.pub == s.pub && t.bridgeEpoch == s.bridgeEpoch && t.joinEpoch == s.joinEpoch && t.joinCancel == s.joinCancel
      && t.owner == s.owner && t.restartPending == s.restartPending
      && (forall w :: w in t.workers ==> w in s.workers && t.workers[w] == s.workers[w])
  {
  }
}
