/**
 The store object that updates the admission directory. Each method is one
 critical section of the store mutex; `w` and `writes` say how the exclusive writes
 end. The ghost field `world` is the state of the whole journal, callers included,
 that goes with the store's data: every method takes the action of its name.
 */
module FenceStore {
  import opened DurableDirectory
  import opened Options
  import opened RuntimeFence
  import opened AdmissionAnswers
  import AdmissionRuns

  /** The immutable scope that repository retirement asks about. */
  datatype CleanupScope = CleanupScope(
    runId: Id, repositoryId: Id, bindingId: Id, planId: Id, planRevision: int, nodeKey: Id,
    taskId: Id, agentId: Id, deviceId: Id, workspaceRef: Id, generation: Id, manifestDigest: Id)

  predicate ScopeMatches(spec: Spec, scope: CleanupScope)
  {
    && spec.runId == scope.runId && spec.repositoryId == scope.repositoryId && spec.bindingId == scope.bindingId
    && spec.planId == scope.planId && spec.planRevision == scope.planRevision && spec.nodeKey == scope.nodeKey
    && spec.taskId == scope.taskId && spec.agentId == scope.agentId && spec.deviceId == scope.deviceId
    && spec.workspaceRef == scope.workspaceRef && spec.workspaceGeneration == scope.generation
    && spec.manifestDigest == scope.manifestDigest
  }

  /** The Runs with a start record and no stop record. */
  function StartingRuns(f: Files): (runs: set<Id>)
  {
    f.starts.Keys - f.stops.Keys
  }

  /** From `f` to `g` nothing changed except that some of `runs` got an outcome_unknown stop record. */
  ghost predicate OnlyClosed(f: Files, g: Files, runs: set<Id>, now: nat)
  {
    && g.claims == f.claims && g.starts == f.starts
    && (forall run :: run in f.stops ==> run in g.stops && g.stops[run] == f.stops[run])
    && (forall run :: run in g.stops && run !in f.stops ==>
          && run in runs && run in f.claims && run in f.starts
          && g.stops[run] == Stop(run, f.claims[run], f.starts[run], OutcomeUnknown, now))
  }

  lemma OnlyClosedNothing(f: Files, owner: Id, run: Id, now: nat)
    requires FilesOk(f, owner) && run in StartingRuns(f)
    ensures OnlyClosed(f, f, {run}, now) && run in f.claims && run in f.starts
  {
  }

  lemma OnlyClosedOne(f: Files, owner: Id, run: Id, now: nat)
    requires FilesOk(f, owner) && run in StartingRuns(f)
    requires run in f.claims && f.claims[run].claimedAt <= f.starts[run].checkedAt <= now
    ensures var g := StopFile(f, Stop(run, f.claims[run], f.starts[run], OutcomeUnknown, now));
      FilesOk(g, owner) && OnlyClosed(f, g, {run}, now) && StartingRuns(g) == StartingRuns(f) - {run}
  {
    AddStop(f, owner, Stop(run, f.claims[run], f.starts[run], OutcomeUnknown, now));
    hide FilesOk;
  }

  lemma OnlyClosedTransitive(f: Files, g: Files, h: Files, runs: set<Id>, run: Id, now: nat)
    requires OnlyClosed(f, g, runs, now) && OnlyClosed(g, h, {run}, now) && run in runs
    ensures OnlyClosed(f, h, runs, now)
  {
  }

  /** The clock is not behind this starting Run's records and its stop record becomes durable. */
  predicate ClosesUnknown(f: Files, run: Id, now: nat, w: WriteOutcome)
    requires run in f.claims && run in f.starts
  {
    w == Durable && f.claims[run].claimedAt <= f.starts[run].checkedAt <= now
  }

  ghost predicate AllCloseUnknown(f: Files, now: nat, writes: Id -> WriteOutcome)
  {
    forall run :: run in StartingRuns(f)
        ==> run in f.claims && run in f.starts && ClosesUnknown(f, run, now, writes(run))
  }

  /** In a readable inventory every starting Run can be closed that is not ahead of the clock. */
  lemma UnknownCloses(f: Files, owner: Id, leftovers: nat, now: nat, writes: Id -> WriteOutcome)
    requires FilesOk(f, owner) && InventoryReadable(f, leftovers)
    ensures AllCloseUnknown(f, now, writes) <==>
      forall run :: run in f.starts && run !in f.stops ==> f.starts[run].checkedAt <= now && writes(run) == Durable
  {
    assert forall run :: run in f.starts && run !in f.stops <==> run in StartingRuns(f);
    assert forall run :: run in f.starts ==> run in f.claims && !StartsBeforeClaim(f, run);
  }

  lemma NothingClosed(f: Files, runs: set<Id>, now: nat)
    ensures OnlyClosed(f, f, runs, now)
  {
  }

  lemma SameClosing(f: Files, g: Files, runs: set<Id>, now: nat, run: Id, w: WriteOutcome)
    requires OnlyClosed(f, g, runs, now) && run in g.claims && run in g.starts
    ensures run in f.claims && run in f.starts && (ClosesUnknown(f, run, now, w) <==> ClosesUnknown(g, run, now, w))
  {
  }

  lemma ReadsExpected(f: Files, owner: Id, expected: Claim)
    requires FilesOk(f, owner)
    ensures var run, got := expected.spec.runId, Get(f, owner, expected.spec.runId);
      && (got.Ok? <==> run in f.claims && !StartsBeforeClaim(f, run))
      && (got.Ok? ==> got.value.admissionDigest == f.claims[run] && (got.value.state == Claimed <==> run !in f.starts))
      && (run in f.claims && run !in f.starts ==> !StartsBeforeClaim(f, run))
  {
    var run := expected.spec.runId;
    if run in f.claims {
      ReadableHere(f, owner, run);
      GetExact(f, owner, run);
    } else {
      NotClaimed(f, owner, run);
    }
  }

  lemma ExistingClaim(f: Files, owner: Id, leftovers: nat, spec: Spec, now: nat)
    requires PlanClaim(f, owner, leftovers, spec, now).Existing?
    ensures var v := PlanClaim(f, owner, leftovers, spec, now).view;
      spec.runId in f.claims && v.spec == spec && Get(f, owner, spec.runId) == Ok(v)
  {
  }

  lemma FreshClaimReads(f: Files, owner: Id, leftovers: nat, spec: Spec, now: nat)
    requires FilesOk(f, owner) && PlanClaim(f, owner, leftovers, spec, now).Fresh?
    ensures var g := ClaimFile(f, PlanClaim(f, owner, leftovers, spec, now).claim);
      spec.runId in g.claims && Get(g, owner, spec.runId).Ok? && Get(g, owner, spec.runId).value.spec == spec
  {
    assert spec.runId !in f.claims ==> spec.runId !in f.starts;
    hide FilesOk, PlanClaim, Get;
    ClaimKeeps(f, owner, leftovers, spec, now);
    GetExact(ClaimFile(f, Claim(owner, spec, now)), owner, spec.runId);
  }

  lemma ClosedStop(f: Files, owner: Id, run: Id, expected: Claim, expectedStart: Start, outcome: Outcome, now: nat)
    requires FilesOk(f, owner) && PlanStop(f, owner, run, expected, expectedStart, outcome, now).Closed?
    ensures StoppedAs(f, run, expected, expectedStart, outcome,
      PlanStop(f, owner, run, expected, expectedStart, outcome, now).view)
  {
    GetExact(f, owner, run);
  }

  lemma StoppedHasRecord(f: Files, run: Id, claim: Claim, start: Start, outcome: Outcome, v: View)
    requires StoppedAs(f, run, claim, start, outcome, v)
    ensures run in f.stops
  {
  }

  lemma WrittenStop(f: Files, owner: Id, run: Id, expected: Claim, expectedStart: Start, outcome: Outcome, now: nat)
    requires FilesOk(f, owner) && PlanStop(f, owner, run, expected, expectedStart, outcome, now).Close?
    ensures var g := StopFile(f, Stop(run, expected, expectedStart, outcome, now));
      run !in f.stops && Get(g, owner, run).Ok?
          && StoppedAs(g, run, expected, expectedStart, outcome, Get(g, owner, run).value)
  {
    hide FilesOk, PlanStop, Get;
    StopKeeps(f, owner, run, expected, expectedStart, outcome, now);
    StopReadsBack(f, owner, run, expected, expectedStart, outcome, now);
    GetExact(StopFile(f, Stop(run, expected, expectedStart, outcome, now)), owner, run);
  }

  /** Closing a starting Run as unknown is stopping it with its own claim and start. */
  lemma UnknownIsStop(f: Files, owner: Id, run: Id, now: nat)
    requires FilesOk(f, owner) && run in StartingRuns(f) && run in f.claims && now != 0
    ensures var claim, start := f.claims[run], f.starts[run];
      var plan := PlanStop(f, owner, run, claim, start, OutcomeUnknown, now);
      if now < start.checkedAt || start.checkedAt < claim.claimedAt then plan.RefuseStop?
      else plan == Close(Stop(run, claim, start, OutcomeUnknown, now))
  {
    GetExact(f, owner, run);
  }

  lemma ClaimWorld(s: AdmissionRuns.World, spec: Spec, now: nat, w: WriteOutcome)
    ensures AdmissionRuns.Step(s, AdmissionRuns.DoClaim(spec, now, w)) ==
      if s.closed then s else s.(dir := ClaimDir(s.dir, s.owner, s.leftovers, spec, now, w))
  {
  }

  lemma StopWorld(s: AdmissionRuns.World, run: Id, e: Claim, es: Start, outcome: Outcome, now: nat, w: WriteOutcome)
    ensures AdmissionRuns.Step(s, AdmissionRuns.DoStop(run, e, es, outcome, now, w)) ==
      if s.closed then s else s.(dir := StopDir(s.dir, s.owner, run, e, es, outcome, now, w))
  {
  }

  /** What the second section of Start does to the directory and to the invocations. */
  lemma CommitWorld(s: AdmissionRuns.World, call: nat, expected: Claim, at: nat, w: WriteOutcome, readable: bool)
    requires AdmissionRuns.Reachable(s.owner, s) && call in s.calls
      && s.calls[call] == AdmissionRuns.Authorizing(s.store, expected)
    ensures var t := AdmissionRuns.Step(s, AdmissionRuns.CommitStart(call, at, w, readable));
      var run := expected.spec.runId;
      var possible := !s.closed && PlanStart(s.dir.Live(), s.owner, run, expected, expected.spec, at).Possible?;
      && t.owner == s.owner && t.leftovers == s.leftovers && t.closed == s.closed
      && t.dir == (if s.closed then s.dir else StartDir(s.dir, s.owner, run, expected, expected.spec, at, w))
      && t.invoked == s.invoked +
         if possible && w == Durable && readable && expected.claimedAt <= at then
             [AdmissionRuns.Invocation(call, run, at)] else []
  {
    hide PlanStart, Get;
    if !s.closed && PlanStart(s.dir.Live(), s.owner, expected.spec.runId, expected, expected.spec, at).Possible? {
      AdmissionRuns.CommitInvokesIff(s.owner, s, call, at, w, readable);
    }
    hide AdmissionRuns.Reachable;
  }

  /** `v` reports the stop record that `f` holds for `run`, with this claim, start and outcome. */
  predicate StoppedAs(f: Files, run: Id, claim: Claim, start: Start, outcome: Outcome, v: View)
  {
    && v.state == Stopped && v.outcome == Some(outcome) && v.admissionDigest == claim
    && v.spec == claim.spec && v.startDigest == Some(start)
    && run in f.stops && f.stops[run].outcome == outcome
  }

  class RuntimeFenceStore {
    const owner: Id
    var dir: Dir<Files>
    var leftovers: nat
    var closed: bool
    ghost var world: AdmissionRuns.World

    predicate Shows(s: AdmissionRuns.World)
      reads this`dir, this`leftovers, this`closed
    {
      s.owner == owner && s.dir == dir && s.leftovers == leftovers && s.closed == closed
    }

    ghost predicate Valid()
      reads this
    {
      AdmissionRuns.Reachable(owner, world) && Shows(world)
    }

    constructor (owner: Id)
      ensures this.owner == owner && Valid() && world == AdmissionRuns.Init(owner)
    {
      this.owner := owner;
      dir := Dir(NO_FILES, []);
      leftovers := 0;
      closed := false;
      world := AdmissionRuns.Init(owner);
      AdmissionRuns.StartStates(owner);
    }

    /** The store of a later process, or of this one after Close, on the directory `found`. */
    constructor Reopen(owner: Id, found: Dir<Files>, leftovers: nat, ghost left: AdmissionRuns.World)
      requires AdmissionRuns.Reachable(owner, left) && left.closed
      requires left.owner == owner && left.dir == found && left.leftovers == leftovers
      ensures this.owner == owner && Valid() && world == AdmissionRuns.Step(left, AdmissionRuns.ReopenStore)
    {
      this.owner := owner;
      dir := found;
      this.leftovers := leftovers;
      closed := false;
      world := AdmissionRuns.Step(left, AdmissionRuns.ReopenStore);
      AdmissionRuns.ReachableStep(owner, left, AdmissionRuns.ReopenStore);
    }

    /** The whole journal takes the action `a`. */
    ghost method Take(a: AdmissionRuns.Action)
      requires AdmissionRuns.Reachable(owner, world)
      modifies this`world
      ensures AdmissionRuns.Reachable(owner, world) && world == AdmissionRuns.Step(old(world), a)
    {
      AdmissionRuns.ReachableStep(owner, world, a);
      world := AdmissionRuns.Step(world, a);
    }

    lemma ContentOk()
      requires Valid()
      ensures FilesOk(dir.Live(), owner)
    {
      Ends(dir);
      AdmissionRuns.EveryContentWellFormed(owner, world, |dir.Snapshots()| - 1);
    }

    /** However it was used, the store has said invoke at most once per Run, each time with a durable start. */
    lemma InvokedOnce()
      requires Valid()
      ensures forall i, j :: 0 <= i < j < |world.invoked| ==> world.invoked[i].run != world.invoked[j].run
      ensures forall i :: 0 <= i < |world.invoked| ==> world.invoked[i].run in dir.durable.starts
    {
      AdmissionRuns.InvokeAtMostOnce(owner, world);
      forall i | 0 <= i < |world.invoked| ensures world.invoked[i].run in dir.durable.starts {
        AdmissionRuns.InvokeIsDurableAndCurrent(owner, world, world.invoked[i]);
      }
    }

    /** The inventory, read one claimed Run at a time. */
    method ListRuns() returns (r: Result<map<Id, View>>)
      ensures r == if closed then Err(Changed) else List(dir.Live(), owner, leftovers)
    {
      if closed { return Err(Changed); }
      var f := dir.Live();
      if |f.claims| + |f.starts| + |f.stops| + leftovers > MAX_ADMISSIONS * 3 + ENTRY_SLACK { return Err(Changed); }
      if !(f.starts.Keys <= f.claims.Keys && f.stops.Keys <= f.claims.Keys && f.stops.Keys <= f.starts.Keys) {
        return Err(Changed);
      }
      var todo := f.claims.Keys;
      var views: map<Id, View> := map[];
      while todo != {}
        invariant todo <= f.claims.Keys && views.Keys == f.claims.Keys - todo
        invariant forall run :: run in views ==> Get(f, owner, run) == Ok(views[run])
        decreases todo
      {
        var run :| run in todo;
        var view := Get(f, owner, run);
        if view.Err? { return Err(Changed); }
        views := views[run := view.value];
        todo := todo - {run};
      }
      if |f.claims| > MAX_ADMISSIONS { return Err(Changed); }
      assert views == map run | run in f.claims :: Get(f, owner, run).value;
      return Ok(views);
    }

    method ClaimRun(spec: Spec, now: nat, w: WriteOutcome) returns (r: Result<View>)
      requires Valid()
      modifies this`dir, this`world
      ensures Valid() && world == AdmissionRuns.Step(old(world), AdmissionRuns.DoClaim(spec, now, w))
      ensures Extends(old(dir).Live(), dir.Live())
      ensures r.Ok? <==> !closed && ClaimGranted(old(dir).Live(), owner, leftovers, spec, now, w)
      ensures r.Ok? ==>
        r.value.spec == spec && spec.runId in dir.Live().claims && Get(dir.Live(), owner, spec.runId) == r
      ensures r.Ok? && spec.runId !in old(dir).Live().claims ==>
        dir == Dir(ClaimFile(old(dir).Live(), Claim(owner, spec, now)), [])
    {
      hide FilesOk, Extends, ClaimDir, Get, AdmissionRuns.Reachable, AdmissionRuns.Step;
      ContentOk();
      ClaimWorld(world, spec, now, w);
      ExtendsSelf(dir.Live());
      r := Err(Changed);
      if !closed {
        r := WriteClaim(spec, now, w);
      }
      Take(AdmissionRuns.DoClaim(spec, now, w));
    }

    method WriteClaim(spec: Spec, now: nat, w: WriteOutcome) returns (r: Result<View>)
      requires FilesOk(dir.Live(), owner)
      modifies this`dir
      ensures Extends(old(dir).Live(), dir.Live()) && dir == ClaimDir(old(dir), owner, leftovers, spec, now, w)
      ensures r.Ok? <==> ClaimGranted(old(dir).Live(), owner, leftovers, spec, now, w)
      ensures r.Ok? ==>
        r.value.spec == spec && spec.runId in dir.Live().claims && Get(dir.Live(), owner, spec.runId) == r
      ensures r.Ok? && spec.runId !in old(dir).Live().claims ==>
        dir == Dir(ClaimFile(old(dir).Live(), Claim(owner, spec, now)), [])
    {
      hide FilesOk, Extends, PlanClaim, Get, ClaimGranted;
      ClaimGrantedIff(dir.Live(), owner, leftovers, spec, now, w);
      ExtendsSelf(dir.Live());
      var f := dir.Live();
      match PlanClaim(f, owner, leftovers, spec, now) {
        case Refuse(error) => return Err(error);
        case Existing(view) =>
          ExistingClaim(f, owner, leftovers, spec, now);
          return Ok(view);
        case Fresh(claim) =>
          ClaimKeeps(f, owner, leftovers, spec, now);
          FreshClaimReads(f, owner, leftovers, spec, now);
          dir := dir.Write(ClaimFile(f, claim), w);
          if w != Durable { return Err(Io); }
          r := Get(dir.Live(), owner, spec.runId);
      }
    }

    /** Start before the callback: the current view, if it has the expected digest; `authorize` says that
        the Run is still claimed, so the callback is asked. */
    method ReadBeforeAuthority(call: nat, expected: Claim) returns (r: Result<View>, authorize: bool)
      requires Valid() && AdmissionRuns.FreshCall(world, call)
      modifies this`world
      ensures Valid() && world == AdmissionRuns.Step(old(world), AdmissionRuns.BeginStart(call, expected))
      ensures var run, f := expected.spec.runId, dir.Live();
        && (r.Ok? <==> !closed && run in f.claims && f.claims[run] == expected && !StartsBeforeClaim(f, run))
        && (authorize <==> !closed && run in f.claims && f.claims[run] == expected && run !in f.starts)
      ensures r.Ok? ==> r == Get(dir.Live(), owner, expected.spec.runId)
      ensures authorize <==> call in world.calls && world.calls[call].Authorizing?
    {
      ContentOk();
      ReadsExpected(dir.Live(), owner, expected);
      hide AdmissionRuns.Reachable, Get, FilesOk, StartsBeforeClaim;
      r := Err(Changed);
      if !closed {
        r := Get(dir.Live(), owner, expected.spec.runId);
        if r.Ok? && r.value.admissionDigest != expected {
          r := Err(Conflict);
        }
      }
      authorize := r.Ok? && r.value.state == Claimed;
      Take(AdmissionRuns.BeginStart(call, expected));
    }

    /** Start after the callback: recheck everything, then write the possible-start record. */
    method CommitAfterAuthority(call: nat, expected: Claim, authorizedAt: nat, w: WriteOutcome, readable: bool)
      returns (r: Result<View>, invoke: bool)
      requires Valid() && call in world.calls && world.calls[call] == AdmissionRuns.Authorizing(world.store, expected)
      modifies this`dir, this`world
      ensures Valid() && Extends(old(dir).Live(), dir.Live())
      ensures world == AdmissionRuns.Step(old(world), AdmissionRuns.CommitStart(call, authorizedAt, w, readable))
      ensures var run, spec, f := expected.spec.runId, expected.spec, old(dir).Live();
        var allowed := && !closed && run in f.claims && f.claims[run] == expected && run !in f.starts
                       && authorizedAt != 0 && spec.issuedAt <= authorizedAt && authorizedAt < spec.workspaceExpiresAt
                       && authorizedAt < spec.grantExpiresAt && authorizedAt < spec.deadline;
        && (invoke <==> allowed && w == Durable && readable && expected.claimedAt <= authorizedAt)
        && dir == if allowed then old(dir).Write(StartFile(f, Start(run, expected, authorizedAt)), w) else old(dir)
      ensures invoke ==> r.Ok? && r.value.startDigest == Some(Start(expected.spec.runId, expected, authorizedAt))
      ensures world.invoked == old(world).invoked +
        if invoke then [AdmissionRuns.Invocation(call, expected.spec.runId, authorizedAt)] else []
      ensures r.Err? && expected.spec.runId in dir.Live().starts && expected.spec.runId !in old(dir).Live().starts ==>
        r.error == Io || r.error == Changed
    {
      ContentOk();
      ghost var a := AdmissionRuns.CommitStart(call, authorizedAt, w, readable);
      StartAnswer(dir.Live(), owner, expected.spec.runId, expected, authorizedAt);
      CommitWorld(world, call, expected, authorizedAt, w, readable);
      hide FilesOk, Extends, PlanStart, Get, AdmissionRuns.Reachable, AdmissionRuns.Step, AdmissionRuns.StepCommit;
      ExtendsSelf(dir.Live());
      r, invoke := Err(Changed), false;
      if !closed {
        r, invoke := WriteStart(expected, authorizedAt, w, readable);
      }
      Take(a);
    }

    /** The recheck and the write, under the store mutex. */
    method WriteStart(expected: Claim, authorizedAt: nat, w: WriteOutcome, readable: bool)
      returns (r: Result<View>, invoke: bool)
      requires FilesOk(dir.Live(), owner)
      modifies this`dir
      ensures Extends(old(dir).Live(), dir.Live())
      ensures dir == StartDir(old(dir), owner, expected.spec.runId, expected, expected.spec, authorizedAt, w)
      ensures invoke <==>
        && PlanStart(old(dir).Live(), owner, expected.spec.runId, expected, expected.spec, authorizedAt).Possible?
        && w == Durable && readable && expected.claimedAt <= authorizedAt
      ensures invoke ==> r.Ok? && r.value.startDigest == Some(Start(expected.spec.runId, expected, authorizedAt))
      ensures r.Err? && expected.spec.runId in dir.Live().starts && expected.spec.runId !in old(dir).Live().starts ==>
        r.error == Io || r.error == Changed
    {
      hide FilesOk, Extends, PlanStart, Get;
      var run := expected.spec.runId;
      ExtendsSelf(dir.Live());
      var f := dir.Live();
      match PlanStart(f, owner, run, expected, expected.spec, authorizedAt) {
        case RefuseStart(error) => return Err(error), false;
        case Replay(view) => return Ok(view), false;
        case Possible(start) =>
          StartKeeps(f, owner, run, expected, expected.spec, authorizedAt);
          dir := dir.Write(StartFile(f, start), w);
          if w != Durable || !readable { return Err(Io), false; }
          StartReadsBack(f, owner, run, expected, expected.spec, authorizedAt);
          GetExact(dir.Live(), owner, run);
          r := Get(dir.Live(), owner, run);
          invoke := r.Ok?;
      }
    }

    method StopRun(run: Id, expected: Claim, expectedStart: Start, outcome: Outcome, now: nat, w: WriteOutcome)
      returns (r: Result<View>)
      requires Valid()
      modifies this`dir, this`world
      ensures Valid() && Extends(old(dir).Live(), dir.Live())
      ensures world == AdmissionRuns.Step(old(world),
        AdmissionRuns.DoStop(run, expected, expectedStart, outcome, now, w))
      ensures r.Ok? <==> !closed && StopGranted(old(dir).Live(), run, expected, expectedStart, outcome, now, w)
      ensures r.Ok? ==>
        && StoppedAs(dir.Live(), run, expected, expectedStart, outcome, r.value)
        && dir.Live() == (if run in old(dir).Live().stops then old(dir).Live()
                          else StopFile(old(dir).Live(), Stop(run, expected, expectedStart, outcome, now)))
    {
      hide FilesOk, Extends, StopDir, StoppedAs, AdmissionRuns.Reachable, AdmissionRuns.Step;
      ContentOk();
      StopWorld(world, run, expected, expectedStart, outcome, now, w);
      ExtendsSelf(dir.Live());
      r := Err(Changed);
      if !closed {
        r := WriteStop(run, expected, expectedStart, outcome, now, w);
      }
      Take(AdmissionRuns.DoStop(run, expected, expectedStart, outcome, now, w));
    }

    method WriteStop(run: Id, expected: Claim, expectedStart: Start, outcome: Outcome, now: nat, w: WriteOutcome)
      returns (r: Result<View>)
      requires FilesOk(dir.Live(), owner)
      modifies this`dir
      ensures Extends(old(dir).Live(), dir.Live())
      ensures dir == StopDir(old(dir), owner, run, expected, expectedStart, outcome, now, w)
      ensures r.Ok? <==> StopGranted(old(dir).Live(), run, expected, expectedStart, outcome, now, w)
      ensures r.Ok? ==>
        && StoppedAs(dir.Live(), run, expected, expectedStart, outcome, r.value)
        && dir.Live() == (if run in old(dir).Live().stops then old(dir).Live()
                          else StopFile(old(dir).Live(), Stop(run, expected, expectedStart, outcome, now)))
    {
      hide FilesOk, Extends, PlanStop, Get, StoppedAs, StopGranted;
      StopGrantedIff(dir.Live(), owner, run, expected, expectedStart, outcome, now, w);
      ExtendsSelf(dir.Live());
      var f := dir.Live();
      match PlanStop(f, owner, run, expected, expectedStart, outcome, now) {
        case RefuseStop(error) => return Err(error);
        case Closed(view) =>
          ClosedStop(f, owner, run, expected, expectedStart, outcome, now);
          StoppedHasRecord(f, run, expected, expectedStart, outcome, view);
          return Ok(view);
        case Close(stop) =>
          StopKeeps(f, owner, run, expected, expectedStart, outcome, now);
          WrittenStop(f, owner, run, expected, expectedStart, outcome, now);
          dir := dir.Write(StopFile(f, stop), w);
          if w != Durable { return Err(Io); }
          r := Get(dir.Live(), owner, run);
      }
    }

    method CloseStore()
      requires Valid()
      modifies this`closed, this`world
      ensures Valid() && closed && world == AdmissionRuns.Step(old(world), AdmissionRuns.CloseStore)
    {
      hide AdmissionRuns.Reachable;
      closed := true;
      Take(AdmissionRuns.CloseStore);
    }

    /** Write the outcome_unknown stop record of one starting Run. */
    method CloseUnknown(run: Id, now: nat, w: WriteOutcome) returns (error: Option<Error>)
      requires Valid() && !closed && now != 0 && run in StartingRuns(dir.Live())
      modifies this`dir, this`world
      ensures Valid() && OnlyClosed(old(dir).Live(), dir.Live(), {run}, now)
      ensures error.None? ==> StartingRuns(dir.Live()) == StartingRuns(old(dir).Live()) - {run}
      ensures run in old(dir).Live().claims && run in old(dir).Live().starts
      ensures error.None? <==> ClosesUnknown(old(dir).Live(), run, now, w)
      ensures closed == old(closed) && world.invoked == old(world).invoked
    {
      hide FilesOk, OnlyClosed, AdmissionRuns.Reachable, AdmissionRuns.Step, PlanStop;
      ContentOk();
      var f := dir.Live();
      OnlyClosedNothing(f, owner, run, now);
      var claim, start := f.claims[run], f.starts[run];
      UnknownIsStop(f, owner, run, now);
      StopWorld(world, run, claim, start, OutcomeUnknown, now, w);
      if now < start.checkedAt || start.checkedAt < claim.claimedAt {
        error := Some(Invalid);
      } else {
        OnlyClosedOne(f, owner, run, now);
        dir := dir.Write(StopFile(f, Stop(run, claim, start, OutcomeUnknown, now)), w);
        error := if w == Durable then None else Some(Io);
      }
      Take(AdmissionRuns.DoStop(run, claim, start, OutcomeUnknown, now, w));
    }

    /** Close every possible start that lacks a stop receipt, one write at a time. */
    method RecoverUnknown(now: nat, writes: Id -> WriteOutcome) returns (r: Result<set<Id>>)
      requires Valid()
      modifies this`dir, this`world
      ensures Valid() && OnlyClosed(old(dir).Live(), dir.Live(), StartingRuns(old(dir).Live()), now)
      ensures r.Ok? ==> r.value == StartingRuns(old(dir).Live()) && StartingRuns(dir.Live()) == {}
      ensures var f := old(dir).Live();
        r.Ok? <==> && !closed && now != 0 && InventoryReadable(f, leftovers)
                   && forall run :: run in f.starts && run !in f.stops ==>
                     f.starts[run].checkedAt <= now && writes(run) == Durable
      ensures world.invoked == old(world).invoked
    {
      hide OnlyClosed, StartingRuns, List, AdmissionRuns.Reachable, InventoryReadable, AllCloseUnknown, FilesOk;
      ContentOk();
      InventoryHere(dir.Live(), owner, leftovers);
      if InventoryReadable(dir.Live(), leftovers) {
        UnknownCloses(dir.Live(), owner, leftovers, now, writes);
      }
      r := CloseEachStarting(now, writes);
    }

    /** The loop of RecoverUnknown over the starting Runs of the inventory. */
    method CloseEachStarting(now: nat, writes: Id -> WriteOutcome) returns (r: Result<set<Id>>)
      requires Valid()
      modifies this`dir, this`world
      ensures Valid() && OnlyClosed(old(dir).Live(), dir.Live(), StartingRuns(old(dir).Live()), now)
      ensures r.Ok? ==> r.value == StartingRuns(old(dir).Live()) && StartingRuns(dir.Live()) == {}
      ensures r.Ok? <==>
        && !closed && now != 0 && List(old(dir).Live(), owner, leftovers).Ok?
        && AllCloseUnknown(old(dir).Live(), now, writes)
      ensures world.invoked == old(world).invoked
    {
      hide OnlyClosed, StartingRuns, List, AdmissionRuns.Reachable, ClosesUnknown;
      var before := dir.Live();
      NothingClosed(before, StartingRuns(before), now);
      if closed { return Err(Changed); }
      if now == 0 { return Err(Invalid); }
      var views := ListRuns();
      if views.Err? { return Err(views.error); }
      while StartingRuns(dir.Live()) != {}
        invariant Valid() && OnlyClosed(before, dir.Live(), StartingRuns(before), now)
        invariant StartingRuns(dir.Live()) <= StartingRuns(before)
        invariant forall run :: run in StartingRuns(before) && run !in StartingRuns(dir.Live()) ==>
          run in before.claims && run in before.starts && ClosesUnknown(before, run, now, writes(run))
        invariant world.invoked == old(world).invoked
        decreases StartingRuns(dir.Live())
      {
        var f := dir.Live();
        var run :| run in StartingRuns(f);
        var error := CloseUnknown(run, now, writes(run));
        SameClosing(before, f, StartingRuns(before), now, run, writes(run));
        OnlyClosedTransitive(before, f, dir.Live(), StartingRuns(before), run, now);
        if error.Some? { return Err(error.value); }
      }
      return Ok(StartingRuns(before));
    }

    /** Repository retirement is authorized exactly for a stopped Run with that very scope. */
    method WithStoppedRun(scope: CleanupScope) returns (authorized: bool)
      requires Valid()
      ensures authorized <==>
        && !closed && scope.runId in dir.Live().stops && scope.runId in dir.Live().claims
        && var spec := dir.Live().claims[scope.runId].spec;
           scope == CleanupScope(spec.runId, spec.repositoryId, spec.bindingId, spec.planId, spec.planRevision,
                                 spec.nodeKey, spec.taskId, spec.agentId, spec.deviceId, spec.workspaceRef,
                                 spec.workspaceGeneration, spec.manifestDigest)
    {
      if closed { return false; }
      ContentOk();
      var f := dir.Live();
      var view := Get(f, owner, scope.runId);
      if scope.runId in f.claims {
        GetExact(f, owner, scope.runId);
      }
      authorized := view.Ok? && view.value.state == Stopped && ScopeMatches(view.value.spec, scope);
    }
  }
}
