/**
 Every interleaving of the admission journal: concurrent coordinator Start calls
 (the store mutex is free while their authority callback runs), Claims, Stops,
 store close and reopen, process restarts and power losses.

 A run is a sequence of actions from the empty directory. An action that is not
 enabled changes nothing, so every sequence is a run.
 */
module AdmissionRuns {
  import opened DurableDirectory
  import opened Maps
  import opened Options
  import opened RuntimeFence
  import opened AdmissionAnswers

  /** Where one coordinator Start call is. */
  datatype Call =
    | Authorizing(store: nat, ticket: Claim)   // first section passed, callback running, mutex free
    | Observing(store: nat, ticket: Claim)     // fence Start failed without a callback failure; about to Get

  /** What coordinator Start returned. */
  datatype StartResult =
    | Invoke(view: View)
    | NoInvoke(view: View)
    | Refused                                  // an error without ErrAdmissionPossibleStart
    | PossibleStart                            // an error carrying ErrAdmissionPossibleStart

  datatype Invocation = Invocation(call: nat, run: Id, at: nat)

  /** `invoked` and `linked` are history: who got invoke=true, and whose write created a start record. */
  datatype World = World(
    owner: Id, dir: Dir<Files>, leftovers: nat, store: nat, closed: bool,
    calls: map<nat, Call>, results: map<nat, StartResult>,
    invoked: seq<Invocation>, linked: set<nat>)

  datatype Action =
    | DoClaim(spec: Spec, now: nat, w: WriteOutcome)
    | BeginStart(call: nat, ticket: Claim)
    | DenyStart(call: nat)
    | CommitStart(call: nat, authorizedAt: nat, w: WriteOutcome, readable: bool)
    | ObserveStart(call: nat, readable: bool)
    | DoStop(run: Id, expected: Claim, expectedStart: Start, outcome: Outcome, now: nat, w: WriteOutcome)
    | CloseStore
    | ReopenStore
    | RestartProcess(moreLeftovers: nat)
    | LosePower(kept: nat, moreLeftovers: nat)

  function Init(owner: Id): (s: World)
  {
    World(owner, Dir(NO_FILES, []), 0, 0, false, map[], map[], [], {})
  }

  predicate FreshCall(s: World, call: nat)
  {
    call !in s.calls && call !in s.results && call !in s.linked
  }

  function Return(s: World, call: nat, r: StartResult): (t: World)
  {
    s.(calls := s.calls - {call}, results := s.results[call := r])
  }

  /** First critical section of fence Start and the checks that follow it. */
  function StepBegin(s: World, call: nat, ticket: Claim): (t: World)
  {
    if !FreshCall(s, call) then s
    else if s.closed then s.(calls := s.calls[call := Observing(s.store, ticket)])
    else
      var got := Get(s.dir.Live(), s.owner, ticket.spec.runId);
      if got.Err? || got.value.admissionDigest != ticket then s.(calls := s.calls[call := Observing(s.store, ticket)])
      else if got.value.state != Claimed then Return(s, call, NoInvoke(got.value))
      else s.(calls := s.calls[call := Authorizing(s.store, ticket)])
  }

  /** Second critical section of fence Start, after the callback succeeded. */
  function StepCommit(s: World, call: nat, at: nat, w: WriteOutcome, readable: bool): (t: World)
  {
    if call !in s.calls || !s.calls[call].Authorizing? then s
    else
      var c := s.calls[call];
      var run := c.ticket.spec.runId;
      var failed := s.(calls := s.calls[call := Observing(c.store, c.ticket)]);
      if s.closed || c.store != s.store then failed
      else
        var plan := PlanStart(s.dir.Live(), s.owner, run, c.ticket, c.ticket.spec, at);
        match plan
        case RefuseStart(_) => failed
        case Replay(view) => Return(s, call, NoInvoke(view))
        case Possible(_) =>
          var dir := StartDir(s.dir, s.owner, run, c.ticket, c.ticket.spec, at, w);
          if w == NotLinked then failed
          else if w == LinkedUnsynced then failed.(dir := dir, linked := s.linked + {call})
          else
            var back := Get(dir.Live(), s.owner, run);
            if !readable || back.Err? then failed.(dir := dir, linked := s.linked + {call})
            else Return(s, call, Invoke(back.value)).(dir := dir, linked := s.linked + {call},
                                                      invoked := s.invoked + [Invocation(call, run, at)])
  }

  /** The coordinator's Get after an error that no callback failure explains. */
  function StepObserve(s: World, call: nat, readable: bool): (t: World)
  {
    if call !in s.calls || !s.calls[call].Observing? then s
    else
      var c := s.calls[call];
      var got := Get(s.dir.Live(), s.owner, c.ticket.spec.runId);
      if !s.closed && c.store == s.store && readable && got.Ok? && got.value.admissionDigest == c.ticket
         && got.value.spec == c.ticket.spec && got.value.state == Claimed
      then Return(s, call, Refused)
      else Return(s, call, PossibleStart)
  }

  function Step(s: World, a: Action): (t: World)
  {
    match a
    case DoClaim(spec, now, w) => if s.closed then s else s.(dir := ClaimDir(s.dir, s.owner, s.leftovers, spec, now, w))
    case BeginStart(call, ticket) => StepBegin(s, call, ticket)
    case DenyStart(call) => if call in s.calls && s.calls[call].Authorizing? then Return(s, call, Refused) else s
    case CommitStart(call, at, w, readable) => StepCommit(s, call, at, w, readable)
    case ObserveStart(call, readable) => StepObserve(s, call, readable)
    case DoStop(run, e, es, outcome, now, w) =>
      if s.closed then s else s.(dir := StopDir(s.dir, s.owner, run, e, es, outcome, now, w))
    case CloseStore => s.(closed := true)
    case ReopenStore => if s.closed then s.(closed := false, store := s.store + 1) else s
    case RestartProcess(more) => s.(closed := true, calls := map[], leftovers := s.leftovers + more)
    case LosePower(kept, more) =>
        s.(closed := true, calls := map[], leftovers := s.leftovers + more, dir := s.dir.PowerLoss(kept))
  }

  function Run(s: World, actions: seq<Action>): (t: World)
    decreases |actions|
  {
    if actions == [] then s else Step(Run(s, actions[..|actions| - 1]), actions[|actions| - 1])
  }

  // ---------- the invariant ----------

  ghost predicate DirOk(d: Dir<Files>, owner: Id)
  {
    && (forall i :: 0 <= i < |d.Snapshots()| ==> FilesOk(d.Snapshots()[i], owner))
    && (forall i, j :: 0 <= i <= j < |d.Snapshots()| ==> Extends(d.Snapshots()[i], d.Snapshots()[j]))
  }

  ghost predicate InvocationOk(s: World, v: Invocation)
  {
    var f := s.dir.durable;
    && v.run in f.starts && v.run in f.claims && f.starts[v.run].checkedAt == v.at
    && Current(f.claims[v.run].spec, v.at)
    && f.claims[v.run].claimedAt <= v.at
    && v.call in s.linked && v.call in s.results && s.results[v.call].Invoke?
  }

  ghost predicate CallsOk(s: World)
  {
    && s.calls.Keys !! s.results.Keys
    && (forall c :: c in s.calls && s.calls[c].Authorizing? ==> c !in s.linked)
    && (forall c :: c in s.calls && c in s.linked && s.calls[c].store == s.store ==>
          s.calls[c].ticket.spec.runId in s.dir.Live().starts)
    && (forall c :: c in s.calls ==> s.calls[c].store <= s.store)
  }

  ghost predicate ResultsOk(s: World)
  {
    && (forall c :: c in s.results && s.results[c].Refused? ==> c !in s.linked)
    && (forall c :: c in s.results && s.results[c].Invoke? ==> exists i ::
        0 <= i < |s.invoked| && s.invoked[i].call == c)
  }

  ghost predicate AtMostOnce(s: World)
  {
    forall i, j :: 0 <= i < j < |s.invoked| ==> s.invoked[i].run != s.invoked[j].run
  }

  ghost predicate Inv(s: World)
  {
    && DirOk(s.dir, s.owner)
    && (forall i :: 0 <= i < |s.invoked| ==> InvocationOk(s, s.invoked[i]))
    && AtMostOnce(s) && CallsOk(s) && ResultsOk(s)
  }

  // ---------- directory steps ----------

  lemma ExtendsTransitive(f: Files, g: Files, h: Files)
    requires Extends(f, g) && Extends(g, h)
    ensures Extends(f, h)
  {
  }

  lemma WriteKeeps(d: Dir<Files>, owner: Id, after: Files, w: WriteOutcome)
    requires DirOk(d, owner) && FilesOk(after, owner) && Extends(d.Live(), after)
    ensures DirOk(d.Write(after, w), owner)
    ensures Extends(d.durable, d.Write(after, w).durable)
    ensures Extends(d.Live(), d.Write(after, w).Live())
  {
    hide FilesOk, Extends;
    Ends(d);
    var old' := d.Snapshots();
    var e := d.Write(after, w);
    assert Extends(old'[0], old'[0]) && Extends(old'[|old'| - 1], old'[|old'| - 1]);
    forall i | 0 <= i < |old'| ensures Extends(old'[i], after) {
      ExtendsTransitive(old'[i], d.Live(), after);
    }
    assert Extends(old'[0], after);
    ExtendsSelf(after);
    if w == LinkedUnsynced {
      var new' := e.Snapshots();
      WriteContents(d, after, w);
      forall i, j | 0 <= i <= j < |new'| ensures Extends(new'[i], new'[j]) {
        assert i < |old'| ==> new'[i] == old'[i];
      }
    }
  }

  lemma ClaimDirKeeps(s: World, spec: Spec, now: nat, w: WriteOutcome)
    requires DirOk(s.dir, s.owner)
    ensures var e := ClaimDir(s.dir, s.owner, s.leftovers, spec, now, w);
      DirOk(e, s.owner) && Extends(s.dir.durable, e.durable) && Extends(s.dir.Live(), e.Live())
  {
    hide FilesOk, Extends, PlanClaim;
    var f := s.dir.Live();
    Ends(s.dir);
    ExtendsSelf(f);
    ExtendsSelf(s.dir.durable);
    var plan := PlanClaim(f, s.owner, s.leftovers, spec, now);
    if plan.Fresh? {
      ClaimKeeps(f, s.owner, s.leftovers, spec, now);
      WriteKeeps(s.dir, s.owner, ClaimFile(f, plan.claim), w);
    }
  }

  lemma StartDirKeeps(s: World, run: Id, expected: Claim, seen: Spec, at: nat, w: WriteOutcome)
    requires DirOk(s.dir, s.owner)
    ensures var e := StartDir(s.dir, s.owner, run, expected, seen, at, w);
      DirOk(e, s.owner) && Extends(s.dir.durable, e.durable) && Extends(s.dir.Live(), e.Live())
  {
    hide FilesOk, Extends, PlanStart;
    var f := s.dir.Live();
    Ends(s.dir);
    ExtendsSelf(f);
    ExtendsSelf(s.dir.durable);
    var plan := PlanStart(f, s.owner, run, expected, seen, at);
    if plan.Possible? {
      StartKeeps(f, s.owner, run, expected, seen, at);
      WriteKeeps(s.dir, s.owner, StartFile(f, plan.start), w);
    }
  }

  lemma StopDirKeeps(s: World, run: Id, e: Claim, es: Start, outcome: Outcome, now: nat, w: WriteOutcome)
    requires DirOk(s.dir, s.owner)
    ensures var d := StopDir(s.dir, s.owner, run, e, es, outcome, now, w);
      DirOk(d, s.owner) && Extends(s.dir.durable, d.durable) && Extends(s.dir.Live(), d.Live())
  {
    hide FilesOk, Extends, PlanStop;
    var f := s.dir.Live();
    Ends(s.dir);
    ExtendsSelf(f);
    ExtendsSelf(s.dir.durable);
    var plan := PlanStop(f, s.owner, run, e, es, outcome, now);
    if plan.Close? {
      StopKeeps(f, s.owner, run, e, es, outcome, now);
      WriteKeeps(s.dir, s.owner, StopFile(f, plan.stop), w);
    }
  }

  lemma PowerLossKeeps(d: Dir<Files>, owner: Id, k: nat)
    requires DirOk(d, owner)
    ensures DirOk(d.PowerLoss(k), owner) && Extends(d.durable, d.PowerLoss(k).durable)
  {
    hide FilesOk, Extends;
    ExtendsSelf(d.durable);
    assert d.Snapshots()[0] == d.durable;
    if k < |d.Snapshots()| {
      assert Extends(d.Snapshots()[0], d.Snapshots()[k]);
      ExtendsSelf(d.Snapshots()[k]);
    }
  }

  // ---------- preservation ----------

  /** Steps that only grow the directory keep every past invocation justified. */
  lemma GrowKeeps(s: World, t: World)
    requires Inv(s)
    requires t == s.(dir := t.dir) && DirOk(t.dir, s.owner)
    requires Extends(s.dir.durable, t.dir.durable) && Extends(s.dir.Live(), t.dir.Live())
    ensures Inv(t)
  {
    hide FilesOk, DirOk;
    forall i | 0 <= i < |t.invoked| ensures InvocationOk(t, t.invoked[i]) {
      assert InvocationOk(s, s.invoked[i]);
    }
  }

  lemma ReturnKeeps(s: World, call: nat, r: StartResult)
    requires Inv(s) && call !in s.results && !r.Invoke? && (r.Refused? ==> call !in s.linked)
    ensures Inv(Return(s, call, r))
  {
    hide FilesOk, DirOk, Extends;
    var t := Return(s, call, r);
    forall i | 0 <= i < |t.invoked| ensures InvocationOk(t, t.invoked[i]) {
      assert InvocationOk(s, s.invoked[i]);
    }
  }

  lemma BeginKeeps(s: World, call: nat, ticket: Claim)
    requires Inv(s)
    ensures Inv(StepBegin(s, call, ticket))
  {
    hide FilesOk, DirOk, Extends, Get;
    var t := StepBegin(s, call, ticket);
    if FreshCall(s, call) {
      if t.results != s.results {
        var got := Get(s.dir.Live(), s.owner, ticket.spec.runId);
        ReturnKeeps(s, call, NoInvoke(got.value));
      } else {
        forall i | 0 <= i < |t.invoked| ensures InvocationOk(t, t.invoked[i]) {
          assert InvocationOk(s, s.invoked[i]);
        }
      }
    }
  }

  lemma ObserveKeeps(s: World, call: nat, readable: bool)
    requires Inv(s)
    ensures Inv(StepObserve(s, call, readable))
  {
    if call in s.calls && s.calls[call].Observing? {
      var c := s.calls[call];
      var run := c.ticket.spec.runId;
      var f := s.dir.Live();
      Ends(s.dir);
      var got := Get(f, s.owner, run);
      if got.Ok? && got.value.state == Claimed {
        assert run !in f.starts by { GetExact(f, s.owner, run); }
      }
      hide FilesOk, DirOk, Extends, Get;
      if StepObserve(s, call, readable).results[call].Refused? {
        ReturnKeeps(s, call, Refused);
      } else {
        ReturnKeeps(s, call, PossibleStart);
      }
    }
  }

  /** Every commit but the one that invokes: the caller is left observing. */
  lemma CommitFailsKeeps(s: World, call: nat, d: Dir<Files>, wrote: bool)
    requires Inv(s) && call in s.calls && s.calls[call].Authorizing?
    requires DirOk(d, s.owner) && Extends(s.dir.durable, d.durable) && Extends(s.dir.Live(), d.Live())
    requires wrote ==> s.calls[call].ticket.spec.runId in d.Live().starts
    ensures var c := s.calls[call];
      Inv(s.(calls := s.calls[call := Observing(c.store, c.ticket)], dir := d,
             linked := if wrote then s.linked + {call} else s.linked))
  {
    var c := s.calls[call];
    var t := s.(calls := s.calls[call := Observing(c.store, c.ticket)], dir := d,
                linked := if wrote then s.linked + {call} else s.linked);
    hide FilesOk, DirOk;
    forall i | 0 <= i < |t.invoked| ensures InvocationOk(t, t.invoked[i]) {
      assert InvocationOk(s, s.invoked[i]);
    }
    forall k | k in t.calls && k in t.linked && t.calls[k].store == t.store
      ensures t.calls[k].ticket.spec.runId in t.dir.Live().starts
    {
      if k != call {
        assert k in s.linked;
      }
    }
  }

  /** The commit that invokes: its Run had no start record, so nobody was told to invoke it before. */
  lemma InvokeKeeps(s: World, call: nat, at: nat, view: View, d: Dir<Files>)
    requires Inv(s) && call in s.calls && s.calls[call].Authorizing?
    requires DirOk(d, s.owner) && Extends(s.dir.durable, d.durable) && Extends(s.dir.Live(), d.Live())
    requires var run := s.calls[call].ticket.spec.runId;
      && run !in s.dir.durable.starts
      && run in d.durable.starts && run in d.durable.claims && d.durable.starts[run].checkedAt == at
      && Current(d.durable.claims[run].spec, at) && d.durable.claims[run].claimedAt <= at
    ensures var run := s.calls[call].ticket.spec.runId;
      Inv(Return(s, call, Invoke(view)).(dir := d, linked := s.linked + {call},
          invoked := s.invoked + [Invocation(call, run, at)]))
  {
    var run := s.calls[call].ticket.spec.runId;
    var t := Return(s, call, Invoke(view)).(dir := d, linked := s.linked + {call},
        invoked := s.invoked + [Invocation(call, run, at)]);
    hide FilesOk, DirOk, Current;
    forall i | 0 <= i < |s.invoked| ensures InvocationOk(t, s.invoked[i]) && s.invoked[i].run != run {
      assert InvocationOk(s, s.invoked[i]);
    }
    InvokeResults(s, call, run, at, view, d);
    hide ResultsOk, Extends;
  }

  lemma InvokeResults(s: World, call: nat, run: Id, at: nat, view: View, d: Dir<Files>)
    requires ResultsOk(s)
    ensures ResultsOk(Return(s, call, Invoke(view)).(dir := d, linked := s.linked + {call},
      invoked := s.invoked + [Invocation(call, run, at)]))
  {
    var t := Return(s, call, Invoke(view)).(dir := d, linked := s.linked + {call},
        invoked := s.invoked + [Invocation(call, run, at)]);
    assert t.invoked[|s.invoked|].call == call;
    forall k | k in t.results && t.results[k].Invoke? ensures exists i ::
        0 <= i < |t.invoked| && t.invoked[i].call == k {
      if k != call {
        var i :| 0 <= i < |s.invoked| && s.invoked[i].call == k;
        assert t.invoked[i].call == k;
      }
    }
  }

  /** What writing the start record does to the directory. */
  lemma StartWritten(s: World, run: Id, ticket: Claim, at: nat, w: WriteOutcome)
    requires DirOk(s.dir, s.owner) && PlanStart(s.dir.Live(), s.owner, run, ticket, ticket.spec, at).Possible?
    ensures var d := StartDir(s.dir, s.owner, run, ticket, ticket.spec, at, w);
      && run !in s.dir.durable.starts
      && (w != NotLinked ==> run in d.Live().starts)
      && (w == Durable ==>
            && run in d.durable.starts && run in d.durable.claims && d.durable.starts[run].checkedAt == at
            && Current(d.durable.claims[run].spec, at)
            && d.durable.claims[run] == ticket
            && (Get(d.Live(), s.owner, run).Ok? <==> ticket.claimedAt <= at))
  {
    var f := s.dir.Live();
    Ends(s.dir);
    assert s.dir.Snapshots()[0] == s.dir.durable;
    assert Extends(s.dir.durable, f);
    StartKeeps(f, s.owner, run, ticket, ticket.spec, at);
    StartReadsBack(f, s.owner, run, ticket, ticket.spec, at);
    hide FilesOk, DirOk, Get, PlanStart, Current;
  }

  lemma CommitPossibleKeeps(s: World, call: nat, at: nat, w: WriteOutcome, readable: bool)
    requires Inv(s) && call in s.calls && s.calls[call].Authorizing? && !s.closed && s.calls[call].store == s.store
    requires PlanStart(s.dir.Live(), s.owner, s.calls[call].ticket.spec.runId, s.calls[call].ticket,
      s.calls[call].ticket.spec, at).Possible?
    ensures Inv(StepCommit(s, call, at, w, readable))
    ensures Extends(s.dir.durable, StepCommit(s, call, at, w, readable).dir.durable)
  {
    var c := s.calls[call];
    var run := c.ticket.spec.runId;
    assert DirOk(s.dir, s.owner);
    hide FilesOk, DirOk, Extends, Get, PlanStart, Inv, Current, StartDir;
    StartWritten(s, run, c.ticket, at, w);
    StartDirKeeps(s, run, c.ticket, c.ticket.spec, at, w);
    var d := StartDir(s.dir, s.owner, run, c.ticket, c.ticket.spec, at, w);
    ExtendsSelf(s.dir.durable);
    ExtendsSelf(s.dir.Live());
    CommitFailsKeeps(s, call, s.dir, false);
    if w != NotLinked {
      CommitFailsKeeps(s, call, d, true);
    }
    if w == Durable && Get(d.Live(), s.owner, run).Ok? {
      InvokeKeeps(s, call, at, Get(d.Live(), s.owner, run).value, d);
    }
  }

  lemma CommitKeeps(s: World, call: nat, at: nat, w: WriteOutcome, readable: bool)
    requires Inv(s)
    ensures Inv(StepCommit(s, call, at, w, readable))
    ensures Extends(s.dir.durable, StepCommit(s, call, at, w, readable).dir.durable)
    ensures StepCommit(s, call, at, w, readable).owner == s.owner
  {
    assert DirOk(s.dir, s.owner) && (call in s.calls ==> call !in s.results);
    hide FilesOk, DirOk, Extends, Get, PlanStart, Inv, StartDir;
    ExtendsSelf(s.dir.durable);
    if call in s.calls && s.calls[call].Authorizing? {
      var c := s.calls[call];
      ExtendsSelf(s.dir.Live());
      CommitFailsKeeps(s, call, s.dir, false);
      var plan := PlanStart(s.dir.Live(), s.owner, c.ticket.spec.runId, c.ticket, c.ticket.spec, at);
      if plan.Possible? && !s.closed && c.store == s.store {
        CommitPossibleKeeps(s, call, at, w, readable);
      } else if plan.Replay? {
        ReturnKeeps(s, call, NoInvoke(plan.view));
      }
    }
  }

  lemma InitInv(owner: Id)
    ensures Inv(Init(owner))
  {
    ExtendsSelf(NO_FILES);
  }

  lemma StepInv(s: World, a: Action)
    requires Inv(s)
    ensures Inv(Step(s, a))
    ensures Extends(s.dir.durable, Step(s, a).dir.durable)
    ensures Step(s, a).owner == s.owner
  {
    ExtendsSelf(s.dir.durable);
    hide AtMostOnce, CallsOk, ResultsOk, InvocationOk, DirOk, Extends, StepCommit, ClaimDir, StopDir;
    match a {
      case DoClaim(spec, now, w) =>
        ClaimDirKeeps(s, spec, now, w);
        if !s.closed { GrowKeeps(s, Step(s, a)); }
      case BeginStart(call, ticket) => BeginKeeps(s, call, ticket);
      case DenyStart(call) =>
        DenyKeeps(s, call);
      case CommitStart(call, at, w, readable) =>
        CommitKeeps(s, call, at, w, readable);
      case ObserveStart(call, readable) => ObserveKeeps(s, call, readable);
      case DoStop(run, e, es, outcome, now, w) =>
        StopDirKeeps(s, run, e, es, outcome, now, w);
        if !s.closed { GrowKeeps(s, Step(s, a)); }
      case CloseStore => QuietKeeps(s, Step(s, a));
      case ReopenStore => QuietKeeps(s, Step(s, a));
      case RestartProcess(more) => QuietKeeps(s, Step(s, a));
      case LosePower(kept, more) =>
        PowerLossKeeps(s.dir, s.owner, kept);
        LoseKeeps(s, Step(s, a));
    }
  }

  lemma DenyKeeps(s: World, call: nat)
    requires Inv(s)
    ensures Inv(Step(s, DenyStart(call)))
  {
    if call in s.calls && s.calls[call].Authorizing? {
      ReturnKeeps(s, call, Refused);
    }
  }

  lemma QuietKeeps(s: World, t: World)
    requires Inv(s)
    requires t.owner == s.owner && t.dir == s.dir && t.results == s.results && t.invoked == s.invoked
      && t.linked == s.linked
    requires t.store >= s.store && (t.calls == s.calls || t.calls == map[])
    ensures Inv(t)
  {
    hide FilesOk, DirOk, Extends;
    forall i | 0 <= i < |t.invoked| ensures InvocationOk(t, t.invoked[i]) {
      assert InvocationOk(s, s.invoked[i]);
    }
  }

  lemma LoseKeeps(s: World, t: World)
    requires Inv(s)
    requires t.owner == s.owner && t.results == s.results && t.invoked == s.invoked && t.linked == s.linked
      && t.calls == map[]
    requires DirOk(t.dir, t.owner) && Extends(s.dir.durable, t.dir.durable)
    ensures Inv(t)
  {
    hide FilesOk, DirOk;
    forall i | 0 <= i < |t.invoked| ensures InvocationOk(t, t.invoked[i]) {
      assert InvocationOk(s, s.invoked[i]);
    }
  }

  lemma {:induction false} RunInv(s: World, actions: seq<Action>)
    requires Inv(s)
    ensures Inv(Run(s, actions)) && Extends(s.dir.durable, Run(s, actions).dir.durable)
      && Run(s, actions).owner == s.owner
    decreases |actions|
  {
    hide Inv, Extends, Step;
    ExtendsSelf(s.dir.durable);
    if actions != [] {
      var before := Run(s, actions[..|actions| - 1]);
      RunInv(s, actions[..|actions| - 1]);
      StepInv(before, actions[|actions| - 1]);
      ExtendsTransitive(s.dir.durable, before.dir.durable, Run(s, actions).dir.durable);
    }
  }

  // ---------- main results ----------

  /** Some run of actions from the empty directory leads to `s`. */
  ghost predicate Reachable(owner: Id, s: World)
  {
    exists actions :: s == Run(Init(owner), actions)
  }

  /** Some continuation leads from `s` to `t`. */
  ghost predicate Leads(s: World, t: World)
  {
    exists actions :: t == Run(s, actions)
  }

  lemma ReachableInv(owner: Id, s: World)
    requires Reachable(owner, s)
    ensures Inv(s) && s.owner == owner
  {
    var actions :| s == Run(Init(owner), actions);
    InitInv(owner);
    RunInv(Init(owner), actions);
  }

  lemma LeadsInv(s: World, t: World)
    requires Inv(s) && Leads(s, t)
    ensures Inv(t) && Extends(s.dir.durable, t.dir.durable) && t.owner == s.owner
  {
    var actions :| t == Run(s, actions);
    RunInv(s, actions);
  }

  /** invoke=true is returned at most once per Run, whatever interleaves, crashes or loses power. */
  lemma InvokeAtMostOnce(owner: Id, s: World)
    requires Reachable(owner, s)
    ensures forall i, j :: 0 <= i < j < |s.invoked| ==> s.invoked[i].run != s.invoked[j].run
  {
    ReachableInv(owner, s);
  }

  /** Whoever was told to invoke has a start record that no power loss can take back,
      checked at a time inside the lease, grant and deadline windows. */
  lemma InvokeIsDurableAndCurrent(owner: Id, s: World, v: Invocation)
    requires Reachable(owner, s) && v in s.invoked
    ensures var f := s.dir.durable;
      && v.run in f.starts && v.run in f.claims && f.starts[v.run].checkedAt == v.at
      && f.claims[v.run].claimedAt <= v.at
      && var spec := f.claims[v.run].spec;
         && v.at != 0 && spec.issuedAt <= v.at && v.at < spec.workspaceExpiresAt && v.at < spec.grantExpiresAt
         && v.at < spec.deadline
  {
    ReachableInv(owner, s);
    var i :| 0 <= i < |s.invoked| && s.invoked[i] == v;
    assert InvocationOk(s, s.invoked[i]);
  }

  /** The caller that coordinator Start answers with invoke=true is exactly a recorded invocation. */
  lemma InvokeResultExact(owner: Id, s: World, call: nat)
    requires Reachable(owner, s)
    ensures (call in s.results && s.results[call].Invoke?) <==>
      (exists i :: 0 <= i < |s.invoked| && s.invoked[i].call == call)
  {
    ReachableInv(owner, s);
    if exists i :: 0 <= i < |s.invoked| && s.invoked[i].call == call {
      var i :| 0 <= i < |s.invoked| && s.invoked[i].call == call;
      assert InvocationOk(s, s.invoked[i]);
    }
  }

  /** An error without ErrAdmissionPossibleStart means this call created no start record,
      even when its write linked the file and only the sync failed. */
  lemma RefusedLeftNoStart(owner: Id, s: World, call: nat)
    requires Reachable(owner, s) && call in s.results && s.results[call].Refused?
    ensures call !in s.linked
    ensures forall i :: 0 <= i < |s.invoked| ==> s.invoked[i].call != call
  {
    ReachableInv(owner, s);
    forall i | 0 <= i < |s.invoked| ensures s.invoked[i].call != call {
      assert InvocationOk(s, s.invoked[i]);
    }
  }

  /** Every directory content a process can read or a power loss can leave is well formed:
      stopped implies starting implies claimed, matching digests, ordered times, at most 256
      claims and no two that collide. */
  lemma EveryContentWellFormed(owner: Id, s: World, k: nat)
    requires Reachable(owner, s) && k < |s.dir.Snapshots()|
    ensures FilesOk(s.dir.Snapshots()[k], owner)
  {
    ReachableInv(owner, s);
  }

  /** A durable record is never changed or lost by any continuation. */
  lemma DurableRecordsNeverChange(owner: Id, s: World, t: World)
    requires Reachable(owner, s) && Leads(s, t)
    ensures Extends(s.dir.durable, t.dir.durable)
  {
    ReachableInv(owner, s);
    LeadsInv(s, t);
  }

  // ---------- the handler after Start ----------

  /** What GovernedHandler.Handle does with the answer of coordinator Start. */
  datatype HandlerMove = Ambiguous | CancelTerminal | Retry | DeniedTerminal | ReplayTerminal | Execute

  function AfterStart(r: StartResult, explicitCancel: bool, retryable: bool, inboxTerminal: bool): (m: HandlerMove)
  {
    match r
    case PossibleStart => Ambiguous
    case Refused => if explicitCancel then CancelTerminal else if retryable then Retry else DeniedTerminal
    case NoInvoke(_) => if inboxTerminal then ReplayTerminal else Ambiguous
    case Invoke(_) => Execute
  }

  /** A denied or canceled terminal is never produced for a Run that this attempt may have
      started, and the Runtime is executed only by the one attempt that was told to invoke. */
  lemma HandlerNeverDeniesAPossibleStart(owner: Id, s: World, call: nat, cancel: bool, retryable: bool, terminal: bool)
    requires Reachable(owner, s) && call in s.results
    ensures AfterStart(s.results[call], cancel, retryable, terminal) in {CancelTerminal, DeniedTerminal} ==>
      call !in s.linked
    ensures AfterStart(s.results[call], cancel, retryable, terminal) == Execute <==>
      exists i :: 0 <= i < |s.invoked| && s.invoked[i].call == call
  {
    InvokeResultExact(owner, s, call);
    if s.results[call].Refused? {
      RefusedLeftNoStart(owner, s, call);
    }
  }

  /** The handler's move for each answer: exactly one applies. */
  lemma HandlerAnswer(r: StartResult, cancel: bool, retryable: bool, terminal: bool)
    ensures var m := AfterStart(r, cancel, retryable, terminal);
      && (m == Execute <==> r.Invoke?)
      && (m == ReplayTerminal <==> r.NoInvoke? && terminal)
      && (m == Ambiguous <==> r.PossibleStart? || (r.NoInvoke? && !terminal))
      && (m == CancelTerminal <==> r.Refused? && cancel)
      && (m == Retry <==> r.Refused? && !cancel && retryable)
      && (m == DeniedTerminal <==> r.Refused? && !cancel && !retryable)
  {
  }

  // ---------- what one coordinator Start answers ----------

  /** The Run still has exactly this claim and no start record, in what the store reads now. */
  ghost predicate StillClaimed(s: World, ticket: Claim)
  {
    var f := s.dir.Live();
    ticket.spec.runId in f.claims && f.claims[ticket.spec.runId] == ticket && ticket.spec.runId !in f.starts
  }

  /** The call's store object is the open one. */
  predicate OnOpenStore(s: World, c: Call)
  {
    !s.closed && c.store == s.store
  }

  lemma LiveContentOk(owner: Id, s: World)
    requires Reachable(owner, s)
    ensures FilesOk(s.dir.Live(), owner) && s.owner == owner
  {
    ReachableInv(owner, s);
    Ends(s.dir);
  }

  /** First section: a still claimed Run goes to the authority; a started one is answered without invoking;
      anything else is left to the observation. */
  lemma BeginAnswer(owner: Id, s: World, call: nat, ticket: Claim)
    requires Reachable(owner, s) && FreshCall(s, call)
    ensures var t := Step(s, BeginStart(call, ticket)); var run, f := ticket.spec.runId, s.dir.Live();
      && t.dir == s.dir && t.invoked == s.invoked
      && (call in t.calls && t.calls[call] == Authorizing(s.store, ticket) <==> !s.closed && StillClaimed(s, ticket))
      && (call in t.results <==>
            !s.closed && run in f.claims && f.claims[run] == ticket && run in f.starts && !StartsBeforeClaim(f, run))
      && (call in t.results ==> t.results[call].NoInvoke?)
      && (call !in t.results ==> call in t.calls && (t.calls[call].Authorizing? || t.calls[call].Observing?))
  {
    LiveContentOk(owner, s);
    var run := ticket.spec.runId;
    if run in s.dir.Live().claims {
      ReadableHere(s.dir.Live(), owner, run);
      GetExact(s.dir.Live(), owner, run);
    } else {
      NotClaimed(s.dir.Live(), owner, run);
    }
    hide FilesOk, Reachable, Get;
  }

  /** Second section: invoke is answered exactly when the store is the open one, the Run is still claimed, the
      authority's time is inside every window and not before the claim, and the record is durable and read back.
      The start record is there afterwards exactly when it was, or when the recheck passed and the write linked. */
  lemma CommitAnswer(owner: Id, s: World, call: nat, at: nat, w: WriteOutcome, readable: bool)
    requires Reachable(owner, s) && call in s.calls && s.calls[call].Authorizing?
    ensures var t := Step(s, CommitStart(call, at, w, readable));
      var ticket := s.calls[call].ticket; var run, spec := ticket.spec.runId, ticket.spec;
      var allowed := && OnOpenStore(s, s.calls[call]) && StillClaimed(s, ticket)
                     && at != 0 && spec.issuedAt <= at && at < spec.workspaceExpiresAt && at < spec.grantExpiresAt
                     && at < spec.deadline;
      && (call in t.results && t.results[call].Invoke? <==>
            allowed && w == Durable && readable && ticket.claimedAt <= at)
      && t.dir == (if allowed then s.dir.Write(StartFile(s.dir.Live(), Start(run, ticket, at)), w) else s.dir)
      && (call in t.results && t.results[call].NoInvoke? <==>
            && OnOpenStore(s, s.calls[call]) && run in s.dir.Live().claims && s.dir.Live().claims[run] == ticket
            && run in s.dir.Live().starts && !StartsBeforeClaim(s.dir.Live(), run))
      && (call !in t.results ==> call in t.calls && t.calls[call].Observing?)
  {
    hide FilesOk, Reachable, Get, PlanStart;
    LiveContentOk(owner, s);
    CallNotAnswered(owner, s, call);
    var ticket := s.calls[call].ticket;
    var run := ticket.spec.runId;
    var f := s.dir.Live();
    StartAnswer(f, owner, run, ticket, at);
    if PlanStart(f, owner, run, ticket, ticket.spec, at).Possible? {
      StartReadsBack(f, owner, run, ticket, ticket.spec, at);
    }
  }

  lemma CallNotAnswered(owner: Id, s: World, call: nat)
    requires Reachable(owner, s) && call in s.calls
    ensures call !in s.results
  {
    ReachableInv(owner, s);
  }

  /** The observation after an error: a plain refusal exactly when the open store reads the Run still claimed,
      unchanged and unstarted; otherwise a possible start. */
  lemma ObserveAnswer(owner: Id, s: World, call: nat, readable: bool)
    requires Reachable(owner, s) && call in s.calls && s.calls[call].Observing?
    ensures var t := Step(s, ObserveStart(call, readable));
      && t.dir == s.dir && call !in t.calls && call in t.results
      && t.results[call] ==
         (if OnOpenStore(s, s.calls[call]) && readable && StillClaimed(s, s.calls[call].ticket) then Refused
             else PossibleStart)
  {
    LiveContentOk(owner, s);
    var run := s.calls[call].ticket.spec.runId;
    if run in s.dir.Live().claims {
      ReadableHere(s.dir.Live(), owner, run);
      GetExact(s.dir.Live(), owner, run);
    } else {
      NotClaimed(s.dir.Live(), owner, run);
    }
    hide FilesOk, Reachable, Get;
  }

  /** A denied callback is answered with a plain refusal and changes nothing else. */
  lemma DenyAnswer(s: World, call: nat)
    requires call in s.calls && s.calls[call].Authorizing?
    ensures var t := Step(s, DenyStart(call));
      t.dir == s.dir && t.invoked == s.invoked && call !in t.calls && call in t.results && t.results[call] == Refused
  {
  }

  // ---------- corruption and the clock ----------

  /** The clock assumption of one action: a start record is not written behind its claim. */
  predicate ClockForward(s: World, a: Action)
  {
    a.CommitStart? && a.call in s.calls && s.calls[a.call].Authorizing? ==>
        s.calls[a.call].ticket.claimedAt <= a.authorizedAt
  }

  predicate ClockForwardRun(s: World, actions: seq<Action>)
    decreases |actions|
  {
    actions == [] ||
    (ClockForwardRun(s, actions[..|actions| - 1]) &&
     ClockForward(Run(s, actions[..|actions| - 1]), actions[|actions| - 1]))
  }

  ghost predicate NoneRegressed(d: Dir<Files>)
  {
    forall i, run :: 0 <= i < |d.Snapshots()| ==> !Regressed(d.Snapshots()[i], run)
  }

  /** In any reachable state reading a Run reports corruption exactly when its clock regressed. */
  lemma CorruptExactlyWhenRegressed(owner: Id, s: World, run: Id)
    requires Reachable(owner, s) && run in s.dir.Live().claims
    ensures Get(s.dir.Live(), owner, run).Err? <==> Regressed(s.dir.Live(), run)
  {
    ReachableInv(owner, s);
    Ends(s.dir);
    GetExact(s.dir.Live(), owner, run);
  }

  lemma WriteNoneRegressed(d: Dir<Files>, after: Files, w: WriteOutcome)
    requires NoneRegressed(d) && forall run :: !Regressed(after, run)
    ensures NoneRegressed(d.Write(after, w))
  {
    hide Regressed;
    if w == LinkedUnsynced {
      assert d.Write(after, w).Snapshots() == d.Snapshots() + [after];
    }
  }

  lemma ClaimNoneRegressed(s: World, spec: Spec, now: nat, w: WriteOutcome)
    requires DirOk(s.dir, s.owner) && NoneRegressed(s.dir)
    ensures NoneRegressed(ClaimDir(s.dir, s.owner, s.leftovers, spec, now, w))
  {
    var f := s.dir.Live();
    Ends(s.dir);
    var plan := PlanClaim(f, s.owner, s.leftovers, spec, now);
    if plan.Fresh? {
      ClaimKeeps(f, s.owner, s.leftovers, spec, now);
      hide PlanClaim;
      forall r ensures !Regressed(ClaimFile(f, plan.claim), r) {
        assert StartsOk(f) && !Regressed(f, r);
      }
      WriteNoneRegressed(s.dir, ClaimFile(f, plan.claim), w);
    }
  }

  lemma StartNoneRegressed(s: World, c: Claim, at: nat, w: WriteOutcome)
    requires DirOk(s.dir, s.owner) && NoneRegressed(s.dir) && c.claimedAt <= at
    ensures NoneRegressed(StartDir(s.dir, s.owner, c.spec.runId, c, c.spec, at, w))
  {
    var f := s.dir.Live();
    Ends(s.dir);
    var plan := PlanStart(f, s.owner, c.spec.runId, c, c.spec, at);
    if plan.Possible? {
      StartKeeps(f, s.owner, c.spec.runId, c, c.spec, at);
      hide PlanStart, FilesOk;
      forall r ensures !Regressed(StartFile(f, plan.start), r) {
        assert !Regressed(f, r);
      }
      WriteNoneRegressed(s.dir, StartFile(f, plan.start), w);
    }
  }

  lemma StopNoneRegressed(s: World, run: Id, e: Claim, es: Start, outcome: Outcome, now: nat, w: WriteOutcome)
    requires DirOk(s.dir, s.owner) && NoneRegressed(s.dir)
    ensures NoneRegressed(StopDir(s.dir, s.owner, run, e, es, outcome, now, w))
  {
    var f := s.dir.Live();
    Ends(s.dir);
    var plan := PlanStop(f, s.owner, run, e, es, outcome, now);
    if plan.Close? {
      hide PlanStop, FilesOk;
      forall r ensures !Regressed(StopFile(f, plan.stop), r) {
        assert !Regressed(f, r);
      }
      WriteNoneRegressed(s.dir, StopFile(f, plan.stop), w);
    }
  }

  lemma StepNoneRegressed(s: World, a: Action)
    requires DirOk(s.dir, s.owner) && NoneRegressed(s.dir) && ClockForward(s, a)
    ensures NoneRegressed(Step(s, a).dir)
  {
    hide PlanClaim, PlanStart, PlanStop, Get, ClaimDir, StopDir, StartDir;
    match a {
      case DoClaim(spec, now, w) => ClaimNoneRegressed(s, spec, now, w);
      case CommitStart(call, at, w, _) =>
        if call in s.calls && s.calls[call].Authorizing? {
          StartNoneRegressed(s, s.calls[call].ticket, at, w);
        }
      case DoStop(run, e, es, outcome, now, w) => StopNoneRegressed(s, run, e, es, outcome, now, w);
      case _ =>
    }
  }

  lemma InvGivesDirOk(s: World)
    requires Inv(s)
    ensures DirOk(s.dir, s.owner)
  {
  }

  lemma {:induction false} RunNoneRegressed(s: World, actions: seq<Action>)
    requires Inv(s) && NoneRegressed(s.dir) && ClockForwardRun(s, actions)
    ensures NoneRegressed(Run(s, actions).dir)
    decreases |actions|
  {
    hide Inv, NoneRegressed, Step, ClockForward;
    if actions != [] {
      RunNoneRegressed(s, actions[..|actions| - 1]);
      RunInv(s, actions[..|actions| - 1]);
      InvGivesDirOk(Run(s, actions[..|actions| - 1]));
      StepNoneRegressed(Run(s, actions[..|actions| - 1]), actions[|actions| - 1]);
    }
  }

  ghost predicate ReachableForward(owner: Id, s: World)
  {
    exists actions :: ClockForwardRun(Init(owner), actions) && s == Run(Init(owner), actions)
  }

  /** While the clock never runs backwards between claim and start, every recorded Run stays
      readable, and the inventory too while leftovers fit the slack. */
  lemma ForwardFacts(owner: Id, s: World)
    requires ReachableForward(owner, s)
    ensures FilesOk(s.dir.Live(), owner) && forall run :: !Regressed(s.dir.Live(), run)
  {
    hide FilesOk, Regressed, Extends, Run, ClockForwardRun, Inv, NoneRegressed;
    var actions :| ClockForwardRun(Init(owner), actions) && s == Run(Init(owner), actions);
    InitInv(owner);
    InitNoneRegressed(owner);
    RunInv(Init(owner), actions);
    RunNoneRegressed(Init(owner), actions);
    InvGivesDirOk(s);
    LiveFacts(s.dir, owner);
  }

  lemma InitNoneRegressed(owner: Id)
    ensures NoneRegressed(Init(owner).dir) && Init(owner).owner == owner
  {
  }

  lemma LiveFacts(d: Dir<Files>, owner: Id)
    requires DirOk(d, owner) && NoneRegressed(d)
    ensures FilesOk(d.Live(), owner) && forall run :: !Regressed(d.Live(), run)
  {
    hide FilesOk, Regressed, Extends;
    Ends(d);
  }

  lemma ForwardClockNeverCorrupts(owner: Id, s: World)
    requires ReachableForward(owner, s)
    ensures forall run :: run in s.dir.Live().claims ==> Get(s.dir.Live(), owner, run).Ok?
    ensures s.leftovers <= ENTRY_SLACK ==> List(s.dir.Live(), owner, s.leftovers).Ok?
  {
    hide FilesOk, Regressed, Get, List, ReachableForward;
    ForwardFacts(owner, s);
    var f := s.dir.Live();
    ListExact(f, owner, s.leftovers);
    forall run | run in f.claims ensures Get(f, owner, run).Ok? {
      GetExact(f, owner, run);
    }
  }

  /** One commit on a clock behind the claim makes the Run unreadable for good. */
  lemma RegressedForever(owner: Id, s: World, t: World, run: Id)
    requires Reachable(owner, s) && Leads(s, t) && Regressed(s.dir.durable, run)
    ensures run in t.dir.Live().claims && Get(t.dir.Live(), owner, run) == Err(Changed)
  {
    ReachableInv(owner, s);
    LeadsInv(s, t);
    Ends(t.dir);
    assert t.dir.Snapshots()[0] == t.dir.durable;
    assert Extends(t.dir.durable, t.dir.Live());
    GetExact(t.dir.Live(), owner, run);
  }

  function SlowClaim(owner: Id): (c: Claim)
  {
    Claim(owner, Spec(7, 0, 0, owner, 0, 1, 0, 0, 0, 0, 0, 0, 0, 0, 5, 100, 100, 50, 0), 20)
  }

  lemma SlowClaimed(owner: Id)
    ensures Step(Init(owner), DoClaim(SlowClaim(owner).spec, 20, Durable))
         == Init(owner).(dir := Dir(ClaimFile(NO_FILES, SlowClaim(owner)), []))
  {
    assert Get(NO_FILES, owner, 7) == Err(NotExist);
    assert ListOk(NO_FILES, owner, 0);
    assert List(NO_FILES, owner, 0).value == map[];
    assert PlanClaim(NO_FILES, owner, 0, SlowClaim(owner).spec, 20) == Fresh(SlowClaim(owner));
  }

  lemma SlowStarted(owner: Id, s: World, at: nat, readable: bool)
    requires s == Init(owner).(dir := Dir(ClaimFile(NO_FILES, SlowClaim(owner)), []))
      && Current(SlowClaim(owner).spec, at)
    ensures Step(s, BeginStart(1, SlowClaim(owner))) == s.(calls := map[1 := Authorizing(0, SlowClaim(owner))])
    ensures var t := Step(Step(s, BeginStart(1, SlowClaim(owner))), CommitStart(1, at, Durable, readable));
      && t.dir == Dir(StartFile(s.dir.durable, Start(7, SlowClaim(owner), at)), [])
      && (!readable ==> t.invoked == [])
  {
    var claim := SlowClaim(owner);
    var f := s.dir.durable;
    var got := Get(f, owner, 7);
    assert got == Ok(View(claim.spec, claim, Claimed, 20, None, None, None, None));
    assert Step(s, BeginStart(1, claim)) == s.(calls := map[1 := Authorizing(0, claim)]);
    assert PlanStart(f, owner, 7, claim, claim.spec, at) == Possible(Start(7, claim, at));
  }

  lemma RunMore(s: World, actions: seq<Action>, a: Action)
    ensures Run(s, actions + [a]) == Step(Run(s, actions), a)
    ensures ClockForwardRun(s, actions + [a]) <==> ClockForwardRun(s, actions) && ClockForward(Run(s, actions), a)
  {
    hide Step, ClockForward;
    assert (actions + [a])[..|actions|] == actions;
  }

  lemma ReachableStep(owner: Id, s: World, a: Action)
    requires Reachable(owner, s)
    ensures Reachable(owner, Step(s, a))
  {
    hide Step, Init, ClockForward;
    var actions :| s == Run(Init(owner), actions);
    RunMore(Init(owner), actions, a);
  }

  lemma ForwardStep(owner: Id, s: World, a: Action)
    requires ReachableForward(owner, s) && ClockForward(s, a)
    ensures ReachableForward(owner, Step(s, a))
  {
    hide Step, Init, ClockForward;
    var actions :| ClockForwardRun(Init(owner), actions) && s == Run(Init(owner), actions);
    RunMore(Init(owner), actions, a);
  }

  lemma LeadsMore(s: World, t: World, a: Action)
    requires Leads(s, t)
    ensures Leads(s, Step(t, a))
  {
    hide Step, ClockForward;
    var actions :| t == Run(s, actions);
    RunMore(s, actions, a);
  }

  lemma StartStates(owner: Id)
    ensures Reachable(owner, Init(owner)) && ReachableForward(owner, Init(owner))
    ensures forall s: World :: Leads(s, s)
  {
    assert Run(Init(owner), []) == Init(owner) && ClockForwardRun(Init(owner), []);
    forall s: World ensures Leads(s, s) {
      assert Run(s, []) == s;
    }
  }

  /** Such a commit exists: a Run claimed at 20 whose authority is checked at 10. */
  lemma ClockCanRegress(owner: Id)
    ensures exists s :: Reachable(owner, s) && Regressed(s.dir.durable, 7)
  {
    var s0 := Init(owner);
    var a0, a1 := DoClaim(SlowClaim(owner).spec, 20, Durable), BeginStart(1, SlowClaim(owner));
    var a2 := CommitStart(1, 10, Durable, true);
    SlowClaimed(owner);
    SlowStarted(owner, Step(s0, a0), 10, true);
    hide Step, Reachable;
    StartStates(owner);
    ReachableStep(owner, s0, a0);
    ReachableStep(owner, Step(s0, a0), a1);
    ReachableStep(owner, Step(Step(s0, a0), a1), a2);
    assert Regressed(Step(Step(Step(s0, a0), a1), a2).dir.durable, 7);
  }

  // ---------- exactly once, and when not ----------

  /** A commit that writes its start record invokes exactly when the record is durable, could be read
      back, and is not dated before the claim. */
  lemma CommitInvokesIff(owner: Id, s: World, call: nat, at: nat, w: WriteOutcome, readable: bool)
    requires Reachable(owner, s) && call in s.calls && s.calls[call].Authorizing?
    requires !s.closed && s.calls[call].store == s.store
    requires var c := s.calls[call].ticket; PlanStart(s.dir.Live(), owner, c.spec.runId, c, c.spec, at).Possible?
    ensures var c := s.calls[call].ticket;
      Step(s, CommitStart(call, at, w, readable)).invoked ==
      if w == Durable && readable && c.claimedAt <= at then s.invoked + [Invocation(call, c.spec.runId, at)]
          else s.invoked
  {
    ReachableInv(owner, s);
    assert DirOk(s.dir, s.owner);
    hide Inv, DirOk, PlanStart, Get, StartDir, Current, Reachable;
    StartWritten(s, s.calls[call].ticket.spec.runId, s.calls[call].ticket, at, w);
  }

  predicate WasInvoked(s: World, run: Id)
  {
    exists i :: 0 <= i < |s.invoked| && s.invoked[i].run == run
  }

  /** From any state, lose power, reopen the store and start `claim` in the way that invokes. */
  function StartOver(s: World, call: nat, claim: Claim): (t: World)
  {
    var reopened := Step(Step(s, LosePower(0, 0)), ReopenStore);
    Step(Step(reopened, BeginStart(call, claim)), CommitStart(call, claim.claimedAt, Durable, true))
  }

  lemma StartOverLeads(s: World, call: nat, claim: Claim)
    ensures Leads(s, StartOver(s, call, claim))
  {
    hide Step;
    var s1 := Step(s, LosePower(0, 0));
    var s2 := Step(s1, ReopenStore);
    StartStates(0);
    LeadsMore(s, s, LosePower(0, 0));
    LeadsMore(s, s1, ReopenStore);
    LeadsMore(s, s2, BeginStart(call, claim));
    LeadsMore(s, Step(s2, BeginStart(call, claim)), CommitStart(call, claim.claimedAt, Durable, true));
  }

  lemma StartOverInvokes(s: World, call: nat, run: Id)
    requires Inv(s) && run in s.dir.durable.claims && run !in s.dir.durable.starts
    requires call !in s.results && call !in s.linked
    ensures WasInvoked(StartOver(s, call, s.dir.durable.claims[run]), run)
  {
    var claim := s.dir.durable.claims[run];
    var f := s.dir.durable;
    assert FilesOk(s.dir.Snapshots()[0], s.owner);
    GetExact(f, s.owner, run);
    var s2 := Step(Step(s, LosePower(0, 0)), ReopenStore);
    assert s2.dir == Dir(f, []) && !s2.closed && s2.calls == map[] && s2.owner == s.owner && s2.invoked == s.invoked;
    assert s2.results == s.results && s2.linked == s.linked;
    assert ClaimOk(claim, s.owner, run);
    hide FilesOk, Inv;
    BeginPasses(s2, call, claim);
    CommitPasses(Step(s2, BeginStart(call, claim)), call, claim);
  }

  lemma BeginPasses(s: World, call: nat, claim: Claim)
    requires FreshCall(s, call) && !s.closed
    requires Get(s.dir.Live(), s.owner, claim.spec.runId).Ok?
    requires var v := Get(s.dir.Live(), s.owner, claim.spec.runId).value;
      v.admissionDigest == claim && v.state == Claimed
    ensures Step(s, BeginStart(call, claim)) == s.(calls := s.calls[call := Authorizing(s.store, claim)])
  {
    hide Get;
  }

  lemma CommitPasses(s: World, call: nat, claim: Claim)
    requires call in s.calls && s.calls[call] == Authorizing(s.store, claim) && !s.closed && s.dir.pending == []
    requires FilesOk(s.dir.durable, s.owner) && Get(s.dir.durable, s.owner, claim.spec.runId).Ok?
    requires var v := Get(s.dir.durable, s.owner, claim.spec.runId).value;
      v.admissionDigest == claim && v.spec == claim.spec && v.state == Claimed
    requires Current(claim.spec, claim.claimedAt)
    ensures WasInvoked(Step(s, CommitStart(call, claim.claimedAt, Durable, true)), claim.spec.runId)
  {
    var run, at := claim.spec.runId, claim.claimedAt;
    assert PlanStart(s.dir.durable, s.owner, run, claim, claim.spec, at) == Possible(Start(run, claim, at));
    StartReadsBack(s.dir.durable, s.owner, run, claim, claim.spec, at);
    hide FilesOk, Get, PlanStart, Current;
    var t := Step(s, CommitStart(call, at, Durable, true));
    assert t.invoked == s.invoked + [Invocation(call, run, at)];
    assert t.invoked[|s.invoked|].run == run;
  }

  /** A durably claimed Run that was not invoked can still be invoked exactly when it has no durable start
      record: an unsynced one may be lost by a power loss, a durable one is never invoked. */
  lemma InvokePossibleIff(owner: Id, s: World, run: Id)
    requires Reachable(owner, s) && run in s.dir.durable.claims && !WasInvoked(s, run)
    ensures (exists t :: Leads(s, t) && WasInvoked(t, run)) <==> run !in s.dir.durable.starts
  {
    ReachableInv(owner, s);
    hide Inv, Reachable;
    if run in s.dir.durable.starts {
      forall t | Leads(s, t) ensures !WasInvoked(t, run) {
        var more :| t == Run(s, more);
        StartedNeverInvokedAgain(s, more, run);
      }
    } else {
      var call := FreshNat(s.results.Keys + s.linked);
      hide StartOver, Leads, WasInvoked;
      StartOverLeads(s, call, s.dir.durable.claims[run]);
      StartOverInvokes(s, call, run);
    }
  }

  /** With a clock that never goes back, a durable start record can exist whose Run is never invoked. */
  lemma StartCanStayUninvoked(owner: Id)
    ensures exists s :: ReachableForward(owner, s) && 7 in s.dir.durable.starts && s.invoked == []
  {
    var s0 := Init(owner);
    var a0, a1 := DoClaim(SlowClaim(owner).spec, 20, Durable), BeginStart(1, SlowClaim(owner));
    var a2 := CommitStart(1, 20, Durable, false);
    SlowClaimed(owner);
    SlowStarted(owner, Step(s0, a0), 20, false);
    hide Step, ReachableForward;
    StartStates(owner);
    ForwardStep(owner, s0, a0);
    ForwardStep(owner, Step(s0, a0), a1);
    ForwardStep(owner, Step(Step(s0, a0), a1), a2);
    assert 7 in Step(Step(Step(s0, a0), a1), a2).dir.durable.starts;
  }

  /** A Run whose stop record is durable is never invoked by any continuation. */
  lemma StoppedNeverInvokedAgain(owner: Id, s: World, t: World, run: Id)
    requires Reachable(owner, s) && Leads(s, t) && run in s.dir.durable.stops
    ensures forall i :: |s.invoked| <= i < |t.invoked| ==> t.invoked[i].run != run
  {
    ReachableInv(owner, s);
    assert run in s.dir.durable.starts by {
      assert FilesOk(s.dir.Snapshots()[0], owner);
    }
    hide Inv;
    var more :| t == Run(s, more);
    StartedNeverInvokedAgain(s, more, run);
  }

  lemma {:induction false} StartedNeverInvokedAgain(s: World, more: seq<Action>, run: Id)
    requires Inv(s) && run in s.dir.durable.starts
    ensures var t := Run(s, more);
      s.invoked <= t.invoked && forall i :: |s.invoked| <= i < |t.invoked| ==> t.invoked[i].run != run
    decreases |more|
  {
    if more != [] {
      var b := Run(s, more[..|more| - 1]);
      StartedNeverInvokedAgain(s, more[..|more| - 1], run);
      RunInv(s, more[..|more| - 1]);
      StepSparesStarted(b, more[|more| - 1], run);
    }
  }

  /** Only a commit that found the Run still claimed can invoke it. */
  lemma InvokedOnlyByCommit(s: World, a: Action)
    ensures var t := Step(s, a);
      || t.invoked == s.invoked
      || (&& a.CommitStart? && a.call in s.calls
          && var c := s.calls[a.call]; var run := c.ticket.spec.runId;
             && PlanStart(s.dir.Live(), s.owner, run, c.ticket, c.ticket.spec, a.authorizedAt).Possible?
             && t.invoked == s.invoked + [Invocation(a.call, run, a.authorizedAt)])
  {
    hide PlanStart, Get, ClaimDir, StopDir, StartDir;
  }

  lemma StepSparesStarted(s: World, a: Action, run: Id)
    requires Inv(s) && run in s.dir.durable.starts
    ensures var t := Step(s, a);
      && s.invoked <= t.invoked && forall i :: |s.invoked| <= i < |t.invoked| ==> t.invoked[i].run != run
  {
    hide Step, PlanStart, FilesOk, AtMostOnce, CallsOk, ResultsOk, InvocationOk;
    InvokedOnlyByCommit(s, a);
    Ends(s.dir);
    assert s.dir.Snapshots()[0] == s.dir.durable;
    assert Extends(s.dir.durable, s.dir.Live());
    if Step(s, a).invoked != s.invoked {
      var c := s.calls[a.call];
      StartKeeps(s.dir.Live(), s.owner, c.ticket.spec.runId, c.ticket, c.ticket.spec, a.authorizedAt);
    }
  }
}
