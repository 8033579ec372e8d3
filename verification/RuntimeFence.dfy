/**
 The governed-Runtime admission journal: claimed -> starting -> stopped.

 Records are files created once per Run and stage. A digest is modelled as the
 record it is the digest of, which makes it injective. Identifiers are naturals
 of which only equality is used. Times are naturals and zero is the zero time.
 */
module RuntimeFence {
  import opened DurableDirectory
  import opened Maps
  import opened Options

  type Id = nat

  datatype Error =
    | Invalid       // ErrAdmissionInvalid
    | Changed       // ErrAdmissionChanged
    | Conflict      // ErrAdmissionConflict
    | NotCurrent    // ErrAdmissionNotCurrent
    | NotExist      // os.ErrNotExist
    | Denied        // the authority callback's own error
    | Io            // a failed write, sync or read

  datatype Result<+T> = Ok(value: T) | Err(error: Error)

  datatype Outcome = Completed | Failed | Canceled | InputRequired | OutcomeUnknown

  datatype Spec = Spec(
    runId: Id, taskId: Id, agentId: Id, deviceId: Id, planId: Id,
    planRevision: int, nodeKey: Id, repositoryId: Id, bindingId: Id,
    workspaceRef: Id, workspaceGeneration: Id, manifestDigest: Id,
    preparedOperationId: Id, preparedIdentityDigest: Id,
    issuedAt: nat, workspaceExpiresAt: nat, grantExpiresAt: nat, deadline: nat,
    rest: Id)

  datatype Claim = Claim(owner: Id, spec: Spec, claimedAt: nat)
  datatype Start = Start(runId: Id, admissionDigest: Claim, checkedAt: nat)
  datatype Stop = Stop(runId: Id, admissionDigest: Claim, startDigest: Start, outcome: Outcome, stoppedAt: nat)

  datatype Stage = Claimed | Starting | Stopped

  datatype View = View(
    spec: Spec, admissionDigest: Claim, state: Stage, claimedAt: nat,
    startDigest: Option<Start>, checkedAt: Option<nat>, outcome: Option<Outcome>, stoppedAt: Option<nat>)

  datatype Files = Files(claims: map<Id, Claim>, starts: map<Id, Start>, stops: map<Id, Stop>)

  const MAX_ADMISSIONS: nat := 256
  const ENTRY_SLACK: nat := 16
  const NO_FILES := Files(map[], map[], map[])

  // ---------- validation ----------

  predicate ValidSpec(spec: Spec)
  {
    && spec.issuedAt < spec.workspaceExpiresAt && spec.issuedAt < spec.grantExpiresAt
    && spec.issuedAt < spec.deadline
    && spec.deadline <= spec.workspaceExpiresAt && spec.deadline <= spec.grantExpiresAt
  }

  /** The lease, grant and deadline windows all contain `now`. */
  predicate Current(spec: Spec, now: nat)
  {
    now != 0 && spec.issuedAt <= now < spec.workspaceExpiresAt && now < spec.grantExpiresAt && now < spec.deadline
  }

  predicate Collide(a: Spec, b: Spec)
  {
    || (a.workspaceRef == b.workspaceRef && a.workspaceGeneration == b.workspaceGeneration)
    || a.preparedIdentityDigest == b.preparedIdentityDigest
    || a.preparedOperationId == b.preparedOperationId
  }

  // ---------- reading ----------

  function Get(f: Files, owner: Id, run: Id): (r: Result<View>)
  {
    if run !in f.claims then Err(NotExist)
    else
      var claim := f.claims[run];
      if claim.owner != owner || claim.spec.runId != run || !ValidSpec(claim.spec) || claim.claimedAt == 0 then
          Err(Changed)
      else
        var view := View(claim.spec, claim, Claimed, claim.claimedAt, None, None, None, None);
        var started := GetStart(f, run, claim, view);
        if started.Err? then started else GetStop(f, run, claim, started.value)
  }

  function GetStart(f: Files, run: Id, claim: Claim, view: View): (r: Result<View>)
  {
    if run !in f.starts then Ok(view)
    else
      var start := f.starts[run];
      if start.runId != run || start.admissionDigest != claim || start.checkedAt == 0
          || start.checkedAt < claim.claimedAt then
        Err(Changed)
      else
        Ok(view.(state := Starting, startDigest := Some(start), checkedAt := Some(start.checkedAt)))
  }

  function GetStop(f: Files, run: Id, claim: Claim, view: View): (r: Result<View>)
  {
    if run !in f.stops then Ok(view)
    else
      var stop := f.stops[run];
      if view.startDigest.None? || view.checkedAt.None? || stop.runId != run || stop.admissionDigest != claim
         || stop.startDigest != view.startDigest.value || stop.stoppedAt == 0
         || stop.stoppedAt < view.checkedAt.value then
        Err(Changed)
      else
        Ok(view.(state := Stopped, outcome := Some(stop.outcome), stoppedAt := Some(stop.stoppedAt)))
  }

  /** The directory inventory is acceptable: bounded, no orphan stage, every Run readable. */
  predicate ListOk(f: Files, owner: Id, leftovers: nat)
  {
    && |f.claims| + |f.starts| + |f.stops| + leftovers <= MAX_ADMISSIONS * 3 + ENTRY_SLACK
    && f.starts.Keys <= f.claims.Keys && f.stops.Keys <= f.claims.Keys && f.stops.Keys <= f.starts.Keys
    && (forall run :: run in f.claims ==> Get(f, owner, run).Ok?)
    && |f.claims| <= MAX_ADMISSIONS
  }

  function List(f: Files, owner: Id, leftovers: nat): (r: Result<map<Id, View>>)
  {
    if ListOk(f, owner, leftovers) then Ok(map run | run in f.claims :: Get(f, owner, run).value) else Err(Changed)
  }

  // ---------- the critical sections of the store ----------

  function ClaimFile(f: Files, c: Claim): (g: Files)
  {
    f.(claims := f.claims[c.spec.runId := c])
  }

  function StartFile(f: Files, s: Start): (g: Files)
  {
    f.(starts := f.starts[s.runId := s])
  }

  function StopFile(f: Files, s: Stop): (g: Files)
  {
    f.(stops := f.stops[s.runId := s])
  }

  /** Claim's decision before it writes: an existing equal claim, a fresh record, or an error. */
  datatype ClaimPlan = Existing(view: View) | Fresh(claim: Claim) | Refuse(error: Error)

  function PlanClaim(f: Files, owner: Id, leftovers: nat, spec: Spec, now: nat): (p: ClaimPlan)
  {
    if !ValidSpec(spec) || now == 0 then Refuse(Invalid)
    else if spec.deviceId != owner then Refuse(NotCurrent)
    else
      var got := Get(f, owner, spec.runId);
      if got.Ok? then (if got.value.spec != spec then Refuse(Conflict) else Existing(got.value))
      else if got.error != NotExist then Refuse(got.error)
      else if !Current(spec, now) then Refuse(NotCurrent)
      else
        var views := List(f, owner, leftovers);
        if views.Err? then Refuse(views.error)
        else if |views.value| >= MAX_ADMISSIONS then Refuse(Conflict)
        else if exists run :: run in views.value && Collide(views.value[run].spec, spec) then Refuse(Conflict)
        else Fresh(Claim(owner, spec, now))
  }

  function ClaimDir(d: Dir<Files>, owner: Id, leftovers: nat, spec: Spec, now: nat, w: WriteOutcome): (e: Dir<Files>)
  {
    var plan := PlanClaim(d.Live(), owner, leftovers, spec, now);
    if plan.Fresh? then d.Write(ClaimFile(d.Live(), plan.claim), w) else d
  }

  /** Start's second critical section: what it decides to write after the callback. */
  datatype StartPlan = Replay(view: View) | Possible(start: Start) | RefuseStart(error: Error)

  function PlanStart(f: Files, owner: Id, run: Id, expected: Claim, seen: Spec, authorizedAt: nat): (p: StartPlan)
  {
    var got := Get(f, owner, run);
    if got.Err? then RefuseStart(got.error)
    else if got.value.admissionDigest != expected || got.value.spec != seen then RefuseStart(Changed)
    else if got.value.state != Claimed then Replay(got.value)
    else if !Current(got.value.spec, authorizedAt) then RefuseStart(NotCurrent)
    else Possible(Start(run, expected, authorizedAt))
  }

  function StartDir(d: Dir<Files>, owner: Id, run: Id, expected: Claim, seen: Spec, authorizedAt: nat,
      w: WriteOutcome): (e: Dir<Files>)
  {
    var plan := PlanStart(d.Live(), owner, run, expected, seen, authorizedAt);
    if plan.Possible? then d.Write(StartFile(d.Live(), plan.start), w) else d
  }

  datatype StopPlan = Closed(view: View) | Close(stop: Stop) | RefuseStop(error: Error)

  function PlanStop(f: Files, owner: Id, run: Id, expected: Claim, expectedStart: Start, outcome: Outcome,
      now: nat): (p: StopPlan)
  {
    if now == 0 then RefuseStop(Invalid)
    else
      var got := Get(f, owner, run);
      if got.Err? then RefuseStop(got.error)
      else if got.value.admissionDigest != expected || got.value.startDigest != Some(expectedStart) then
          RefuseStop(Conflict)
      else if got.value.state == Stopped then
        (if got.value.outcome != Some(outcome) then RefuseStop(Conflict) else Closed(got.value))
      else if got.value.state != Starting || got.value.checkedAt.None? || now < got.value.checkedAt.value then
          RefuseStop(Invalid)
      else Close(Stop(run, expected, expectedStart, outcome, now))
  }

  function StopDir(d: Dir<Files>, owner: Id, run: Id, expected: Claim, expectedStart: Start, outcome: Outcome, now: nat,
      w: WriteOutcome): (e: Dir<Files>)
  {
    var plan := PlanStop(d.Live(), owner, run, expected, expectedStart, outcome, now);
    if plan.Close? then d.Write(StopFile(d.Live(), plan.stop), w) else d
  }

  // ---------- what every directory content satisfies ----------

  predicate ClaimOk(c: Claim, owner: Id, run: Id)
  {
    c.owner == owner && c.spec.runId == run && ValidSpec(c.spec) && c.spec.deviceId == owner
        && Current(c.spec, c.claimedAt)
  }

  /** No two claims share a workspace generation, a prepared identity or a prepared operation. */
  ghost predicate Distinct(claims: map<Id, Claim>)
  {
    forall a, b :: a in claims && b in claims && a != b ==> !Collide(claims[a].spec, claims[b].spec)
  }

  ghost predicate ClaimsOk(f: Files, owner: Id)
  {
    && (forall run :: run in f.claims ==> ClaimOk(f.claims[run], owner, run))
    && |f.claims| <= MAX_ADMISSIONS
    && Distinct(f.claims)
  }

  ghost predicate StartsOk(f: Files)
  {
    forall run :: run in f.starts ==>
      && run in f.claims && f.starts[run].runId == run && f.starts[run].admissionDigest == f.claims[run]
      && Current(f.claims[run].spec, f.starts[run].checkedAt)
  }

  ghost predicate StopsOk(f: Files)
  {
    forall run :: run in f.stops ==>
      && run in f.starts && run in f.claims
      && f.stops[run].runId == run && f.stops[run].admissionDigest == f.claims[run]
      && f.stops[run].startDigest == f.starts[run]
      && f.claims[run].claimedAt <= f.starts[run].checkedAt <= f.stops[run].stoppedAt
  }

  ghost predicate FilesOk(f: Files, owner: Id)
  {
    ClaimsOk(f, owner) && StartsOk(f) && StopsOk(f)
  }

  /** Every record of `f` is in `g` unchanged. */
  ghost predicate Extends(f: Files, g: Files)
  {
    && (forall run :: run in f.claims ==> run in g.claims && g.claims[run] == f.claims[run])
    && (forall run :: run in f.starts ==> run in g.starts && g.starts[run] == f.starts[run])
    && (forall run :: run in f.stops ==> run in g.stops && g.stops[run] == f.stops[run])
  }

  lemma ExtendsSelf(f: Files)
    ensures Extends(f, f)
  {
  }

  /** The start record of `run` was written by a clock that had gone back behind its claim. */
  predicate Regressed(f: Files, run: Id)
  {
    run in f.starts && run in f.claims && f.starts[run].checkedAt < f.claims[run].claimedAt
  }

  // ---------- reading is exact ----------

  /** On a well-formed directory, reading an existing Run fails exactly when its clock regressed. */
  lemma GetExact(f: Files, owner: Id, run: Id)
    requires FilesOk(f, owner) && run in f.claims
    ensures Get(f, owner, run).Err? <==> Regressed(f, run)
    ensures Get(f, owner, run).Err? ==> Get(f, owner, run).error == Changed
    ensures Get(f, owner, run).Ok? ==>
      var v := Get(f, owner, run).value;
      && v.spec == f.claims[run].spec && v.admissionDigest == f.claims[run]
      && (v.state == Claimed <==> run !in f.starts)
      && (v.state == Stopped <==> run in f.stops)
      && (run in f.starts ==> v.startDigest == Some(f.starts[run]))
      && (run in f.stops ==> v.outcome == Some(f.stops[run].outcome) && v.stoppedAt == Some(f.stops[run].stoppedAt))
  {
  }

  /** Well-formed directories have no orphan stages and no more entries than three per claim. */
  lemma EntriesBounded(f: Files, owner: Id)
    requires FilesOk(f, owner)
    ensures f.starts.Keys <= f.claims.Keys && f.stops.Keys <= f.starts.Keys && |f.claims| <= MAX_ADMISSIONS
    ensures |f.claims| + |f.starts| + |f.stops| <= MAX_ADMISSIONS * 3
  {
    assert f.starts.Keys <= f.claims.Keys && f.stops.Keys <= f.starts.Keys;
    hide FilesOk;
    SubsetSize(f.starts.Keys, f.claims.Keys);
    SubsetSize(f.stops.Keys, f.starts.Keys);
  }

  /** The inventory is refused exactly when a clock regressed or too many leftover
      temporary files exhaust the slack; orphan stages and overflow never occur. */
  lemma ListExact(f: Files, owner: Id, leftovers: nat)
    requires FilesOk(f, owner)
    ensures List(f, owner, leftovers).Ok? <==>
      && (forall run :: run in f.claims ==> !Regressed(f, run))
      && |f.claims| + |f.starts| + |f.stops| + leftovers <= MAX_ADMISSIONS * 3 + ENTRY_SLACK
    ensures (forall run :: run in f.claims ==> !Regressed(f, run)) && leftovers <= ENTRY_SLACK ==>
      List(f, owner, leftovers).Ok?
  {
    hide FilesOk, Get, Regressed;
    EntriesBounded(f, owner);
    forall run | run in f.claims ensures Get(f, owner, run).Ok? <==> !Regressed(f, run) {
      GetExact(f, owner, run);
    }
  }

  // ---------- each critical section keeps the directory well formed ----------

  lemma AddDistinct(claims: map<Id, Claim>, run: Id, c: Claim)
    requires Distinct(claims)
    requires forall r :: r in claims ==> !Collide(claims[r].spec, c.spec)
    ensures Distinct(claims[run := c])
  {
    var more := claims[run := c];
    forall a, b | a in more && b in more && a != b ensures !Collide(more[a].spec, more[b].spec) {
      if a == run {
        assert !Collide(claims[b].spec, c.spec);
      } else if b == run {
        assert !Collide(claims[a].spec, c.spec);
      }
    }
  }

  lemma SameClaims(f: Files, g: Files, owner: Id)
    requires ClaimsOk(f, owner) && g.claims == f.claims
    ensures ClaimsOk(g, owner)
  {
  }

  lemma AddClaimClaims(f: Files, owner: Id, c: Claim)
    requires ClaimsOk(f, owner) && c.spec.runId !in f.claims && |f.claims| < MAX_ADMISSIONS
    requires ClaimOk(c, owner, c.spec.runId)
    requires forall run :: run in f.claims ==> !Collide(f.claims[run].spec, c.spec)
    ensures ClaimsOk(ClaimFile(f, c), owner)
  {
    hide Distinct, Collide, ClaimOk;
    AddDistinct(f.claims, c.spec.runId, c);
    var more := f.claims[c.spec.runId := c];
    assert ClaimFile(f, c).claims == more;
    OneMoreKey(f.claims, c.spec.runId, c);
    assert forall run :: run in more ==> ClaimOk(more[run], owner, run);
  }

  lemma AddClaimRest(f: Files, c: Claim)
    requires StartsOk(f) && StopsOk(f) && c.spec.runId !in f.claims
    ensures StartsOk(ClaimFile(f, c)) && StopsOk(ClaimFile(f, c)) && Extends(f, ClaimFile(f, c))
  {
    hide Current;
  }

  /** Adding a claim that collides with none. */
  lemma AddClaim(f: Files, owner: Id, c: Claim)
    requires FilesOk(f, owner) && c.spec.runId !in f.claims && |f.claims| < MAX_ADMISSIONS
    requires ClaimOk(c, owner, c.spec.runId)
    requires forall run :: run in f.claims ==> !Collide(f.claims[run].spec, c.spec)
    ensures FilesOk(ClaimFile(f, c), owner) && Extends(f, ClaimFile(f, c))
  {
    hide ClaimsOk, StartsOk, StopsOk, Extends, Collide, ClaimOk;
    AddClaimClaims(f, owner, c);
    AddClaimRest(f, c);
  }

  lemma AddStart(f: Files, owner: Id, s: Start)
    requires FilesOk(f, owner) && s.runId !in f.starts && s.runId in f.claims
    requires s.admissionDigest == f.claims[s.runId] && Current(f.claims[s.runId].spec, s.checkedAt)
    ensures FilesOk(StartFile(f, s), owner) && Extends(f, StartFile(f, s))
  {
    hide ClaimsOk, Current;
    var g := StartFile(f, s);
    assert ClaimsOk(g, owner) by {
      SameClaims(f, g, owner);
    }
    assert StartsOk(g);
    assert StopsOk(g);
  }

  lemma AddStop(f: Files, owner: Id, s: Stop)
    requires FilesOk(f, owner) && s.runId in f.starts && s.runId !in f.stops
    requires s.admissionDigest == f.claims[s.runId] && s.startDigest == f.starts[s.runId]
    requires f.claims[s.runId].claimedAt <= f.starts[s.runId].checkedAt <= s.stoppedAt
    ensures FilesOk(StopFile(f, s), owner) && Extends(f, StopFile(f, s))
  {
    hide ClaimsOk, Current;
    var g := StopFile(f, s);
    SameClaims(f, g, owner);
    assert StopsOk(g);
  }

  /** What a plan for a fresh claim has checked. */
  lemma FreshPlan(f: Files, owner: Id, leftovers: nat, spec: Spec, now: nat)
    requires PlanClaim(f, owner, leftovers, spec, now).Fresh?
    ensures PlanClaim(f, owner, leftovers, spec, now).claim == Claim(owner, spec, now)
    ensures Get(f, owner, spec.runId) == Err(NotExist) && ClaimOk(Claim(owner, spec, now), owner, spec.runId)
    ensures List(f, owner, leftovers).Ok? && |List(f, owner, leftovers).value| < MAX_ADMISSIONS
    ensures forall run :: run in List(f, owner, leftovers).value ==>
      !Collide(List(f, owner, leftovers).value[run].spec, spec)
  {
    hide Get, List, Collide;
  }

  /** The inventory has exactly the claimed Runs, with their specs. */
  lemma ListedSpecs(f: Files, owner: Id, leftovers: nat)
    requires FilesOk(f, owner) && List(f, owner, leftovers).Ok?
    ensures List(f, owner, leftovers).value.Keys == f.claims.Keys
    ensures forall run :: run in f.claims ==> List(f, owner, leftovers).value[run].spec == f.claims[run].spec
  {
    hide FilesOk, Get;
    forall run | run in f.claims ensures List(f, owner, leftovers).value[run].spec == f.claims[run].spec {
      GetExact(f, owner, run);
    }
  }

  /** A fresh claim was compared with every claim there is. */
  lemma FreshCollidesWithNone(f: Files, owner: Id, leftovers: nat, spec: Spec, now: nat)
    requires FilesOk(f, owner)
    requires PlanClaim(f, owner, leftovers, spec, now).Fresh?
    ensures PlanClaim(f, owner, leftovers, spec, now).claim == Claim(owner, spec, now)
    ensures forall run :: run in f.claims ==> !Collide(f.claims[run].spec, spec)
    ensures spec.runId !in f.claims && |f.claims| < MAX_ADMISSIONS
    ensures ClaimOk(Claim(owner, spec, now), owner, spec.runId)
  {
    hide FilesOk, PlanClaim, Get, List, Collide, ClaimOk;
    FreshPlan(f, owner, leftovers, spec, now);
    ListedSpecs(f, owner, leftovers);
    var views := List(f, owner, leftovers).value;
    assert |views| == |views.Keys| && |f.claims| == |f.claims.Keys|;
    if spec.runId in f.claims {
      GetExact(f, owner, spec.runId);
    }
    forall run | run in f.claims ensures !Collide(f.claims[run].spec, spec) {
      assert !Collide(views[run].spec, spec);
    }
  }

  lemma ClaimKeeps(f: Files, owner: Id, leftovers: nat, spec: Spec, now: nat)
    requires FilesOk(f, owner)
    requires PlanClaim(f, owner, leftovers, spec, now).Fresh?
    ensures var c := PlanClaim(f, owner, leftovers, spec, now).claim;
      && c == Claim(owner, spec, now) && spec.runId !in f.claims
      && FilesOk(ClaimFile(f, c), owner) && Extends(f, ClaimFile(f, c))
  {
    hide FilesOk, PlanClaim, Collide, ClaimOk, Extends;
    FreshCollidesWithNone(f, owner, leftovers, spec, now);
    AddClaim(f, owner, Claim(owner, spec, now));
  }

  lemma StartKeeps(f: Files, owner: Id, run: Id, expected: Claim, seen: Spec, at: nat)
    requires FilesOk(f, owner)
    requires PlanStart(f, owner, run, expected, seen, at).Possible?
    ensures var s := PlanStart(f, owner, run, expected, seen, at).start;
      && s == Start(run, expected, at)
      && run !in f.starts && run in f.claims && f.claims[run] == expected && Current(expected.spec, at)
      && FilesOk(StartFile(f, s), owner) && Extends(f, StartFile(f, s))
  {
    GetExact(f, owner, run);
    AddStart(f, owner, Start(run, expected, at));
  }

  /** Reading back a start record just written succeeds exactly when the clock had not gone back. */
  lemma StartReadsBack(f: Files, owner: Id, run: Id, expected: Claim, seen: Spec, at: nat)
    requires FilesOk(f, owner)
    requires PlanStart(f, owner, run, expected, seen, at).Possible?
    ensures var g := StartFile(f, Start(run, expected, at));
      && (Get(g, owner, run).Ok? <==> expected.claimedAt <= at)
      && (Get(g, owner, run).Ok? ==> Get(g, owner, run).value.state == Starting
                                     && Get(g, owner, run).value.startDigest == Some(Start(run, expected, at)))
  {
    StartKeeps(f, owner, run, expected, seen, at);
    GetExact(StartFile(f, Start(run, expected, at)), owner, run);
  }

  lemma StopKeeps(f: Files, owner: Id, run: Id, expected: Claim, expectedStart: Start, outcome: Outcome, now: nat)
    requires FilesOk(f, owner)
    requires PlanStop(f, owner, run, expected, expectedStart, outcome, now).Close?
    ensures var s := PlanStop(f, owner, run, expected, expectedStart, outcome, now).stop;
      && s == Stop(run, expected, expectedStart, outcome, now)
      && run in f.starts && f.starts[run] == expectedStart && run !in f.stops && run in f.claims
          && f.claims[run] == expected
      && FilesOk(StopFile(f, s), owner) && Extends(f, StopFile(f, s))
  {
    GetExact(f, owner, run);
    AddStop(f, owner, Stop(run, expected, expectedStart, outcome, now));
  }

  lemma StopReadsBack(f: Files, owner: Id, run: Id, expected: Claim, expectedStart: Start, outcome: Outcome, now: nat)
    requires FilesOk(f, owner)
    requires PlanStop(f, owner, run, expected, expectedStart, outcome, now).Close?
    ensures var g := StopFile(f, Stop(run, expected, expectedStart, outcome, now));
      && Get(g, owner, run).Ok? && Get(g, owner, run).value.state == Stopped
      && Get(g, owner, run).value.outcome == Some(outcome)
  {
    StopKeeps(f, owner, run, expected, expectedStart, outcome, now);
    GetExact(f, owner, run);
    GetExact(StopFile(f, Stop(run, expected, expectedStart, outcome, now)), owner, run);
  }
}
