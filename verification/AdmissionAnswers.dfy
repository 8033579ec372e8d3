/**
 What the admission journal answers, stated on the records themselves: which claim,
 start and stop records exist, what times and keys they carry. Nothing here is
 stated by way of the plans that compute the answers.
 */
module AdmissionAnswers {
  import opened DurableDirectory
  import opened Options
  import opened RuntimeFence

  /** What two claims must not share. */
  datatype Key = WorkspaceKey(ref: Id, generation: Id) | IdentityKey(digest: Id) | OperationKey(operation: Id)

  ghost function Keys(spec: Spec): (keys: set<Key>)
  {
    {WorkspaceKey(spec.workspaceRef, spec.workspaceGeneration), IdentityKey(spec.preparedIdentityDigest),
     OperationKey(spec.preparedOperationId)}
  }

  lemma CollideIsSharedKey(a: Spec, b: Spec)
    ensures Collide(a, b) <==> !(Keys(a) !! Keys(b))
  {
    assert WorkspaceKey(a.workspaceRef, a.workspaceGeneration) in Keys(a);
    assert IdentityKey(a.preparedIdentityDigest) in Keys(a);
    assert OperationKey(a.preparedOperationId) in Keys(a);
  }

  /** The start record of a Run predates its claim. */
  ghost predicate StartsBeforeClaim(f: Files, run: Id)
  {
    run in f.claims && run in f.starts && f.starts[run].checkedAt < f.claims[run].claimedAt
  }

  /** The inventory can be read: no start predates its claim, and the files leave room for the leftovers. */
  ghost predicate InventoryReadable(f: Files, leftovers: nat)
  {
    (forall run :: !StartsBeforeClaim(f, run)) && |f.claims| + |f.starts| + |f.stops| + leftovers <= 784
  }

  /** The times of a spec are in order: issued before everything, the deadline within lease and grant. */
  ghost predicate TimesInOrder(spec: Spec)
  {
    && spec.issuedAt < spec.deadline <= spec.workspaceExpiresAt && spec.deadline <= spec.grantExpiresAt
  }

  // ---------- any directory, well formed or not ----------

  /** A Run is readable exactly when its claim is this owner's, of this Run and with its times in order, its
      start belongs to that claim and does not predate it, and its stop to both and does not predate the start. */
  lemma ReadableIff(f: Files, owner: Id, run: Id)
    ensures Get(f, owner, run).Ok? <==>
      && run in f.claims
      && var c := f.claims[run];
         && c.owner == owner && c.spec.runId == run && c.claimedAt != 0 && TimesInOrder(c.spec)
         && (run in f.starts ==>
               && f.starts[run].runId == run && f.starts[run].admissionDigest == c
               && f.starts[run].checkedAt != 0 && c.claimedAt <= f.starts[run].checkedAt)
         && (run in f.stops ==>
               && run in f.starts
               && f.stops[run].runId == run && f.stops[run].admissionDigest == c
               && f.stops[run].startDigest == f.starts[run]
               && f.stops[run].stoppedAt != 0 && f.starts[run].checkedAt <= f.stops[run].stoppedAt)
  {
  }

  /** What a readable Run's view says. */
  lemma ViewIs(f: Files, owner: Id, run: Id)
    requires Get(f, owner, run).Ok?
    ensures var v := Get(f, owner, run).value; var c := f.claims[run];
      && v.spec == c.spec && v.admissionDigest == c && v.claimedAt == c.claimedAt
      && (run !in f.starts ==> v == View(c.spec, c, Claimed, c.claimedAt, None, None, None, None))
      && (run in f.starts && run !in f.stops ==>
            var a := f.starts[run];
            v == View(c.spec, c, Starting, c.claimedAt, Some(a), Some(a.checkedAt), None, None))
      && (run in f.starts && run in f.stops ==>
            var a, z := f.starts[run], f.stops[run];
            v == View(c.spec, c, Stopped, c.claimedAt, Some(a), Some(a.checkedAt), Some(z.outcome), Some(z.stoppedAt)))
  {
  }

  // ---------- well-formed directories ----------

  /** No two claims share a workspace generation, a prepared identity or a prepared operation, and there are
      at most 256. */
  lemma ClaimsAreApart(f: Files, owner: Id, a: Id, b: Id)
    requires FilesOk(f, owner) && a in f.claims && b in f.claims && a != b
    ensures Keys(f.claims[a].spec) !! Keys(f.claims[b].spec) && |f.claims| <= 256
  {
    CollideIsSharedKey(f.claims[a].spec, f.claims[b].spec);
  }

  /** Each record of a well-formed directory: whose it is, and when it was made. */
  lemma RecordsAre(f: Files, owner: Id, run: Id)
    requires FilesOk(f, owner)
    ensures run in f.claims ==>
      var c := f.claims[run];
      && c.owner == owner && c.spec.deviceId == owner && c.spec.runId == run && TimesInOrder(c.spec)
      && c.claimedAt != 0 && c.spec.issuedAt <= c.claimedAt && c.claimedAt < c.spec.workspaceExpiresAt
      && c.claimedAt < c.spec.grantExpiresAt && c.claimedAt < c.spec.deadline
    ensures run in f.starts ==>
      && run in f.claims
      && var a, spec := f.starts[run], f.claims[run].spec;
         && a.runId == run && a.admissionDigest == f.claims[run]
         && a.checkedAt != 0 && spec.issuedAt <= a.checkedAt && a.checkedAt < spec.workspaceExpiresAt
         && a.checkedAt < spec.grantExpiresAt && a.checkedAt < spec.deadline
    ensures run in f.stops ==>
      && run in f.starts && run in f.claims && f.stops[run].runId == run
      && f.stops[run].admissionDigest == f.claims[run] && f.stops[run].startDigest == f.starts[run]
      && f.claims[run].claimedAt <= f.starts[run].checkedAt <= f.stops[run].stoppedAt
  {
  }

  lemma ReadableHere(f: Files, owner: Id, run: Id)
    requires FilesOk(f, owner) && run in f.claims
    ensures Get(f, owner, run).Ok? <==> !StartsBeforeClaim(f, run)
  {
    hide FilesOk, Get;
    GetExact(f, owner, run);
  }

  /** Start's recheck: what it decides for each state of the Run and each authority time. */
  lemma StartAnswer(f: Files, owner: Id, run: Id, expected: Claim, at: nat)
    requires FilesOk(f, owner)
    ensures var p := PlanStart(f, owner, run, expected, expected.spec, at);
      if run !in f.claims then p == RefuseStart(NotExist)
      else if StartsBeforeClaim(f, run) || f.claims[run] != expected then p == RefuseStart(Changed)
      else if run in f.starts then p.Replay?
      else if && at != 0 && expected.spec.issuedAt <= at && at < expected.spec.workspaceExpiresAt
              && at < expected.spec.grantExpiresAt && at < expected.spec.deadline
      then p == Possible(Start(run, expected, at))
      else p == RefuseStart(NotCurrent)
  {
    if run in f.claims {
      ReadableHere(f, owner, run);
      GetExact(f, owner, run);
    }
  }

  /** Stop: an equal stop is replayed, a starting Run is stopped at a time not before its start. */
  lemma StopAnswer(f: Files, owner: Id, run: Id, expected: Claim, start: Start, outcome: Outcome, now: nat)
    requires FilesOk(f, owner)
    ensures var p := PlanStop(f, owner, run, expected, start, outcome, now);
      if now == 0 then p == RefuseStop(Invalid)
      else if run !in f.claims then p == RefuseStop(NotExist)
      else if StartsBeforeClaim(f, run) then p == RefuseStop(Changed)
      else if f.claims[run] != expected || run !in f.starts || f.starts[run] != start then p == RefuseStop(Conflict)
      else if run in f.stops then
        (if f.stops[run].outcome == outcome then p.Closed? else p == RefuseStop(Conflict))
      else if now < start.checkedAt then p == RefuseStop(Invalid)
      else p == Close(Stop(run, expected, start, outcome, now))
  {
    if run in f.claims {
      ReadableHere(f, owner, run);
      if Get(f, owner, run).Ok? {
        ViewIs(f, owner, run);
      }
    }
    hide FilesOk;
  }

  lemma InventoryHere(f: Files, owner: Id, leftovers: nat)
    requires FilesOk(f, owner)
    ensures List(f, owner, leftovers).Ok? <==> InventoryReadable(f, leftovers)
    ensures List(f, owner, leftovers).Err? ==> List(f, owner, leftovers).error == Changed
  {
    ListExact(f, owner, leftovers);
    hide FilesOk, ListOk;
    assert forall run :: StartsBeforeClaim(f, run) <==> run in f.claims && Regressed(f, run);
  }

  /** Some existing claim shares a key with `spec`. */
  ghost predicate KeyTaken(f: Files, spec: Spec)
  {
    exists run :: run in f.claims && !(Keys(f.claims[run].spec) !! Keys(spec))
  }

  lemma TakenIsCollision(f: Files, owner: Id, leftovers: nat, spec: Spec)
    requires FilesOk(f, owner) && List(f, owner, leftovers).Ok?
    ensures var views := List(f, owner, leftovers).value;
      (exists run :: run in views && Collide(views[run].spec, spec)) <==> KeyTaken(f, spec)
  {
    hide FilesOk, List, Collide, Keys;
    ListedSpecs(f, owner, leftovers);
    var views := List(f, owner, leftovers).value;
    forall run | run in f.claims ensures Collide(views[run].spec, spec) <==> !(Keys(f.claims[run].spec) !! Keys(spec)) {
      CollideIsSharedKey(f.claims[run].spec, spec);
    }
  }

  /** Claim: an equal claim is replayed; a fresh one needs its times in order and around now, an inventory
      that can be read and has room, and keys that nobody has. */
  lemma ClaimAnswer(f: Files, owner: Id, leftovers: nat, spec: Spec, now: nat)
    requires FilesOk(f, owner)
    ensures var p := PlanClaim(f, owner, leftovers, spec, now);
      if !TimesInOrder(spec) || now == 0 then p == Refuse(Invalid)
      else if spec.deviceId != owner then p == Refuse(NotCurrent)
      else if spec.runId in f.claims then
        (if StartsBeforeClaim(f, spec.runId) then p == Refuse(Changed)
         else if f.claims[spec.runId].spec == spec then p.Existing? else p == Refuse(Conflict))
      else if !(spec.issuedAt <= now && now < spec.workspaceExpiresAt && now < spec.grantExpiresAt
          && now < spec.deadline)
      then p == Refuse(NotCurrent)
      else if !InventoryReadable(f, leftovers) then p == Refuse(Changed)
      else if |f.claims| >= 256 || KeyTaken(f, spec) then p == Refuse(Conflict)
      else p == Fresh(Claim(owner, spec, now))
  {
    InventoryHere(f, owner, leftovers);
    assert TimesInOrder(spec) <==> ValidSpec(spec);
    if spec.runId in f.claims {
      ReadableHere(f, owner, spec.runId);
      GetExact(f, owner, spec.runId);
    } else {
      NotClaimed(f, owner, spec.runId);
    }
    if List(f, owner, leftovers).Ok? {
      TakenIsCollision(f, owner, leftovers, spec);
      ListedSpecs(f, owner, leftovers);
      assert |List(f, owner, leftovers).value| == |List(f, owner, leftovers).value.Keys|;
      assert |f.claims| == |f.claims.Keys|;
    }
    hide FilesOk, List, Get, Collide, KeyTaken, InventoryReadable, StartsBeforeClaim, TimesInOrder, ValidSpec;
  }

  lemma NotClaimed(f: Files, owner: Id, run: Id)
    requires run !in f.claims
    ensures Get(f, owner, run) == Err(NotExist)
  {
  }

  /** Claim succeeds: the equal claim is there and readable, or a fresh one is allowed and becomes durable. */
  ghost predicate ClaimGranted(f: Files, owner: Id, leftovers: nat, spec: Spec, now: nat, w: WriteOutcome)
  {
    && TimesInOrder(spec) && now != 0 && spec.deviceId == owner
    && if spec.runId in f.claims then !StartsBeforeClaim(f, spec.runId) && f.claims[spec.runId].spec == spec
       else
         && spec.issuedAt <= now && now < spec.workspaceExpiresAt && now < spec.grantExpiresAt && now < spec.deadline
         && InventoryReadable(f, leftovers) && |f.claims| < 256 && !KeyTaken(f, spec) && w == Durable
  }

  /** Stop succeeds: the Run is stopped with this outcome, or it is starting, not ahead of the clock, and its
      stop record becomes durable. */
  ghost predicate StopGranted(f: Files, run: Id, expected: Claim, start: Start, outcome: Outcome, now: nat,
      w: WriteOutcome)
  {
    && now != 0 && run in f.claims && f.claims[run] == expected && run in f.starts && f.starts[run] == start
    && expected.claimedAt <= start.checkedAt
    && if run in f.stops then f.stops[run].outcome == outcome else start.checkedAt <= now && w == Durable
  }

  lemma ClaimGrantedIff(f: Files, owner: Id, leftovers: nat, spec: Spec, now: nat, w: WriteOutcome)
    requires FilesOk(f, owner)
    ensures var p := PlanClaim(f, owner, leftovers, spec, now);
      ClaimGranted(f, owner, leftovers, spec, now, w) <==> p.Existing? || (p.Fresh? && w == Durable)
  {
    hide FilesOk, PlanClaim, InventoryReadable, KeyTaken, StartsBeforeClaim, TimesInOrder;
    ClaimAnswer(f, owner, leftovers, spec, now);
  }

  lemma StopGrantedIff(f: Files, owner: Id, run: Id, expected: Claim, start: Start, outcome: Outcome, now: nat,
      w: WriteOutcome)
    requires FilesOk(f, owner)
    ensures var p := PlanStop(f, owner, run, expected, start, outcome, now);
      StopGranted(f, run, expected, start, outcome, now, w) <==> p.Closed? || (p.Close? && w == Durable)
  {
    hide FilesOk, PlanStop;
    StopAnswer(f, owner, run, expected, start, outcome, now);
  }
}
