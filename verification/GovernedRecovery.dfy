/**
 Restart recovery: the process inventory is fenced, Inbox and admission inventory
 are joined, every possible start is fenced and closed as outcome_unknown, and
 only then may an Inbox record be touched or a message be sent.
 */
module GovernedRecovery {
  import opened DurableDirectory
  import opened Options
  import opened RuntimeFence
  import opened FenceStore
  import opened AdmissionAnswers
  import ProcessJournal
  import ProcessAbsence
  import ProcessFencing

  datatype InboxState = Accepted | Preparing | Working | Terminal

  /** `valid` is the record's own validation, `request` the spec its request stands for. */
  datatype Record = Record(runId: Id, governed: bool, valid: bool, state: InboxState, request: Spec, canceled: bool)

  /** An effect is logged when it begins. */
  datatype Effect =
    | FencedAll
    | Fenced(run: Id)               // the recorded process tree of this Run is proven absent
    | ClosedUnknown(run: Id)        // its stop record is written
    | CanceledTombstone(run: Id)    // Inbox touched and a message sent
    | EmittedUnknown(run: Id)       // Inbox touched
    | Replayed(run: Id)             // messages sent

  datatype Verdict = Recovered | FenceFailed | Unreadable | Inconsistent | CloseFailed | DeliveryFailed

  predicate IsDelivery(e: Effect)
  {
    e.CanceledTombstone? || e.EmittedUnknown? || e.Replayed?
  }

  // ---------- the join of the two inventories ----------

  predicate ValidView(v: View)
  {
    match v.state
    case Claimed => v.startDigest.None? && v.checkedAt.None? && v.outcome.None? && v.stoppedAt.None?
    case Starting => v.startDigest.Some? && v.checkedAt.Some? && v.outcome.None? && v.stoppedAt.None?
        && v.claimedAt <= v.checkedAt.value
    case Stopped => v.startDigest.Some? && v.checkedAt.Some? && v.outcome.Some? && v.stoppedAt.Some?
                    && v.claimedAt <= v.checkedAt.value <= v.stoppedAt.value
  }

  predicate StateFits(r: Record, views: map<Id, View>)
  {
    if r.runId !in views then r.state != Working
    else if views[r.runId].state == Claimed then r.state != Working
    else r.state != Preparing
  }

  predicate RecordFits(r: Record, views: map<Id, View>)
  {
    r.valid && (r.runId in views ==> r.request == views[r.runId].spec) && StateFits(r, views)
  }

  /** Every governed record fits its admission and every admission has a valid governed record. */
  ghost predicate Joined(records: seq<Record>, views: map<Id, View>)
  {
    && (forall i :: 0 <= i < |records| && records[i].governed ==> RecordFits(records[i], views))
    && (forall run :: run in views ==> exists i ::
        0 <= i < |records| && records[i].governed && records[i].valid && records[i].runId == run)
  }

  /** Inbox and admission records agree: every governed record is valid and asks for what was claimed, a working
      one has a start record and a preparing one none, and every claim has a valid governed record. */
  ghost predicate Consistent(records: seq<Record>, f: Files)
  {
    && (forall i :: 0 <= i < |records| && records[i].governed ==>
          var r := records[i];
          && r.valid && (r.runId in f.claims ==> r.request == f.claims[r.runId].spec)
          && (r.state == Working ==> r.runId in f.claims && r.runId in f.starts)
          && (r.state == Preparing ==> !(r.runId in f.claims && r.runId in f.starts)))
    && (forall run :: run in f.claims ==>
          exists i :: 0 <= i < |records| && records[i].governed && records[i].valid && records[i].runId == run)
  }

  /** What the listed views are, on the records. */
  lemma ListedAre(f: Files, owner: Id, leftovers: nat)
    requires FilesOk(f, owner) && List(f, owner, leftovers).Ok?
    ensures var views := List(f, owner, leftovers).value;
      && views.Keys == f.claims.Keys
      && forall run :: run in f.claims ==>
           views[run].spec == f.claims[run].spec && (views[run].state == Claimed <==> run !in f.starts)
  {
    hide FilesOk, Get;
    ListedSpecs(f, owner, leftovers);
    forall run | run in f.claims ensures List(f, owner, leftovers).value[run].state == Claimed <==> run !in f.starts {
      GetExact(f, owner, run);
    }
  }

  lemma JoinedIsConsistent(f: Files, owner: Id, leftovers: nat, records: seq<Record>)
    requires FilesOk(f, owner) && List(f, owner, leftovers).Ok?
    ensures Joined(records, List(f, owner, leftovers).value) <==> Consistent(records, f)
  {
    hide FilesOk, List;
    ListedAre(f, owner, leftovers);
    var views := List(f, owner, leftovers).value;
    assert forall run :: run in views <==> run in f.claims;
  }

  /** Every listed view passes recovery's own validation, so that check never aborts recovery. */
  lemma ListedViewsValid(f: Files, owner: Id, leftovers: nat, run: Id)
    requires List(f, owner, leftovers).Ok? && run in f.claims
    ensures ValidView(List(f, owner, leftovers).value[run])
  {
    assert Get(f, owner, run).Ok?;
  }

  /** The inventory check accumulates every inconsistency and is exact. */
  method CheckInventory(records: seq<Record>, views: map<Id, View>) returns (consistent: bool)
    ensures consistent <==> Joined(records, views)
  {
    consistent := true;
    var governedRuns: set<Id> := {};
    for i := 0 to |records|
      invariant consistent <==> forall k :: 0 <= k < i && records[k].governed ==> RecordFits(records[k], views)
      invariant forall run :: run in governedRuns <==>
        exists k :: 0 <= k < i && records[k].governed && records[k].valid && records[k].runId == run
    {
      if records[i].governed {
        if !records[i].valid {
          consistent := false;
        } else {
          governedRuns := governedRuns + {records[i].runId};
          if !RecordFits(records[i], views) {
            consistent := false;
          }
        }
      }
    }
    if !(views.Keys <= governedRuns) {
      consistent := false;
    }
  }

  // ---------- fencing and closing ----------

  /** The process identity of a started Run: its id and the digests of its claim and its start. */
  function IdentityOf(f: Files, run: Id): (identity: ProcessJournal.Identity)
    requires run in f.claims && run in f.starts
  {
    ProcessJournal.Identity(run, f.claims[run], f.starts[run])
  }

  /** A successful answer of FenceAndWait for `run`, with the Run's process journal as it is then. */
  ghost predicate FenceAnswer(f: Files, run: Id, p: ProcessJournal.Proc)
  {
    && run in f.claims && run in f.starts
    && ProcessAbsence.ReachableCareful(p) && ProcessAbsence.Ended(p.dir.Live())
    && p.dir.Live().prepared.Some? && p.dir.Live().prepared.value.identity == IdentityOf(f, run)
  }

  /** The effects of closing the Runs of `order`, each fenced immediately before it is closed. */
  function CloseEffects(order: seq<Id>): (log: seq<Effect>)
  {
    if order == [] then []
    else CloseEffects(order[..|order| - 1]) + [Fenced(order[|order| - 1]), ClosedUnknown(order[|order| - 1])]
  }

  lemma {:induction false} CloseEffectsFenceFirst(order: seq<Id>, i: nat)
    requires i < |CloseEffects(order)|
    ensures !IsDelivery(CloseEffects(order)[i])
    ensures CloseEffects(order)[i].Fenced? || CloseEffects(order)[i].ClosedUnknown?
    ensures CloseEffects(order)[i].run in order
    ensures CloseEffects(order)[i].ClosedUnknown? ==>
      i > 0 && CloseEffects(order)[i - 1] == Fenced(CloseEffects(order)[i].run)
  {
    if i < |CloseEffects(order[..|order| - 1])| {
      CloseEffectsFenceFirst(order[..|order| - 1], i);
    }
  }

  /** `run` was fenced and then at once closed before position `i`. */
  ghost predicate ClosedBefore(log: seq<Effect>, i: int, run: Id)
  {
    exists j :: 0 < j < i && j < |log| && log[j] == ClosedUnknown(run) && log[j - 1] == Fenced(run)
  }

  lemma {:induction false} CloseEffectsHas(order: seq<Id>, run: Id)
    requires run in order
    ensures ClosedBefore(CloseEffects(order), |CloseEffects(order)|, run)
  {
    var before := CloseEffects(order[..|order| - 1]);
    var log := CloseEffects(order);
    if run == order[|order| - 1] {
      assert log[|before| + 1] == ClosedUnknown(run) && log[|before|] == Fenced(run);
    } else {
      assert run in order[..|order| - 1];
      CloseEffectsHas(order[..|order| - 1], run);
      var j :| 0 < j < |before| && before[j] == ClosedUnknown(run) && before[j - 1] == Fenced(run);
      assert log[j] == ClosedUnknown(run) && log[j - 1] == Fenced(run);
    }
  }

  lemma CloseEffectsFenced(order: seq<Id>, run: Id)
    ensures Fenced(run) in CloseEffects(order) <==> run in order
  {
    var log := CloseEffects(order);
    if Fenced(run) in log {
      var i :| 0 <= i < |log| && log[i] == Fenced(run);
      CloseEffectsFenceFirst(order, i);
    }
    if run in order {
      CloseEffectsHas(order, run);
    }
  }

  /** The fence succeeds, the clock is not behind the start record, and the stop record becomes durable. */
  predicate Closable(f: Files, run: Id, now: nat, answer: Option<ProcessJournal.Proc>, w: WriteOutcome)
    requires run in f.claims && run in f.starts
  {
    answer.Some? && now != 0 && ClosesUnknown(f, run, now, w)
  }

  ghost predicate AllClosable(f: Files, now: nat, fences: Id -> Option<ProcessJournal.Proc>, writes: Id -> WriteOutcome)
  {
    forall run :: run in StartingRuns(f) ==>
      run in f.claims && run in f.starts && Closable(f, run, now, fences(run), writes(run))
  }

  /** Fence one starting Run and, only if it is proven absent, write its stop record. */
  method FenceThenClose(d0: Dir<Files>, owner: Id, run: Id, now: nat, answer: Option<ProcessJournal.Proc>,
      w: WriteOutcome)
    returns (d: Dir<Files>, fenced: bool, closed: bool)
    requires FilesOk(d0.Live(), owner) && run in StartingRuns(d0.Live())
    ensures FilesOk(d.Live(), owner) && OnlyClosed(d0.Live(), d.Live(), {run}, now)
    ensures closed ==> StartingRuns(d.Live()) == StartingRuns(d0.Live()) - {run}
    ensures fenced == answer.Some? && (!fenced ==> d == d0)
    ensures run in d0.Live().claims && run in d0.Live().starts && (closed <==> Closable(d0.Live(), run, now, answer, w))
    ensures var claim, start := d0.Live().claims[run], d0.Live().starts[run];
      var closes := answer.Some? && now != 0 && claim.claimedAt <= start.checkedAt && start.checkedAt <= now;
      && (closed <==> closes && w == Durable)
      && d == if closes then d0.Write(StopFile(d0.Live(), Stop(run, claim, start, OutcomeUnknown, now)), w) else d0
  {
    d, fenced, closed := d0, answer.Some?, false;
    var f := d0.Live();
    OnlyClosedNothing(f, owner, run, now);
    hide FilesOk, OnlyClosed;
    if !fenced { return; }
    var claim, start := f.claims[run], f.starts[run];
    if now == 0 || now < start.checkedAt || start.checkedAt < claim.claimedAt { return; }
    OnlyClosedOne(f, owner, run, now);
    d := d0.Write(StopFile(f, Stop(run, claim, start, OutcomeUnknown, now)), w);
    closed := w == Durable;
  }

  /** The stop records of `g` that `f` lacks belong to `runs`. */
  ghost predicate NewStopsOf(f: Files, g: Files, runs: set<Id>)
  {
    forall run :: run in g.stops && run !in f.stops ==> run in runs
  }

  lemma NewStopsMore(f: Files, g: Files, h: Files, runs: set<Id>, run: Id, now: nat)
    requires NewStopsOf(f, g, runs) && OnlyClosed(g, h, {run}, now)
    ensures NewStopsOf(f, h, runs + {run})
  {
  }

  lemma SameRecords(f: Files, g: Files, runs: set<Id>, now: nat)
    requires OnlyClosed(f, g, runs, now)
    ensures g.claims == f.claims && g.starts == f.starts
  {
  }

  lemma SameClosable(f: Files, g: Files, run: Id, now: nat, answer: Option<ProcessJournal.Proc>, w: WriteOutcome)
    requires g.claims == f.claims && g.starts == f.starts && run in f.claims && run in f.starts
    ensures Closable(f, run, now, answer, w) <==> Closable(g, run, now, answer, w)
  {
  }

  lemma NothingYet(f: Files, runs: set<Id>, now: nat)
    ensures OnlyClosed(f, f, runs, now) && NewStopsOf(f, f, {}) && CloseEffects([]) == []
  {
    NothingClosed(f, runs, now);
  }

  /** Fence and close every starting Run; `fences` and `writes` say how each fence and write ends. */
  method CloseStarting(d0: Dir<Files>, owner: Id, now: nat, fences: Id -> Option<ProcessJournal.Proc>,
                       writes: Id -> WriteOutcome)
    returns (d: Dir<Files>, order: seq<Id>, log: seq<Effect>, ok: bool)
    requires FilesOk(d0.Live(), owner)
    ensures FilesOk(d.Live(), owner) && OnlyClosed(d0.Live(), d.Live(), StartingRuns(d0.Live()), now)
    ensures log == CloseEffects(order) || exists run :: log == CloseEffects(order) + [Fenced(run)]
    ensures forall run :: Fenced(run) in log ==> fences(run).Some?
    ensures forall run :: run in d.Live().stops && run !in d0.Live().stops ==> Fenced(run) in log
    ensures ok ==> log == CloseEffects(order) && StartingRuns(d.Live()) == {}
    ensures ok ==> forall run :: run in order <==> run in StartingRuns(d0.Live())
    ensures ok <==> AllClosable(d0.Live(), now, fences, writes)
  {
    hide FilesOk, OnlyClosed, StartingRuns, NewStopsOf, CloseEffects, Closable;
    d, order, log, ok := d0, [], [], true;
    ghost var starting := StartingRuns(d0.Live());
    NothingYet(d0.Live(), starting, now);
    ghost var fenced: set<Id> := {};
    while StartingRuns(d.Live()) != {}
      invariant FilesOk(d.Live(), owner) && OnlyClosed(d0.Live(), d.Live(), starting, now)
      invariant StartingRuns(d.Live()) <= starting
      invariant log == CloseEffects(order) && ok
      invariant forall run :: run in order <==> run in starting && run !in StartingRuns(d.Live())
      invariant forall run :: run in fenced <==> run in order
      invariant forall run :: run in fenced ==> fences(run).Some?
      invariant forall run :: run in order ==>
        && run in d0.Live().claims && run in d0.Live().starts
        && Closable(d0.Live(), run, now, fences(run), writes(run))
      invariant NewStopsOf(d0.Live(), d.Live(), fenced)
      decreases StartingRuns(d.Live())
    {
      var run :| run in StartingRuns(d.Live());
      SameRecords(d0.Live(), d.Live(), starting, now);
      var next, absent, closed := FenceThenClose(d, owner, run, now, fences(run), writes(run));
      OnlyClosedTransitive(d0.Live(), d.Live(), next.Live(), starting, run, now);
      NewStopsMore(d0.Live(), d.Live(), next.Live(), fenced, run, now);
      assert closed <==> Closable(d0.Live(), run, now, fences(run), writes(run)) by {
        SameClosable(d0.Live(), d.Live(), run, now, fences(run), writes(run));
      }
      if !closed {
        if absent {
          fenced := fenced + {run};
          log := log + [Fenced(run)];
        }
        d := next;
        ok := false;
        FencedInLog(order, run, fenced, log);
        StopsFenced(d0.Live(), d.Live(), fenced, log);
        return;
      }
      d := next;
      fenced := fenced + {run};
      CloseEffectsMore(order, run);
      order := order + [run];
      log := log + [Fenced(run), ClosedUnknown(run)];
    }
    FencedInLog(order, 0, fenced, log);
    StopsFenced(d0.Live(), d.Live(), fenced, log);
  }

  /** The log names exactly the fenced Runs: those of `order` and possibly a last one. */
  lemma FencedInLog(order: seq<Id>, last: Id, fenced: set<Id>, log: seq<Effect>)
    requires
      || (log == CloseEffects(order) && forall run :: run in fenced <==> run in order)
      || (log == CloseEffects(order) + [Fenced(last)] && forall run :: run in fenced <==> run in order || run == last)
    ensures forall run :: Fenced(run) in log <==> run in fenced
  {
    forall run ensures Fenced(run) in CloseEffects(order) <==> run in order {
      CloseEffectsFenced(order, run);
    }
  }

  lemma CloseEffectsMore(order: seq<Id>, run: Id)
    ensures CloseEffects(order + [run]) == CloseEffects(order) + [Fenced(run), ClosedUnknown(run)]
  {
    assert (order + [run])[..|order|] == order;
  }

  lemma StopsFenced(f: Files, g: Files, fenced: set<Id>, log: seq<Effect>)
    requires NewStopsOf(f, g, fenced) && forall run :: run in fenced ==> Fenced(run) in log
    ensures forall run :: run in g.stops && run !in f.stops ==> Fenced(run) in log
  {
  }

  // ---------- delivering ----------

  /** What one governed record causes once every possible start is closed. */
  function RecordEffects(r: Record, views: map<Id, View>): (log: seq<Effect>)
  {
    if !r.governed then []
    else if r.canceled && r.state != Terminal then [CanceledTombstone(r.runId)]
    else if r.state == Terminal then [Replayed(r.runId)]
    else if r.state == Preparing || r.runId !in views || views[r.runId].state == Claimed then []
    else [EmittedUnknown(r.runId), Replayed(r.runId)]
  }

  function AllEffects(records: seq<Record>, views: map<Id, View>): (log: seq<Effect>)
  {
    if records == [] then []
    else AllEffects(records[..|records| - 1], views) + RecordEffects(records[|records| - 1], views)
  }

  /** A governed record that is neither terminal, cancelled nor preparing, and whose Run has a stop record. */
  ghost predicate Unresolved(r: Record, f: Files)
  {
    r.governed && !r.canceled && (r.state == Accepted || r.state == Working) && r.runId in f.stops
  }

  ghost predicate Tombstoned(r: Record)
  {
    r.governed && r.canceled && r.state != Terminal
  }

  /** What a record is owed, by its own state and the stop records. */
  ghost function Due(r: Record, f: Files): (log: seq<Effect>)
  {
    if Unresolved(r, f) then [EmittedUnknown(r.runId), Replayed(r.runId)]
    else if Tombstoned(r) then [CanceledTombstone(r.runId)]
    else if r.governed && r.state == Terminal then [Replayed(r.runId)]
    else []
  }

  ghost function AllDue(records: seq<Record>, f: Files): (log: seq<Effect>)
  {
    if records == [] then [] else AllDue(records[..|records| - 1], f) + Due(records[|records| - 1], f)
  }

  /** The views that delivery works with, on the records: claimed or stopped, nothing else. */
  ghost predicate ViewsShow(views: map<Id, View>, f: Files)
  {
    forall run :: run in f.stops <==> run in views && views[run].state != Claimed
  }

  lemma EffectsAreDue(r: Record, views: map<Id, View>, f: Files)
    requires ViewsShow(views, f)
    ensures RecordEffects(r, views) == Due(r, f)
  {
  }

  lemma {:induction false} AllEffectsAreDue(records: seq<Record>, views: map<Id, View>, f: Files)
    requires ViewsShow(views, f)
    ensures AllEffects(records, views) == AllDue(records, f)
  {
    hide ViewsShow, RecordEffects, Due;
    if records != [] {
      AllEffectsAreDue(records[..|records| - 1], views, f);
      EffectsAreDue(records[|records| - 1], views, f);
    }
  }

  /** This record is a reason for this effect: an outcome_unknown terminal for an unresolved Run, a tombstone for a
      cancelled one, a replay for an unresolved or a terminal one. */
  ghost predicate Owes(r: Record, f: Files, e: Effect)
  {
    match e
    case EmittedUnknown(run) => r.runId == run && Unresolved(r, f)
    case CanceledTombstone(run) => r.runId == run && Tombstoned(r)
    case Replayed(run) => r.runId == run && (Unresolved(r, f) || (r.governed && r.state == Terminal))
    case _ => false
  }

  ghost predicate SomeOwes(records: seq<Record>, f: Files, e: Effect)
  {
    exists i :: 0 <= i < |records| && Owes(records[i], f, e)
  }

  lemma DueIsOwed(r: Record, f: Files, e: Effect)
    ensures e in Due(r, f) <==> Owes(r, f, e)
  {
  }

  /** An effect is due exactly when some record is a reason for it. */
  lemma {:induction false} DueIff(records: seq<Record>, f: Files, e: Effect)
    ensures e in AllDue(records, f) <==> SomeOwes(records, f, e)
  {
    hide Due, Owes;
    if records != [] {
      var before, last := records[..|records| - 1], records[|records| - 1];
      DueIff(before, f, e);
      DueIsOwed(last, f, e);
      assert forall i :: 0 <= i < |before| ==> before[i] == records[i];
      assert SomeOwes(records, f, e) <==> SomeOwes(before, f, e) || Owes(last, f, e);
    }
  }

  /** Every emitted outcome_unknown terminal is replayed at once. */
  lemma {:induction false} EmittedThenReplayed(records: seq<Record>, f: Files, i: nat)
    requires i < |AllDue(records, f)| && AllDue(records, f)[i].EmittedUnknown?
    ensures i + 1 < |AllDue(records, f)| && AllDue(records, f)[i + 1] == Replayed(AllDue(records, f)[i].run)
  {
    if i < |AllDue(records[..|records| - 1], f)| {
      EmittedThenReplayed(records[..|records| - 1], f, i);
    }
  }

  /** The delivery of the i-th record fails; only governed records are looked at. */
  predicate Fails(records: seq<Record>, fails: nat -> Option<nat>, i: nat)
  {
    i < |records| && records[i].governed && fails(i).Some?
  }

  /** The first failing record is the `k`-th: the effects of the records before it, and of its own those
      that had begun. */
  predicate DeliveredUpTo(log: seq<Effect>, records: seq<Record>, views: map<Id, View>, fails: nat -> Option<nat>,
      k: nat)
  {
    && Fails(records, fails, k) && (forall i :: 0 <= i < k ==> !Fails(records, fails, i))
    && var own := RecordEffects(records[k], views);
       log == AllEffects(records[..k], views) + if fails(k).value < |own| then own[..fails(k).value] else own
  }

  lemma {:induction false} AllEffectsDeliver(records: seq<Record>, views: map<Id, View>, i: nat)
    requires i < |AllEffects(records, views)|
    ensures IsDelivery(AllEffects(records, views)[i])
  {
    if i < |AllEffects(records[..|records| - 1], views)| {
      AllEffectsDeliver(records[..|records| - 1], views, i);
    }
  }

  /** Deliver record by record; `fails(i)` is None if the i-th record's delivery succeeds, and otherwise
      the number of its effects that had begun when it failed. */
  method Deliver(records: seq<Record>, views: map<Id, View>, fails: nat -> Option<nat>)
    returns (log: seq<Effect>, ok: bool)
    requires forall run :: run in views ==> views[run].state != Starting
    ensures forall i :: 0 <= i < |log| ==> IsDelivery(log[i])
    ensures ok <==> forall i: nat :: !Fails(records, fails, i)
    ensures ok ==> log == AllEffects(records, views)
    ensures !ok ==> exists k :: DeliveredUpTo(log, records, views, fails, k)
  {
    log, ok := [], true;
    for i := 0 to |records|
      invariant log == AllEffects(records[..i], views) && ok
      invariant forall k :: 0 <= k < i ==> !Fails(records, fails, k)
    {
      assert records[..i + 1][..i] == records[..i];
      var all := RecordEffects(records[i], views);
      if records[i].governed && fails(i).Some? {
        forall k | 0 <= k < |log| ensures IsDelivery(log[k]) { AllEffectsDeliver(records[..i], views, k); }
        log := log + if fails(i).value < |all| then all[..fails(i).value] else all;
        assert DeliveredUpTo(log, records, views, fails, i);
        assert Fails(records, fails, i);
        ok := false;
        return;
      }
      log := log + all;
    }
    assert records[..|records|] == records;
    forall k | 0 <= k < |log| ensures IsDelivery(log[k]) { AllEffectsDeliver(records, views, k); }
  }

  // ---------- recovery as a whole ----------

  /** The views recovery works with after closing: the listed ones, re-read. */
  function ViewsAfter(f: Files, owner: Id, listed: map<Id, View>): (views: map<Id, View>)
  {
    map run | run in listed && Get(f, owner, run).Ok? :: Get(f, owner, run).value
  }

  lemma NoneStartingAfter(f: Files, owner: Id, listed: map<Id, View>, run: Id)
    requires FilesOk(f, owner) && StartingRuns(f) == {} && run in ViewsAfter(f, owner, listed)
    ensures ViewsAfter(f, owner, listed)[run].state != Starting
  {
    if run in f.claims {
      GetExact(f, owner, run);
      assert run in f.starts ==> run in StartingRuns(f) || run in f.stops;
    }
  }

  /** No delivery before every one of `starting` is fenced and closed. */
  ghost predicate DeliversLast(log: seq<Effect>, starting: set<Id>)
  {
    forall i, run :: 0 <= i < |log| && IsDelivery(log[i]) && run in starting ==> ClosedBefore(log, i, run)
  }

  ghost predicate NoDelivery(log: seq<Effect>)
  {
    forall i :: 0 <= i < |log| ==> !IsDelivery(log[i])
  }

  /** `log` ends with `delivering` and delivers nothing before. */
  ghost predicate EndsWith(log: seq<Effect>, delivering: seq<Effect>)
  {
    |delivering| <= |log| && log[|log| - |delivering|..] == delivering && NoDelivery(log[..|log| - |delivering|])
  }

  /** As DeliveredUpTo, by what is due on the records. */
  ghost predicate DueUpTo(log: seq<Effect>, records: seq<Record>, f: Files, fails: nat -> Option<nat>, k: nat)
  {
    && Fails(records, fails, k) && (forall i :: 0 <= i < k ==> !Fails(records, fails, i))
    && var own := Due(records[k], f);
       log == AllDue(records[..k], f) + if fails(k).value < |own| then own[..fails(k).value] else own
  }

  lemma UpToIsDue(log: seq<Effect>, records: seq<Record>, views: map<Id, View>, f: Files, fails: nat -> Option<nat>,
      k: nat)
    requires DeliveredUpTo(log, records, views, fails, k) && ViewsShow(views, f)
    ensures DueUpTo(log, records, f, fails, k)
  {
    hide ViewsShow, RecordEffects, Due;
    AllEffectsAreDue(records[..k], views, f);
    EffectsAreDue(records[k], views, f);
  }

  lemma DeliveredIff(log: seq<Effect>, records: seq<Record>, f: Files)
    requires NoDelivery(log)
    ensures forall e :: IsDelivery(e) ==> (e in log + AllDue(records, f) <==> SomeOwes(records, f, e))
  {
    hide SomeOwes, AllDue, IsDelivery;
    forall e | IsDelivery(e) ensures e in log + AllDue(records, f) <==> SomeOwes(records, f, e) {
      DueIff(records, f, e);
    }
  }

  /** After closing, the re-read views are claimed or stopped as the records say. */
  lemma ViewsAfterAre(f: Files, g: Files, owner: Id, leftovers: nat, runs: set<Id>, now: nat)
    requires FilesOk(f, owner) && FilesOk(g, owner) && List(f, owner, leftovers).Ok? && OnlyClosed(f, g, runs, now)
    ensures StartingRuns(g) == {} ==> ViewsShow(ViewsAfter(g, owner, List(f, owner, leftovers).value), g)
  {
    if StartingRuns(g) == {} {
      var listed := List(f, owner, leftovers).value;
      ListedAre(f, owner, leftovers);
      ListExact(f, owner, leftovers);
      var views := ViewsAfter(g, owner, listed);
      forall run ensures run in g.stops <==> run in views && views[run].state != Claimed {
        ViewAfterIs(f, g, owner, listed, runs, now, run);
      }
    }
  }

  lemma ViewAfterIs(f: Files, g: Files, owner: Id, listed: map<Id, View>, runs: set<Id>, now: nat, run: Id)
    requires FilesOk(g, owner) && OnlyClosed(f, g, runs, now) && StartingRuns(g) == {} && listed.Keys == f.claims.Keys
    requires forall r :: r in f.claims ==> !Regressed(f, r)
    ensures var views := ViewsAfter(g, owner, listed); run in g.stops <==> run in views && views[run].state != Claimed
  {
    assert run in g.starts ==> run in StartingRuns(g) || run in g.stops;
    if run in g.claims {
      GetExact(g, owner, run);
    }
  }

  /** The delivering part of Recover, after the log of the closing. */
  method DeliverDue(ghost order: seq<Id>, closing: seq<Effect>, records: seq<Record>, views: map<Id, View>,
                    fails: nat -> Option<nat>, ghost f: Files, ghost starting: set<Id>)
    returns (log: seq<Effect>, ok: bool)
    requires forall run :: run in views ==> views[run].state != Starting
    requires closing == [FencedAll] + CloseEffects(order) && NoDelivery(closing) && ViewsShow(views, f)
    requires forall run :: run in starting ==> run in order
    ensures ok <==> forall i: nat :: !Fails(records, fails, i)
    ensures DeliversLast(log, starting) && forall run :: Fenced(run) in log <==> Fenced(run) in closing
    ensures ok ==> EndsWith(log, AllDue(records, f))
    ensures ok ==> forall e :: IsDelivery(e) ==> (e in log <==> SomeOwes(records, f, e))
    ensures !ok ==> exists delivering, k :: EndsWith(log, delivering) && DueUpTo(delivering, records, f, fails, k)
  {
    hide AllDue, SomeOwes, DueUpTo, DeliveredUpTo, Fails, ViewsShow, DeliversLast, CloseEffects;
    var delivering;
    delivering, ok := Deliver(records, views, fails);
    JoinLogs(order, closing, delivering, starting);
    hide EndsWith;
    if ok {
      AllEffectsAreDue(records, views, f);
      DeliveredIff(closing, records, f);
    } else {
      ghost var k :| DeliveredUpTo(delivering, records, views, fails, k);
      UpToIsDue(delivering, records, views, f, fails, k);
    }
    log := closing + delivering;
  }

  lemma NothingDelivered(log: seq<Effect>, starting: set<Id>)
    ensures NoDelivery([]) && NoDelivery([FencedAll])
    ensures NoDelivery(log) ==> DeliversLast(log, starting)
  {
  }

  /** The fencing and closing part of Recover; on success the re-read views are claimed or stopped. */
  method CloseAll(d0: Dir<Files>, owner: Id, leftovers: nat, now: nat, fences: Id -> Option<ProcessJournal.Proc>,
                  writes: Id -> WriteOutcome)
    returns (d: Dir<Files>, ghost order: seq<Id>, log: seq<Effect>, ok: bool)
    requires FilesOk(d0.Live(), owner) && List(d0.Live(), owner, leftovers).Ok?
    ensures FilesOk(d.Live(), owner) && OnlyClosed(d0.Live(), d.Live(), StartingRuns(d0.Live()), now)
    ensures NoDelivery(log) && DeliversLast(log, StartingRuns(d0.Live()))
    ensures forall run :: Fenced(run) in log ==> fences(run).Some?
    ensures forall run :: run in d.Live().stops && run !in d0.Live().stops ==> Fenced(run) in log
    ensures ok <==> AllClosable(d0.Live(), now, fences, writes)
    ensures ok ==>
      && log == [FencedAll] + CloseEffects(order) && StartingRuns(d.Live()) == {}
      && (forall run :: run in StartingRuns(d0.Live()) ==> run in order)
      && var views := ViewsAfter(d.Live(), owner, List(d0.Live(), owner, leftovers).value);
      ViewsShow(views, d.Live()) && forall run :: run in views ==> views[run].state != Starting
  {
    hide AllClosable, FilesOk, StartingRuns, CloseEffects, ViewsAfter, OnlyClosed, List, ViewsShow, DeliversLast,
         NoDelivery;
    var fencing, closed;
    d, closed, fencing, ok := CloseStarting(d0, owner, now, fences, writes);
    order := closed;
    log := [FencedAll] + fencing;
    FencingShape(order, fencing);
    NothingDelivered(log, StartingRuns(d0.Live()));
    ViewsAfterAre(d0.Live(), d.Live(), owner, leftovers, StartingRuns(d0.Live()), now);
    if ok {
      ghost var listed := List(d0.Live(), owner, leftovers).value;
      forall run | run in ViewsAfter(d.Live(), owner, listed)
        ensures ViewsAfter(d.Live(), owner, listed)[run].state != Starting
      {
        NoneStartingAfter(d.Live(), owner, listed, run);
      }
    }
  }

  /** Recover: nothing is delivered before every possible start is fenced and closed; an
      inconsistent inventory is reported only after that closing, with nothing delivered. */
  method Recover(d0: Dir<Files>, owner: Id, leftovers: nat, records: seq<Record>, now: nat,
                 fenceAll: bool, inboxReadable: bool, fences: Id -> Option<ProcessJournal.Proc>,
                 writes: Id -> WriteOutcome, fails: nat -> Option<nat>)
    returns (d: Dir<Files>, log: seq<Effect>, verdict: Verdict)
    requires FilesOk(d0.Live(), owner)
    ensures verdict == FenceFailed <==> !fenceAll
    ensures verdict == Unreadable <==> fenceAll && !(inboxReadable && InventoryReadable(d0.Live(), leftovers))
    ensures verdict == CloseFailed <==>
      && fenceAll && inboxReadable && InventoryReadable(d0.Live(), leftovers)
      && !AllClosable(d0.Live(), now, fences, writes)
    ensures verdict == Inconsistent <==>
      && fenceAll && inboxReadable && InventoryReadable(d0.Live(), leftovers)
      && AllClosable(d0.Live(), now, fences, writes) && !Consistent(records, d0.Live())
    ensures verdict == DeliveryFailed <==>
      && fenceAll && inboxReadable && InventoryReadable(d0.Live(), leftovers)
      && AllClosable(d0.Live(), now, fences, writes) && Consistent(records, d0.Live())
      && !(forall i: nat :: !Fails(records, fails, i))
    ensures OnlyClosed(d0.Live(), d.Live(), StartingRuns(d0.Live()), now)
    ensures DeliversLast(log, StartingRuns(d0.Live()))
    ensures forall run :: Fenced(run) in log ==> fences(run).Some?
    ensures forall run :: run in d.Live().stops && run !in d0.Live().stops ==> Fenced(run) in log
    ensures verdict in {Recovered, Inconsistent, DeliveryFailed} ==>
      StartingRuns(d.Live()) == {} && InventoryReadable(d0.Live(), leftovers)
    ensures verdict !in {Recovered, DeliveryFailed} ==> NoDelivery(log)
    ensures verdict == Recovered ==> EndsWith(log, AllDue(records, d.Live()))
    ensures verdict == Recovered ==> forall e :: IsDelivery(e) ==> (e in log <==> SomeOwes(records, d.Live(), e))
    ensures verdict == DeliveryFailed ==> exists delivering, k ::
      EndsWith(log, delivering) && DueUpTo(delivering, records, d.Live(), fails, k)
  {
    InventoryHere(d0.Live(), owner, leftovers);
    NothingYet(d0.Live(), StartingRuns(d0.Live()), now);
    hide Consistent, InventoryReadable, AllDue, SomeOwes, DueUpTo, Joined, AllClosable, DeliveredUpTo, Fails;
    hide FilesOk, StartingRuns, CloseEffects, ViewsAfter, OnlyClosed, List, ViewsShow, EndsWith;
    NothingDelivered([], StartingRuns(d0.Live()));
    NothingDelivered([FencedAll], StartingRuns(d0.Live()));
    hide NoDelivery, DeliversLast, IsDelivery;
    d, log := d0, [];
    if !fenceAll { return d, log, FenceFailed; }
    log := [FencedAll];
    if !inboxReadable { return d, log, Unreadable; }
    var listed := List(d0.Live(), owner, leftovers);
    if listed.Err? { return d, log, Unreadable; }
    var consistent := CheckInventory(records, listed.value);
    JoinedIsConsistent(d0.Live(), owner, leftovers, records);
    ghost var order;
    var ok;
    d, order, log, ok := CloseAll(d0, owner, leftovers, now, fences, writes);
    if !ok { return d, log, CloseFailed; }
    if !consistent { return d, log, Inconsistent; }
    var views := ViewsAfter(d.Live(), owner, listed.value);
    log, ok := DeliverDue(order, log, records, views, fails, d.Live(), StartingRuns(d0.Live()));
    verdict := if ok then Recovered else DeliveryFailed;
  }

  lemma FencingShape(order: seq<Id>, log: seq<Effect>)
    requires log == CloseEffects(order) || exists run :: log == CloseEffects(order) + [Fenced(run)]
    ensures NoDelivery([FencedAll] + log)
  {
    forall i | 0 <= i < |log| ensures !IsDelivery(log[i]) {
      if i < |CloseEffects(order)| {
        CloseEffectsFenceFirst(order, i);
      }
    }
  }

  lemma JoinLogs(order: seq<Id>, log: seq<Effect>, delivering: seq<Effect>, starting: set<Id>)
    requires log == [FencedAll] + CloseEffects(order) && NoDelivery(log)
    requires forall run :: run in starting ==> run in order
    requires forall i :: 0 <= i < |delivering| ==> IsDelivery(delivering[i])
    ensures DeliversLast(log + delivering, starting) && EndsWith(log + delivering, delivering)
    ensures forall run :: Fenced(run) in log + delivering <==> Fenced(run) in log
  {
    var whole := log + delivering;
    forall i, run | 0 <= i < |whole| && IsDelivery(whole[i]) && run in starting ensures ClosedBefore(whole, i, run) {
      CloseEffectsHas(order, run);
      var closing := CloseEffects(order);
      var j :| 0 < j < |closing| && closing[j] == ClosedUnknown(run) && closing[j - 1] == Fenced(run);
      assert whole[j + 1] == ClosedUnknown(run) && whole[j] == Fenced(run);
    }
    assert whole[..|log|] == log;
  }

  /** Every Run that recovery closed had, when it was fenced, no process left. */
  lemma ClosedRunsAreAbsent(f: Files, g: Files, log: seq<Effect>, fences: Id -> Option<ProcessJournal.Proc>, run: Id)
    requires forall r :: Fenced(r) in log ==> fences(r).Some? && FenceAnswer(f, r, fences(r).value)
    requires forall r :: r in g.stops && r !in f.stops ==> Fenced(r) in log
    requires run in g.stops && run !in f.stops
    ensures fences(run).Some? && !fences(run).value.tree
  {
    ProcessAbsence.FencedMeansAbsent(fences(run).value);
  }

  // ---------- when a starting Run can be closed at all ----------

  /** `journals` are the process journals as this start of the Bridge finds them; a fence answers with
      success only if it can. */
  ghost predicate Answerable(f: Files, journals: Id -> ProcessJournal.Proc, fences: Id -> Option<ProcessJournal.Proc>)
  {
    forall run :: run in StartingRuns(f) && run in f.claims && run in f.starts && fences(run).Some? ==>
      ProcessFencing.CanSucceed(journals(run), IdentityOf(f, run))
  }

  /** The process journal of this starting Run can be fenced and the clock is not behind its start. */
  ghost predicate Recoverable(f: Files, run: Id, journal: ProcessJournal.Proc, now: nat)
  {
    && run in f.claims && run in f.starts && ProcessFencing.Fenceable(journal, IdentityOf(f, run))
    && now != 0 && f.claims[run].claimedAt <= f.starts[run].checkedAt <= now
  }

  /** Recovery can get past closing exactly when every starting Run is recoverable by its records: no other
      answers of fences and writes help. */
  lemma ClosingPossibleIff(f: Files, now: nat, journals: Id -> ProcessJournal.Proc)
    requires forall run :: run in StartingRuns(f) ==> ProcessFencing.Restarted(journals(run))
    ensures (exists fences, writes :: Answerable(f, journals, fences) && AllClosable(f, now, fences, writes)) <==>
      forall run :: run in StartingRuns(f) ==> Recoverable(f, run, journals(run), now)
  {
    hide ProcessFencing.CanSucceed, ProcessFencing.Fenceable, ProcessFencing.Restarted, StartingRuns;
    forall run | run in StartingRuns(f) && run in f.claims && run in f.starts
      ensures ProcessFencing.CanSucceed(journals(run), IdentityOf(f, run)) <==>
              ProcessFencing.Fenceable(journals(run), IdentityOf(f, run))
    {
      ProcessFencing.CanSucceedIff(journals(run), IdentityOf(f, run));
    }
    if forall run :: run in StartingRuns(f) ==> Recoverable(f, run, journals(run), now) {
      var fences := (run: Id) => Some(journals(run));
      var writes := (run: Id) => Durable;
      assert Answerable(f, journals, fences) && AllClosable(f, now, fences, writes);
    }
  }

  /** A death between coordinator Start and PrepareProcess leaves a starting Run without a prepared record.
      No fence of it ever succeeds, so every later recovery ends in CloseFailed. */
  lemma UnpreparedRunBlocksRecovery(f: Files, now: nat, journals: Id -> ProcessJournal.Proc,
                                    fences: Id -> Option<ProcessJournal.Proc>, writes: Id -> WriteOutcome, run: Id)
    requires forall r :: r in StartingRuns(f) ==> ProcessFencing.Restarted(journals(r))
    requires run in StartingRuns(f) && journals(run).dir.Live().prepared.None?
    requires Answerable(f, journals, fences)
    ensures !AllClosable(f, now, fences, writes)
  {
    hide ProcessFencing.Restarted, ProcessFencing.CanSucceed, Answerable, AllClosable, StartingRuns;
    ClosingPossibleIff(f, now, journals);
    ProcessFencing.ReadsPrepared(journals(run).dir.Live());
  }
}
