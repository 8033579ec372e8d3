# ConveneWire Bridge and web client: protocol models

ConveneWire's Bridge runs governed Agent work on a user's machine, and its web
client replays what the Bridge reports. This project models the parts of both whose
correctness depends on ordering: journals that must survive crashes, locks and
lifecycles whose critical sections interleave, and client projections that must not
depend on how events are batched.

Concurrent and durable components are transition systems. A step is one critical
section, one file or Git operation, or one move of the environment (a process death, a
power loss, another writer, a cancelled context), and a theorem about `Reachable…`
speaks of every state that any finite sequence of steps leads to. Beside the
transition systems stand the source's own objects and loops. The admission store, the
process store and the Console service carry the system's state as a ghost field: every
method takes the step of its name, so the theorems hold of the object after any sequence
of calls. The gate, the activation and the integration coordinator are tied to their
systems by `Shows`, which relates fields and state; the materializer's lock map and the
remaining methods are specified directly. What each operation answers is stated a second
time on the records, fields and times themselves, without the functions that compute it
(the `…Answer` lemmas and the methods' own postconditions), in both directions.

| file | component |
|---|---|
| `DurableDirectory.dfy` | exclusive create, sync and power loss |
| `RuntimeFence.dfy`, `AdmissionAnswers.dfy`, `AdmissionRuns.dfy`, `FenceStore.dfy` | the governed-Runtime admission journal, coordinator Start, the handler after Start |
| `ProcessJournal.dfy`, `ProcessAbsence.dfy`, `ProcessFencing.dfy`, `ProcessAnswers.dfy`, `ProcessStore.dfy` | the governed process journal, its leases and fences, what a fence proves and when it can succeed |
| `GovernedRecovery.dfy`, `RuntimeRunner.dfy` | restart recovery, and one Runtime invocation |
| `Integration.dfy`, `IntegrationCoordinator.dfy`, `ConcurrentIntegration.dfy` | the integration write-ahead protocol, one call, and several calls in flight |
| `Console.dfy`, `ConsoleAnswers.dfy`, `ConsoleService.dfy` | Bridge worker and enrollment lifecycle |
| `ExecutionGate.dfy`, `RunLocks.dfy`, `Activation.dfy` | per-Agent gate, per-Run lock, desktop activation |
| `RunReplay.dfy`, `RunProjections.dfy`, `RoomMessages.dfy` | client-side replay and merging |
| `MentionScan.dfy`, `Mentions.dfy`, `MentionCommands.dfy` | mention scanning, resolution and retention |
| `Options.dfy`, `Maps.dfy`, `StableSort.dfy` | helpers |

## Modelling decisions

- A directory is its durable content followed by the contents that later unsynced
  links produced; reading sees the last, a power loss keeps any one of them. An
  exclusive write is not linked, linked without its directory being synced (an error
  is returned), or durable.
- The digest of a record is the record itself, hence injective. Identifiers are
  naturals of which only equality is used. Times are naturals and zero is the zero
  time. Answers of collaborators (authority, fences, Git, transport, file reads) are
  parameters of the steps and range over everything.
- A process tree holds the inherited lock while any of its processes exists; only a
  holder of the lock file can spawn it.
- Other writers of the integration target fast-forward it, as the code assumes.

## What the code does that its description does not say

- `Start` does not compare the authority's time with the claim's time, but `get` does.
  A clock that ran backwards between claim and start therefore leaves a Run that every
  later read reports as changed, and with it the whole inventory. This is the only
  cause of corruption (`CorruptExactlyWhenRegressed`, `RegressedForever`), it can happen
  (`ClockCanRegress`), and it cannot with a clock that does not go back
  (`ForwardClockNeverCorrupts`).
- The comment on `Start` says that invoke is true exactly once. The code gives at most
  once. A commit that passes its recheck invokes exactly when its record is durable, was
  read back, and is not dated before the claim (`CommitInvokesIff`). A durably claimed Run
  that was not invoked can still be invoked exactly when it has no durable start record
  (`InvokePossibleIff`): a durable record without invocation is final, and exists even
  with a forward clock (`StartCanStayUninvoked`), while an unsynced one may be lost by a
  power loss, after which the Run can be started and invoked.
- The compare-and-swap can precede a durable intent. A `PutIntent` that linked the file
  but failed to sync is not repeated: the next `Execute` finds the intent and goes on. The
  intent of an attempt is durable exactly when no link is unsynced
  (`CasAttemptsAfterIntent`, `CasCanPrecedeDurableIntent`).
- A failed integration receipt can be wrong about this operation, in two ways: another
  writer moves the branch on between an applied `update-ref` that reported an error and
  its examination, or a power loss takes the unsynced intent of a moved branch.
  `FailedReceiptExact` says that there is no third way, `FailedReceiptHonest` that it is
  right in runs where neither can happen, `FailedReceiptCanBeWrong` and `LostIntentDenies`
  are the runs, and `WrongReceiptPossibleIff` says when it can still happen between calls.
- Two different receipts can be retained for one operation: a receipt that was linked but
  not synced is retained by the next attempt and then lost by a power loss
  (`TwoReceiptsCanBeRetained`). The retained receipt is final exactly when it is the
  durable one (`SameReceiptForeverIff`).
- The coordinator has no lock of its own. With two calls of one operation in flight a
  receipt can precede an update (`CasCanFollowAReceipt`), and the second call can see the
  branch the first has just moved and record that it was moved by someone else
  (`SecondCallCanDeny`), without any crash or other writer. The intent still precedes every
  update, one receipt is still handed over, and one call at a time gives back the
  sequential protocol (`OneAtATimeIsSequential`).
- A death between coordinator Start and `PrepareProcess` leaves a starting Run without a
  prepared record. No fence of it ever succeeds, so every later recovery ends without
  delivering anything (`UnpreparedRunBlocksRecovery`); `ClosingPossibleIff` says exactly
  which process journals let recovery get past closing.
- A fence's success proves that no process is left, as long as the lease gives up a
  prepared-only Run only after its tree has exited; `Abandon` itself does not check that.
  The Runtime calls it only when no process was spawned or after waiting for it
  (bridge/internal/runtime/process_unix.go:83-129). `FencedMeansAbsent` is the theorem,
  `GivingUpKeepsTree` and `LiveTreeCanBeClosed` show that the condition is needed.
- `reduceRunActivities` truncates appended content but stores a reset untruncated
  (`ItemIsWindowIff`).
- `slice(-historyLimit)` with limit 0 keeps everything; the bounded merge is proved for
  that reading as well.
- `@all` is looked for before any known name, so the longest-name rule does not apply to
  it: "@all hands" selects every agent, also one called "all", although the longer known
  name "all hands" is mentioned there (`AllBeforeLongest`). An agent whose name only ever
  starts a longer mention is selected exactly in messages with a bounded `@all`
  (`PrefixOnlySelectedIff`).
- Activation delivers outside its lock. Order is kept because drains run one at a time on
  the UI thread; two drains in flight could deliver in the other order
  (`DrainsCanOvertake`), and a drain that took its link before close still delivers it.
- The mention scanner skips a whole token after every occurrence, also an unbounded one.
  It is exact for all messages if and only if the token has no self-overlap behind a
  boundary character, which every name without `@` satisfies (`ScannerExactIff`,
  `PlainNamesScannable`, `SomeNamesMissed`).

## Model

| member | source | states |
|---|---|---|
| `RuntimeFence.GetExact` | bridge/internal/admission/runtime_fence.go:502-543 | On a well-formed directory reading a claimed Run fails exactly when its start record predates its claim; otherwise the view reports the Run's true stage, digests and outcome. |
| `RuntimeFence.ListExact` | bridge/internal/admission/runtime_fence.go:545-602 | The inventory is refused exactly when some clock regressed or leftover files exhaust the entry bound; within the slack of 16 only a regressed clock can cause it. |
| `RuntimeFence.ClaimKeeps` | bridge/internal/admission/runtime_fence.go:265-310 | A fresh claim collides with no claim in workspace generation, prepared identity or prepared operation, stays within 256 claims and changes no record. |
| `RuntimeFence.StartKeeps` | bridge/internal/admission/runtime_fence.go:400-420 | A possible start is written only for the exact unstarted claim, and keeps the directory well formed; `StartAnswer` gives the windows. |
| `RuntimeFence.StartReadsBack` | bridge/internal/admission/runtime_fence.go:413-423 | The read after writing a start record succeeds exactly when the authority's time is not before the claim, and then shows that record. |
| `RuntimeFence.StopKeeps` | bridge/internal/admission/runtime_fence.go:425-461 | A stop record is written only for the exact claim and start digests of a starting Run, once, and keeps the directory well formed. |
| `RuntimeFence.StopReadsBack` | bridge/internal/admission/runtime_fence.go:425-461 | A stop record just written reads back as stopped with that outcome. |
| `AdmissionAnswers.ReadableIff` | bridge/internal/admission/runtime_fence.go:502-543 | Of any records whatever: a Run is readable if and only if its claim is this owner's and this Run's with its times in order, its start belongs to the claim and does not predate it, and its stop belongs to both and does not predate the start. |
| `AdmissionAnswers.RecordsAre` | bridge/internal/admission/runtime_fence.go:265-461 | Every claim, start and stop of a well-formed directory, with every time inequality its writer checked. |
| `AdmissionAnswers.ClaimsAreApart` | bridge/internal/admission/runtime_fence.go:284-299 | Two claims differ in workspace generation, in prepared identity and in prepared operation; there are at most 256. |
| `AdmissionAnswers.StartAnswer` | bridge/internal/admission/runtime_fence.go:395-420 | Start's recheck, both ways: possible if and only if the exact claim is there without a start and the authority's time is nonzero, not before the issue, and before lease end, grant end and deadline; a started Run is replayed. |
| `AdmissionAnswers.StopAnswer` | bridge/internal/admission/runtime_fence.go:425-461 | Stop: an equal outcome is replayed and another refused; an unstopped start gets this record if and only if now is not before it. |
| `AdmissionAnswers.ClaimAnswer` | bridge/internal/admission/runtime_fence.go:265-310 | Claim: an equal claim is replayed and another refused; a fresh one is allowed if and only if the spec is this device's, its times are in order and around now, the inventory can be read, has fewer than 256 claims, and none shares a key. |
| `AdmissionRuns.InvokeAtMostOnce` | bridge/internal/admission/runtime_fence.go:367-423 | Over all interleavings of concurrent Start calls, claims, stops, closes, restarts and power losses, invoke=true is returned at most once per Run. |
| `AdmissionRuns.InvokeIsDurableAndCurrent` | bridge/internal/admission/runtime_fence.go:367-423 | Whoever was told to invoke has a start record that no power loss can take back, checked at a nonzero time not before the issue and the claim and before lease end, grant end and deadline, each inequality on the claim's own spec. |
| `AdmissionRuns.InvokeResultExact` | bridge/internal/admission/coordinator.go:150-208 | The callers that coordinator Start answers with invoke=true are exactly the recorded invocations. |
| `AdmissionRuns.RefusedLeftNoStart` | bridge/internal/admission/coordinator.go:150-208 | An error that is not a possible-start error means that this call created no start record, also when its write linked the file and only the sync failed. |
| `AdmissionRuns.HandlerNeverDeniesAPossibleStart` | bridge/internal/delivery/governed_handler.go:120-146 | A denied or canceled terminal is never produced for a Run this attempt may have started; the Runtime is executed exactly by attempts that were told to invoke. |
| `AdmissionRuns.HandlerAnswer` | bridge/internal/delivery/governed_handler.go:120-146 | Which move follows each answer of Start, cancellation, retryability and Inbox state; each move has its exact cause. |
| `AdmissionRuns.BeginAnswer` | bridge/internal/admission/runtime_fence.go:371-390 | First section of coordinator Start: goes to the authority exactly for a still claimed Run on an open store, answers without invoking exactly for a readable started one, and otherwise leaves it to the observation. |
| `AdmissionRuns.CommitAnswer` | bridge/internal/admission/coordinator.go:150-208 | Second section: invokes exactly inside every window, on the open store, for the still claimed Run, with the record durable and read back; the directory afterwards in every case. |
| `AdmissionRuns.ObserveAnswer` | bridge/internal/admission/coordinator.go:150-208 | After an error, a plain refusal exactly when the open store reads the Run still claimed, unchanged and unstarted; otherwise a possible start. |
| `AdmissionRuns.EveryContentWellFormed` | bridge/internal/admission/runtime_fence.go:502-602 | Every content that a process can read or a power loss can leave has stopped ⇒ starting ⇒ claimed, matching digests, stops not before starts not before claims, at most 256 claims and no colliding pair. |
| `AdmissionRuns.DurableRecordsNeverChange` | bridge/internal/admission/profiles.go:700-726 | No continuation changes or loses a durable record. |
| `AdmissionRuns.CorruptExactlyWhenRegressed` | bridge/internal/admission/runtime_fence.go:502-543 | In every reachable state reading a claimed Run reports corruption if and only if its start record predates its claim. |
| `AdmissionRuns.ForwardClockNeverCorrupts` | bridge/internal/admission/runtime_fence.go:502-602 | In runs whose clock never goes behind the claim, every claimed Run is readable and, within the leftover slack, so is the inventory. |
| `AdmissionRuns.RegressedForever` | bridge/internal/admission/runtime_fence.go:502-543 | Once a regressed start record is durable, the Run is unreadable in every continuation. |
| `AdmissionRuns.ClockCanRegress` | bridge/internal/admission/runtime_fence.go:371-423 | A run that claims, starts behind the claim and is never repaired exists. |
| `AdmissionRuns.StoppedNeverInvokedAgain` | bridge/internal/admission/runtime_fence.go:367-461 | After a durable stop record no continuation invokes the Run again. |
| `AdmissionRuns.CommitInvokesIff` | bridge/internal/admission/runtime_fence.go:413-423 | A commit that passes its recheck invokes if and only if the start record is durable, was read back and is not dated before the claim. |
| `AdmissionRuns.InvokePossibleIff` | bridge/internal/admission/runtime_fence.go:365-423 | For a durably claimed Run not yet invoked, some continuation invokes it if and only if it has no durable start record. |
| `AdmissionRuns.StartCanStayUninvoked` | bridge/internal/admission/runtime_fence.go:418-423 | With a forward clock a durable start record can exist without any invocation. |
| `FenceStore.RuntimeFenceStore.ListRuns` | bridge/internal/admission/runtime_fence.go:545-602 | The loop over the claimed Runs computes exactly the inventory, or refuses. |
| `FenceStore.RuntimeFenceStore.ClaimRun` | bridge/internal/admission/runtime_fence.go:265-310 | Takes the journal's claim action, append-only; succeeds exactly when an equal claim is there and readable, or the spec is this device's, its times are in order and around now, the inventory is readable with room, no claim shares a key, and the write is durable; then exactly that claim is added and reads back. |
| `FenceStore.RuntimeFenceStore.ReadBeforeAuthority` | bridge/internal/admission/runtime_fence.go:371-390 | Takes the journal's begin action; answers with the view exactly when the open store holds this very claim and no start predates it, and asks the authority exactly when there is no start record. |
| `FenceStore.RuntimeFenceStore.CommitAfterAuthority` | bridge/internal/admission/runtime_fence.go:395-423 | Takes the journal's commit action; the start record is written exactly when the open store holds this claim without a start and the authority's time is inside issue, lease, grant and deadline; invoke exactly when it is moreover durable, read back and not before the claim, and exactly then one invocation is recorded; an error after linking is an I/O or changed error. |
| `FenceStore.RuntimeFenceStore.InvokedOnce` | bridge/internal/admission/runtime_fence.go:365-423 | After any sequence of calls on the object, invoke was said at most once per Run, each time with a durable start. |
| `FenceStore.RuntimeFenceStore.StopRun` | bridge/internal/admission/runtime_fence.go:425-461 | Takes the journal's stop action; succeeds exactly for the exact claim and start of a readable Run that is stopped with this outcome already, or is not stopped, started no later than now, and whose record becomes durable; then that is its one stop record and nothing else changed. |
| `FenceStore.RuntimeFenceStore.RecoverUnknown` | bridge/internal/admission/runtime_fence.go:465-500 | Changes nothing but outcome_unknown stop records of starting Runs, by stop actions of the journal; succeeds exactly when the store is open, the inventory readable, and every start without a stop is no later than now and gets a durable record; then none is left starting and exactly those are returned. |
| `FenceStore.RuntimeFenceStore.WithStoppedRun` | bridge/internal/admission/runtime_fence.go:333-365 | Retirement is authorized exactly for a stopped Run whose twelve scope fields all match. |
| `ProcessJournal.ReadExact` | bridge/internal/admission/process_store.go:597-647 | On records this journal can contain, reading fails exactly when some record predates its predecessor; otherwise the view is exact. |
| `ProcessJournal.StagesNeverContradict` | bridge/internal/admission/process_store.go:279-351 | Over all interleavings of the lease, any number of fences, restarts and power losses: finished and abandoned never coexist, nor active and abandoned; finished ⇒ active ⇒ prepared; reads fail only for a regressed clock. |
| `ProcessJournal.FinishedMeansAbsent` | bridge/internal/admission/process_store.go:127-154 | When RequireFinished succeeds no process of the recorded tree exists, none can be spawned, and the Run was active and not abandoned. |
| `ProcessJournal.FinishedAbsentForever` | bridge/internal/admission/process_store.go:451-583 | Once the finished record is durable the tree is absent in every continuation and the records stay. |
| `ProcessAbsence.FencedMeansAbsent` | bridge/internal/admission/process_store.go:279-351 | In runs whose lease gives up a prepared-only Run only after its tree exited, a terminal record, which is what a fence answers with success on, means that no process exists and none can be spawned. |
| `ProcessAbsence.GivingUpKeepsTree` | bridge/internal/admission/process_store.go:478-558 | Giving up a prepared-only Run, by Abandon or by Finished, closes the journal and leaves a tree exactly when there was one. |
| `ProcessAbsence.LiveTreeCanBeClosed` | bridge/internal/admission/process_store.go:436-449 | For every identity a run exists that ends with a durable abandoned record and a live tree. |
| `ProcessFencing.CanSucceedIff` | bridge/internal/admission/process_store.go:279-351 | After a restart FenceAndWait can ever succeed for a Run if and only if its records read back, carry this very identity, and are closed, prepared only, or active with the lock file in place. |
| `ProcessFencing.NeverPreparedNeverFenced` | bridge/internal/admission/process_store.go:290-297 | A Run without a prepared record is fenced by no continuation that does not prepare it, restarts and power losses included. |
| `ProcessAnswers.ReadableIff` | bridge/internal/admission/process_store.go:597-647 | Of any records whatever: readable if and only if each belongs to the prepared record and does not predate what it follows, finished has its active record and abandoned stands alone beside prepared. |
| `ProcessAnswers.PrepareAnswer` | bridge/internal/admission/process_store.go:218-277 | Records, lock and lease after Prepare, in every case. |
| `ProcessAnswers.FinishBeginAnswer` | bridge/internal/admission/process_store.go:478-512 | Records, lock and lease after the first half of Finished, in every case. |
| `ProcessAnswers.FinishCommitAnswer` | bridge/internal/admission/process_store.go:513-536 | Records, lock and lease after the second half of Finished, in every case. |
| `ProcessAnswers.AbandonAnswer` | bridge/internal/admission/process_store.go:538-558 | Records, lock and lease after Abandon, in every case. |
| `ProcessAnswers.PreparedFenceAnswer` | bridge/internal/admission/process_store.go:310-351 | What a fence of a prepared-only Run leaves: abandoned if it is still prepared only, nothing otherwise. |
| `ProcessAnswers.ActiveFenceAnswer` | bridge/internal/admission/process_store.go:310-351 | What a fence of an active Run leaves: finished if it is still active with that observation and open, nothing otherwise. |
| `ProcessAnswers.FinishedSucceeds` | bridge/internal/admission/process_store.go:478-536 | For every reachable active Run of a held lease whose tree has exited, an undisturbed Finished ends with the finished record durable, the lock removed and the lease closed. |
| `ProcessStore.GovernedProcessStore.PrepareProcess` | bridge/internal/admission/process_store.go:218-277 | Takes the journal's prepare step; succeeds exactly for a Run without records whose record becomes durable and whose lock is taken; without the lock the Run is abandoned at once. |
| `ProcessStore.GovernedProcessStore.StartLease` | bridge/internal/admission/process_store.go:451-476 | Takes the journal's start step; succeeds exactly when the old records are those of the held lease, readable, without an active or terminal record, and the active record becomes durable. |
| `ProcessStore.GovernedProcessStore.CloseLockFileAfterStart` | bridge/internal/admission/process_store.go:407-419 | Started gives up the lock handle only after the record step. |
| `ProcessStore.GovernedProcessStore.FinishLeaseBegin` | bridge/internal/admission/process_store.go:478-512 | On the old records: succeeds exactly when they are this lease's and closed already, or prepared only with a durable abandoned record and removed lock; fences exactly for an open Run active with this observation; in any other case writes nothing. |
| `ProcessStore.GovernedProcessStore.FinishLeaseCommit` | bridge/internal/admission/process_store.go:513-536 | On the old records: succeeds exactly when they are this lease's and active with this observation, and closed already or closed now by a durable finished record and a removed lock; the finished record is that of these records and this time; success means no process left. |
| `ProcessStore.GovernedProcessStore.AbandonLease` | bridge/internal/admission/process_store.go:538-558 | On the old records: succeeds exactly when they are this lease's without an active record, closed already or closed now by a durable abandoned record, and the lock is removed; otherwise the lease stays. |
| `ProcessStore.GovernedProcessStore.FenceStarts` | bridge/internal/admission/process_store.go:279-334 | On the records: answers at once exactly for the identical closed Run, which with a careful lease means no process is left, waits for the prepared-only or active Run of this identity, and rejects anything else. |
| `ProcessStore.GovernedProcessStore.FenceEnds` | bridge/internal/admission/process_store.go:310-351 | On the old records: succeeds exactly when the Run is unchanged and its abandoned or finished record durable and lock removed, or it is the same active Run finished meanwhile; then, with a careful lease, no process is left. |
| `ProcessStore.GovernedProcessStore.RequireFinishedRun` | bridge/internal/admission/process_store.go:127-154 | Succeeds exactly when the records are of this identity, readable, active and finished, and there is no lock file; then no process exists and none can be spawned. |
| `ProcessStore.GovernedProcessStore.ClosedMeansAbsent` | bridge/internal/admission/process_store.go:279-351 | After any sequence of calls on the object a finished Run has no process, and with a careful lease no closed Run has. |
| `GovernedRecovery.CheckInventory` | bridge/internal/delivery/governed_recovery.go:74-103 | Accepts exactly when Inbox records and admissions are joined one to one with matching states; `JoinedIsConsistent` says that on the records. |
| `GovernedRecovery.FenceThenClose` | bridge/internal/delivery/governed_recovery.go:116-130 | A Run is closed as outcome_unknown, with exactly that stop record, when its fence succeeds, its start is not before its claim and not after now, and the write is durable; otherwise it is not, and after a failed fence nothing changes. |
| `GovernedRecovery.CloseStarting` | bridge/internal/delivery/governed_recovery.go:108-131 | Only Runs whose fence succeeded are logged as fenced, only those get stop records; it succeeds exactly when every starting Run can be closed, and then none is left and exactly those were closed. |
| `GovernedRecovery.Deliver` | bridge/internal/delivery/governed_recovery.go:136-171 | Succeeds exactly when no governed record's delivery fails, and then did what the records and views call for; otherwise it delivers the records before the first failing one and of that one what had begun. |
| `GovernedRecovery.Recover` | bridge/internal/delivery/governed_recovery.go:48-171 | In one log, every delivery comes after each starting Run was fenced and at once closed; fenced means its fence succeeded, and every new stop record belongs to a fenced Run; each of the six verdicts has its exact cause on the records; success leaves none starting, and a delivery is in the log exactly when some record owes it: an unknown terminal for a governed, unresolved record whose Run is stopped, a tombstone for a cancelled one, a replay for an unresolved or terminal one; an unclaimed or merely claimed Run causes nothing. |
| `GovernedRecovery.JoinedIsConsistent` | bridge/internal/delivery/governed_recovery.go:74-103 | On the records: every governed record is valid and asks for what was claimed, a working one is started and a preparing one is not, and every claim has a valid governed record. |
| `GovernedRecovery.DueIff` | bridge/internal/delivery/governed_recovery.go:136-171 | An effect is due if and only if some record owes it. |
| `GovernedRecovery.EmittedThenReplayed` | bridge/internal/delivery/governed_recovery.go:159-167 | Every unknown terminal is followed at once by the replay of its Run. |
| `GovernedRecovery.ClosedRunsAreAbsent` | bridge/internal/delivery/governed_recovery.go:108-131 | When the fences' answers are those of the process journals of the very same Runs, claim and start digests included, every Run that recovery closed had no process left when it was fenced. |
| `GovernedRecovery.ClosingPossibleIff` | bridge/internal/delivery/governed_recovery.go:108-131 | Recovery can get past closing if and only if the process journal of every starting Run is fenceable and the clock is not behind its start. |
| `GovernedRecovery.UnpreparedRunBlocksRecovery` | bridge/internal/admission/process_store.go:290-297 | With a starting Run that was never prepared, closing always fails, whatever else the fences and writes answer. |
| `GovernedRecovery.NoneStartingAfter` | bridge/internal/delivery/governed_recovery.go:108-165 | No view that delivery works with is starting. |
| `GovernedRecovery.ListedViewsValid` | bridge/internal/delivery/governed_recovery.go:195-227 | Every view of an accepted inventory passes recovery's own view validation. |
| `RuntimeRunner.Run` | bridge/internal/admission/runtime_runner.go:80-158 | For every trace: events before the first ending one are emitted as they came, then one stop with the outcome that the ending status names, unknown without one; capture exactly for a clean completed trace and before the stop; the ending event last, after a successful stop; success exactly for a clean end, a successful stop and final emission. Nothing at all without the entry guard, and Stop alone without the prerequisites. |
| `RuntimeRunner.StopOnceTerminalLast` | bridge/internal/admission/runtime_runner.go:80-173 | Stop is called exactly once; capture happens only for a completed outcome and before Stop; the terminal event is emitted at most once, last, and only after Stop succeeded. |
| `RuntimeRunner.EffectsByStatus` | bridge/internal/admission/runtime_runner.go:80-173 | For every trace, per status: which outcome the one stop records, when capture happens, and what is emitted last. |
| `Integration.CasAttemptsAfterIntent` | bridge/internal/admission/integration.go:65-141 | Over all runs with crashes and other writers, every attempted compare-and-swap finds its intent in the journal and a receipt in no content that is readable or can survive; the intent is durable if and only if no link is unsynced. |
| `Integration.CasOnlyAfterIntentAndBeforeReceipt` | bridge/internal/admission/integration.go:65-141 | This operation moves the branch only by such an attempt, and only from the expected commit to a fast-forward candidate. |
| `Integration.CasCanPrecedeDurableIntent` | bridge/internal/admission/integration.go:78-103 | A run exists in which the branch is moved while the intent is not durable. |
| `Integration.SameReceiptRetained` | bridge/internal/admission/integration.go:65-184 | In runs that lose no power while a receipt is unsynced, all receipts ever retained are the one in the journal. |
| `Integration.SameReceiptForeverIff` | bridge/internal/admission/integration.go:65-184 | While all retained receipts agree, every continuation keeps them agreeing if and only if the retained receipt is the durable one. |
| `Integration.TwoReceiptsCanBeRetained` | bridge/internal/admission/integration.go:72-76 | A run exists that retains two different receipts. |
| `Integration.SucceededMeansHeld` | bridge/internal/admission/integration.go:105-184 | A succeeded receipt implies that the target held the candidate. |
| `Integration.FailedReceiptExact` | bridge/internal/admission/integration.go:128-158 | Under a failed or canceled receipt this operation moved the branch if and only if its run had one of two events: another writer overtook an unexamined applied update, or a power loss took the intent of a moved branch. |
| `Integration.FailedReceiptHonest` | bridge/internal/admission/integration.go:128-158 | If nobody moves the branch between an update-ref error and its examination and no power is lost while the intent is unsynced, a failed or canceled receipt means this operation never moved the branch. |
| `Integration.WrongReceiptPossibleIff` | bridge/internal/admission/integration.go:65-126 | After a call that moved the branch and left no receipt, a denying receipt can still come about if and only if the intent is not durable. |
| `Integration.LostIntentDenies` | bridge/internal/admission/integration.go:90-103 | A run exists in which a lost intent leads to a failed receipt for a moved branch. |
| `Integration.FailedReceiptCanBeWrong` | bridge/internal/repository/integration.go:111-132 | A run exists that ends with a target-moved receipt although this operation moved the target. |
| `IntegrationCoordinator.AttemptIsRun` | bridge/internal/admission/integration.go:65-141 | An uninterrupted call is a run of the protocol. |
| `IntegrationCoordinator.AttemptRecords` | bridge/internal/admission/integration.go:65-184 | One uninterrupted call without a receipt to replay records exactly what its answers and the branch call for, without reference to the protocol's steps. |
| `IntegrationCoordinator.AttemptReplays` | bridge/internal/admission/integration.go:65-103 | Any other call replays the receipt, or leaves only the intent that was not made durable. |
| `IntegrationCoordinator.RecoveryRecords` | bridge/internal/admission/integration.go:105-126 | With an intent found: succeeded exactly when the readable branch is at the candidate, or the update was made and seen; unknown exactly without a source, with an unreadable or foreign branch, or when the update's result could not be confirmed. |
| `IntegrationCoordinator.FreshRecords` | bridge/internal/admission/integration.go:65-141 | Without an intent: succeeded exactly when the update was made and seen; unknown exactly when its result could not be confirmed. |
| `IntegrationCoordinator.GovernedIntegrationCoordinator.Execute` | bridge/internal/admission/integration.go:65-103 | A receipt is replayed; an intent that does not become durable ends the call; otherwise one receipt is recorded whose state and code are given for every combination of answers and branch positions, retained exactly when durable and taken by the transport, and the branch moves exactly when update-ref was reached and took effect. |
| `IntegrationCoordinator.GovernedIntegrationCoordinator.RecoverOrExecute` | bridge/internal/admission/integration.go:105-126 | With an intent present, the part of the call that decides by the inspected target; `RecoveryRecords` says what it records. |
| `IntegrationCoordinator.GovernedIntegrationCoordinator.ExecuteCAS` | bridge/internal/admission/integration.go:128-141 | Rechecks the grant, integrates, and retains the classified result. |
| `IntegrationCoordinator.GovernedIntegrationCoordinator.IntegrateExactTarget` | bridge/internal/repository/integration.go:26-133 | Moves the target only from the expected commit to a fast-forward candidate; its result classifies to the protocol's conclusion. |
| `IntegrationCoordinator.GovernedIntegrationCoordinator.RetainTerminal` | bridge/internal/admission/integration.go:160-184 | Writes the receipt first and retains it only if that write was durable. |
| `ConcurrentIntegration.CasUnderIntent` | bridge/internal/admission/integration.go:65-141 | With any number of calls in flight, each attempted compare-and-swap finds the intent in the journal and is alone in Git. |
| `ConcurrentIntegration.SucceededStillMeansHeld` | bridge/internal/admission/integration.go:105-184 | With any number of calls in flight a succeeded receipt implies that the target held the candidate. |
| `ConcurrentIntegration.OneReceiptForAllCalls` | bridge/internal/integration/journal.go:133-148 | All calls together retain one receipt, the one in the journal, in runs that lose no power while a receipt is unsynced. |
| `ConcurrentIntegration.CasCanFollowAReceipt` | bridge/internal/admission/integration.go:72-103 | Two calls exist of which one attempts the update after the other's failed receipt is durable. |
| `ConcurrentIntegration.SecondCallCanDeny` | bridge/internal/admission/integration.go:105-158 | Two calls, without crash or other writer, can end in a durable failed receipt for a moved branch. |
| `ConcurrentIntegration.OneAtATimeIsSequential` | bridge/internal/admission/integration.go:65-184 | When a call starts only while none is in flight, every state is one that the sequential protocol reaches, and no receipt precedes an update. |
| `ConcurrentIntegration.LoneCallIsAttempt` | bridge/internal/admission/integration.go:65-184 | A call that starts with none in flight and is not disturbed does to journal, branch and transport exactly what one uninterrupted Execute does. |
| `Console.AtMostOneWorker` | bridge/internal/console/server.go:1057-1162 | In every interleaving of start, stop, close, configuration restart, in-worker restart, enrollment finish and cancel, at most one worker is live, its channel is the recorded one and the counter is exact. |
| `Console.NoWorkerWhileEnrolling` | bridge/internal/console/enrollment_recovery.go:72-104 | No worker is live while an enrollment is active. |
| `Console.OwnerReleasedOnlyWhenIdle` | bridge/internal/console/server.go:722-750 | The data-directory owner lock is released, by Close or by re-enrollment, only when no worker is live. |
| `Console.StaleCompletionsAreSilent` | bridge/internal/console/server.go:1116-1160 | Any number of worker, observer and enrollment completions with old epochs leave connection, phase, configuration, credential, epochs, enrollment and owner as they were. |
| `ConsoleAnswers.CanRunIff` | bridge/internal/console/server.go:1057-1162 | In every reachable state without a running Bridge, starts, stops, restarts and leaving workers can bring one up if and only if the service is open, not enrolling, without a governed mutation, and has configuration and credential. |
| `ConsoleAnswers.StartAnswer` | bridge/internal/console/server.go:669-693 | In every state: StartBridge launches a worker exactly when nothing forbids it, none runs or winds down and the inspection succeeds. |
| `ConsoleAnswers.ExitAnswer` | bridge/internal/console/server.go:1116-1160 | What the current worker's exit shows and when it starts the next worker; a stale worker only leaves. |
| `ConsoleAnswers.ReplaceAnswer` | bridge/internal/console/server.go:1320-1377 | A replaced configuration halts the Bridge and leaves a restart exactly when one ran or was due. |
| `ConsoleAnswers.RestartAnswer` | bridge/internal/console/server.go:1379-1397 | The restart launches a worker exactly when it is still due for its epoch, nothing forbids it and the inspection succeeds. |
| `ConsoleAnswers.EnrolledAnswer` | bridge/internal/console/server.go:963-1029 | An approved live enrollment installs identity and owner and launches a worker exactly without a governed mutation and with a successful inspection; canceled and failed ones; a stale one changes nothing. |
| `ConsoleService.Service.WorkersBounded` | bridge/internal/console/server.go:1057-1162 | After any sequence of calls on the object the worker counter is at most one, zero during enrollment and one while the Bridge runs. |
| `ConsoleService.Service.StartBridgeTurn` | bridge/internal/console/server.go:669-693 | On the old fields: a worker is launched (counter, epoch, channel, phase Running, connection connecting) exactly when not closed, not enrolling, no governed mutation, none running or winding down, configuration and credential present and the inspection succeeds; otherwise no worker is added and the view stays. It asks to wait exactly for a worker that still winds down. |
| `ConsoleService.Service.StartBridgeLocked` | bridge/internal/console/server.go:1057-1101 | As part of any section, on the old fields: launches exactly when allowed, none runs, identity present and inspection ok; succeeds exactly when it launches or one runs already while starting is allowed; otherwise changes nothing. |
| `ConsoleService.Service.StopBridge` | bridge/internal/console/server.go:697-720 | Takes the stop section; during enrollment it names no channel. |
| `ConsoleService.Service.Close` | bridge/internal/console/server.go:722-738 | Takes the close section; what it must wait for and release afterwards are the old channel and owner. |
| `ConsoleService.Service.ReleaseOwnerAfterWait` | bridge/internal/console/server.go:732-738 | After the wait, Close releases the owner lock with no worker live. |
| `ConsoleService.Service.WorkerLeaves` | bridge/internal/console/server.go:1116-1160 | Takes the exit section for the worker's own channel and epoch. |
| `ConsoleService.Service.ReapWorker` | bridge/internal/console/server.go:740-750 | Forgets exactly the awaited channel. |
| `ConsoleService.Service.ReplaceConfigurationLocked` | bridge/internal/console/server.go:1320-1377 | Takes the replacement section; the restart left behind is exactly the one returned. |
| `ConsoleService.Service.RestartBridgeAfterWorker` | bridge/internal/console/server.go:1379-1397 | Takes the restart section once the awaited channel is closed. |
| `ConsoleService.Service.BeginEnroll` | bridge/internal/console/enrollment_recovery.go:72-104 | Begins exactly when nothing blocks, with a new epoch and no worker. |
| `ConsoleService.Service.FinishEnroll` | bridge/internal/console/server.go:963-1029 | Takes the completion section; the owner changes only when no worker is live. |
| `ConsoleService.Service.CancelEnroll` | bridge/internal/console/server.go:1031-1046 | Takes the cancellation section. |
| `ConsoleService.Service.OnConnection` | bridge/internal/console/server.go:1796-1818 | Takes the observation section: only the current epoch is heard. |
| `ExecutionGate.ExactlyOneToken` | bridge/internal/delivery/agent_execution_gate.go:27-93 | For every Agent the gate is active exactly when exactly one token is outstanding, also when cancellation races a grant. |
| `ExecutionGate.InvocationsNeverOverlap` | bridge/internal/delivery/agent_execution_gate.go:27-93 | Two callers never hold the same Agent. |
| `ExecutionGate.NoOvertaking` | bridge/internal/delivery/agent_execution_gate.go:27-93 | Whoever arrived before a granted caller was granted earlier or left the queue cancelled. |
| `ExecutionGate.WaiterIsQueued` | bridge/internal/delivery/agent_execution_gate.go:27-93 | A waiter without a grant is in the queue, and someone then owes it the token. |
| `ExecutionGate.WaiterIsServed` | bridge/internal/delivery/agent_execution_gate.go:27-93 | Whoever waits k-th, nobody cancelled, holds the Agent after the k before took their grants and released; the grants in between are theirs, in order of arrival. |
| `ExecutionGate.WaiterAnswer` | bridge/internal/delivery/agent_execution_gate.go:37-75 | A granted waiter holds unless its context ended and then owes the release; a waiter that sees its cancellation leaves the queue while it is there and owes the release once granted. |
| `ExecutionGate.ReleaseAnswer` | bridge/internal/delivery/agent_execution_gate.go:76-93 | Release grants the longest waiting ticket, and makes the lane idle exactly when nobody waits. |
| `ExecutionGate.AgentExecutionGate.Enter` | bridge/internal/delivery/agent_execution_gate.go:27-36 | Is the lane's arrival: immediate exactly when inactive, otherwise last in the queue. |
| `ExecutionGate.AgentExecutionGate.Cancel` | bridge/internal/delivery/agent_execution_gate.go:45-65 | The search loop removes exactly the own waiter if it is still queued. |
| `ExecutionGate.AgentExecutionGate.PassOn` | bridge/internal/delivery/agent_execution_gate.go:76-93 | Hands the token to the head of the queue or gives it up. |
| `RunLocks.OneLockObject` | bridge/internal/artifact/materializer.go:341-360 | All threads contending for one Run share the one lock object in the map. |
| `RunLocks.OneThreadInside` | bridge/internal/artifact/materializer.go:341-360 | At most one of them is inside. |
| `RunLocks.EntryExactlyWhileReferenced` | bridge/internal/artifact/materializer.go:341-360 | The map entry exists exactly while threads refer to it, and its count is their number. |
| `RunLocks.MutexAnswer` | bridge/internal/artifact/materializer.go:341-360 | A registered thread gets in exactly when nobody is inside; leaving frees the lock; the last to deregister removes the entry. |
| `RunLocks.PassThrough` | bridge/internal/artifact/materializer.go:341-360 | A thread that finds nobody inside gets in, and after its whole pass threads, entry and lock object are what they were. |
| `RunLocks.Materializer.RegisterThread` | bridge/internal/artifact/materializer.go:341-349 | Returns the Run's lock object with one more reference, a new one only if there was none. |
| `RunLocks.Materializer.DeregisterThread` | bridge/internal/artifact/materializer.go:351-359 | Gives one reference back and drops the entry with the last. |
| `Activation.TakenThenPending` | bridge/cmd/convenewire-bridge-desktop/activation.go:86-152 | In every run, until close, the accepted non-coalesced links are those that drains took followed by the pending one, in order; what was taken is delivered or in flight, nothing lost or repeated. |
| `Activation.DeliveredThenPending` | bridge/cmd/convenewire-bridge-desktop/activation.go:86-152 | With drains one at a time, until close, the accepted non-coalesced links are those delivered, then at most one on its way to delivery, then the pending one, in order. |
| `Activation.DrainsCanOvertake` | bridge/cmd/convenewire-bridge-desktop/activation.go:139-152 | Two drains in flight can deliver in the other order. |
| `Activation.ExactlyOneDrain` | bridge/cmd/convenewire-bridge-desktop/activation.go:114-152 | A pending intent with a ready dispatcher has exactly one drain owed, also when delivery re-enters accept; never two. |
| `Activation.OfferedIsTakenNext` | bridge/cmd/convenewire-bridge-desktop/activation.go:86-152 | In every ready, open state a link that is the first or the one waiting is exactly what the next drain takes, whatever is offered in between. |
| `Activation.ClosedIsFinal` | bridge/cmd/convenewire-bridge-desktop/activation.go:154-159 | After close nothing is accepted and no later drain takes anything; only what was in flight then can still be delivered. |
| `Activation.DesktopActivation.AcceptLink` | bridge/cmd/convenewire-bridge-desktop/activation.go:86-112 | Accepts exactly while open a wake, a first link or the link already waiting, and then keeps that link pending; dispatches exactly when a drain becomes owed. |
| `Activation.DesktopActivation.DrainOnce` | bridge/cmd/convenewire-bridge-desktop/activation.go:139-152 | Delivers exactly the pending intent's link while open, clears it, and puts exactly that in flight. |
| `RunReplay.SortStable` | apps/web/src/room-sync.ts:125-127 | Sorting a batch orders it and keeps, for every number, which record comes first. |
| `RunReplay.Reduce` | apps/web/src/room-sync.ts:118-145 | The loop with its skip and stop branches computes exactly the gap-free advance, for every batch. |
| `RunReplay.AdvanceFaithful` | apps/web/src/room-sync.ts:118-145 | One batch of a log leaves the in-order replay of a prefix and moves the cursor exactly over the numbers present without a gap. |
| `RunReplay.BatchesFaithful` | apps/web/src/room-sync.ts:118-145 | Any batches of one log, reordered, duplicated, overlapping or gapped, yield the in-order replay of the prefix the cursor names, and the cursor never goes back. |
| `RunReplay.CompleteBatchCatchesUp` | apps/web/src/room-sync.ts:118-145 | A batch with everything after the cursor yields the replay of the whole log. |
| `RunProjections.OutputFromBatches` | apps/web/src/room-sync.ts:118-145 | The output after any batches is the text of the prefix since its last reset, unless the prefix holds a reply or a completed, failed, canceled, expired or outcome_unknown status: then it is empty and sealed. |
| `RunProjections.TextSinceReset` | apps/web/src/room-sync.ts:129-136 | The text of a log is that of its last reset followed by everything put out after it. |
| `RunProjections.SealIsFinal` | apps/web/src/room-sync.ts:118-145 | A sealed projection stays sealed and empty whatever arrives. |
| `RunProjections.ActivitiesFromBatches` | apps/web/src/room-sync.ts:65-108 | After any batches: unique ids in order of first appearance, each with its latest kind, phase and label and its content since the last reset; sealed exactly by a reply or one of the five terminal statuses. |
| `RunProjections.ItemIsWindowIff` | apps/web/src/room-sync.ts:65-108 | After any batches an item of the reducer is the last 20,000 characters of its full content if and only if that fits or its last content was appended. |
| `RunProjections.ItemsAreWindows` | apps/web/src/room-sync.ts:65-108 | When the resets of the log fit the bound, every item after any batches is the last 20,000 characters of everything since its last reset. |
| `RunProjections.IdsDistinct` | apps/web/src/room-sync.ts:80-99 | The ids are distinct and are exactly those of the log's activity events. |
| `RoomMessages.MergeRoomMessages` | apps/web/src/room-sync.ts:147-159 | The filled map, sorted and cut, is the merge of the two lists. |
| `RoomMessages.MergeIsUpsert` | apps/web/src/room-sync.ts:147-159 | On coherent messages the code's merge equals a sorted list updated message by message, cut. |
| `RoomMessages.BoundedMergeRefines` | apps/web/src/room-sync.ts:147-159 | merge(merge(a,b,N),c,N) = merge(a,b++c,N) for every N. |
| `RoomMessages.MergeMeaning` | apps/web/src/room-sync.ts:147-159 | The result is strictly sorted, holds exactly the last version of each id, and a limit keeps the greatest sequences. |
| `MentionScan.FindMentionToken` | apps/web/src/structured-mentions.ts:25-39 | The loop computes the scan. |
| `MentionScan.Scan` | apps/web/src/structured-mentions.ts:25-39 | What is found is a boundary-delimited occurrence at or after the start. |
| `MentionScan.ScanComplete` | apps/web/src/structured-mentions.ts:25-39 | For scannable names no mention at or after the start is passed over. |
| `MentionScan.ScannerExactIff` | apps/web/src/structured-mentions.ts:25-39 | The scanner finds the first mention in every message if and only if the token has no self-overlap behind a boundary character. |
| `MentionScan.PlainNamesScannable` | apps/web/src/structured-mentions.ts:25-39 | Every name without `@` is such a name. |
| `MentionScan.SomeNamesMissed` | apps/web/src/structured-mentions.ts:25-39 | A concrete name with `@` is not. |
| `Mentions.FoundExact` | apps/web/src/structured-mentions.ts:45-54 | For scannable names the finds are exactly the mentions. |
| `Mentions.CollectAll` | apps/web/src/structured-mentions.ts:45-54 | The nested loops collect every find of every name, once per name. |
| `Mentions.LongestLengths` | apps/web/src/structured-mentions.ts:55-61 | The map holds the greatest name length at each place that has a find, and no other place. |
| `Mentions.GroupByName` | apps/web/src/structured-mentions.ts:62-68 | Each name has exactly the places where its length is the greatest, in order. |
| `Mentions.LongestMentionIndexes` | apps/web/src/structured-mentions.ts:41-73 | Each name's list is exactly its kept finds, ascending, each once for distinct names; a name without an entry has none. |
| `Mentions.KeptExact` | apps/web/src/structured-mentions.ts:41-73 | For names without `@`, kept means mentioned there with no longer known name mentioned there. |
| `Mentions.LongestUnique` | apps/web/src/structured-mentions.ts:55-68 | One place keeps at most one name. |
| `Mentions.KeptDisjoint` | apps/web/src/structured-mentions.ts:41-73 | Kept mentions of names without `@` never overlap. |
| `MentionCommands.ResolveExactMentionCommands` | apps/web/src/structured-mentions.ts:75-119 | `@all` is used exactly when mentioned and selects every agent once; otherwise the agents and the ambiguous names are exactly those whose first kept mention says so, in message order. For names without `@` the selected ids and the ambiguous names are, in every message, exactly those of the next two rows. |
| `MentionCommands.SelectedIff` | apps/web/src/structured-mentions.ts:75-119 | For names without `@`, in every message: under `@all` exactly the eligible agents are selected, and otherwise an agent if and only if no other known agent has its name, it is eligible, and the name is mentioned where no longer known name is. |
| `MentionCommands.AmbiguousIff` | apps/web/src/structured-mentions.ts:75-119 | For names without `@`, in every message: a name is ambiguous if and only if there is no `@all`, at least two known agents carry it, one of them is eligible, and it is mentioned where no longer known name is. |
| `MentionCommands.PrefixOnlySelectedIff` | apps/web/src/structured-mentions.ts:75-119 | An agent whose name only ever starts a longer known mention is selected if and only if the message has a bounded `@all` and the agent is eligible. |
| `MentionCommands.AllBeforeLongest` | apps/web/src/structured-mentions.ts:80-86 | For "@all hands" and agents called "all" and "all hands" the first is selected although its only mention starts the second's. |
| `MentionCommands.RetainVisibleMentionIds` | apps/web/src/structured-mentions.ts:121-142 | The filter keeps an id exactly when fewer agents of its name precede it than mentions of the name are kept. |
| `MentionCommands.FilterByCounts` | apps/web/src/structured-mentions.ts:132-141 | The countdown per name has that effect for any counts. |
| `MentionCommands.RetainedPerName` | apps/web/src/structured-mentions.ts:132-141 | Of each name exactly the first min(k, visible) ids stay, in order. |
| `MentionCommands.RetainedInOrder` | apps/web/src/structured-mentions.ts:132-141 | What stays keeps its order, and exactly those places stay that fewer of the same name precede than mentions are shown. |
| `MentionCommands.RetainedKnown` | apps/web/src/structured-mentions.ts:132-141 | Only known, selected ids stay. |

## Left out

- The string formats of identifiers, digests and file names, JSON canonicalisation, record size limits and the format half of spec validation; the time-window half is modelled.
- Pinned directories, permissions, symlink checks and the `check()` calls that verify them; closing and reopening the store is modelled.
- The sort order of the list that `list` returns (the model returns a map), and error values finer than the classes in `RuntimeFence.Error`.
- Read failures of individual files, except the final read of Start and the reads of coordinator Start's observation.
- `NewRuntimeAdmissionSpec`, `Prepare`, `recheckLocal` and `exactManifestPatches`: field-by-field comparisons that would only add easy members.
- FenceStore.RuntimeFenceStore.WithStoppedRun: models the authorization, not the callback that runs under it.
- The process store's limit of 256 Runs and its inventory over other Runs: one Run's files are modelled, because the files of different Runs have different names. FenceAll is therefore a sequence of fences.
- ProcessStore.GovernedProcessStore.FenceStarts: models one Run's lease and files; the map of leases of other Runs and Close's loop over it are not captured beyond the restart step.
- RequireFinished as a liveness claim: a crash between the finished record and the lock removal leaves it refusing, and only the safe direction is proved.
- The branch of Execute in which the journaled intent differs from the admission the transport returns: one operation's admission is immutable here.
- Integration.SameReceiptRetained: failures of the transport when an existing receipt is replayed are modelled only with several calls in flight, where they are a parameter.
- The durability of Git refs under power loss.
- Console views (Agents, runtime tests, join codes, diagnostics), provisioning, `pairingCandidate`, `verifyPairingUnchangedLocked` and the staging files of a re-enrollment: only whether it succeeds matters to the lifecycle.
- ConsoleService.Service.FinishEnroll: the outcome of saving configuration and credential is a parameter.
- Goroutines and channels of the Console, the gate, the Run locks and the activation are steps of the transition systems; the classes capture the critical sections, not the blocking.
- The Inbox, the Sender and the adapter are effect logs; the texts of the messages are not modelled.
- The materializer's download offset loop, receipts and crash recovery.
- Command-line parsing and encryption of activation links; the bound and validity of a link are the caller's.
- `teamChangeRefreshScope`, `createSingleFlight` and `removeVisibleMentionToken`: easy next to their neighbours.
- Strings are sequences of code points, not of UTF-16 units; offsets are therefore in code points. All boundary characters lie in the basic plane, so boundaries agree.
