/**
 The sole consumer of an invoke=true decision. The adapter is an arbitrary trace
 of events, each with the result its emission would have; the runner's effects
 are recorded in order.
 */
module RuntimeRunner {
  import opened Options
  import RuntimeFence

  datatype Status =
    | StatusCompleted | StatusFailed | StatusCanceled | StatusInputRequired | StatusUnknown | Progress(code: nat)

  datatype Event = Event(status: Option<Status>, body: nat, captureUnknown: bool)

  /** One adapter event and whether emitting it succeeds. */
  datatype Attempt = Attempt(event: Event, emits: bool)

  datatype Effect =
    | Emitted(event: Event)
    | Captured(ok: bool)
    | Verified
    | StoppedRun(outcome: RuntimeFence.Outcome, ok: bool)

  function OutcomeFor(status: Status): (o: Option<RuntimeFence.Outcome>)
  {
    match status
    case StatusCompleted => Some(RuntimeFence.Completed)
    case StatusFailed => Some(RuntimeFence.Failed)
    case StatusCanceled => Some(RuntimeFence.Canceled)
    case StatusInputRequired => Some(RuntimeFence.InputRequired)
    case StatusUnknown => Some(RuntimeFence.OutcomeUnknown)
    case Progress(_) => None
  }

  predicate Terminal(e: Event)
  {
    e.status.Some? && OutcomeFor(e.status.value).Some?
  }

  /** The index of the first terminal event, or the length of the trace. */
  function FirstTerminal(trace: seq<Attempt>): (n: nat)
    ensures n <= |trace|
    ensures n < |trace| ==> Terminal(trace[n].event)
    ensures forall i :: 0 <= i < n ==> !Terminal(trace[i].event)
  {
    if trace == [] || Terminal(trace[0].event) then 0 else 1 + FirstTerminal(trace[1..])
  }

  /** The adapter's result is accepted: one terminal event, the last one, and every emission succeeded. */
  predicate Clean(trace: seq<Attempt>)
  {
    FirstTerminal(trace) + 1 == |trace| && forall i :: 0 <= i < |trace| - 1 ==> trace[i].emits
  }

  function OutcomeOf(trace: seq<Attempt>): (o: RuntimeFence.Outcome)
  {
    var n := FirstTerminal(trace);
    if n < |trace| then OutcomeFor(trace[n].event.status.value).value else RuntimeFence.OutcomeUnknown
  }

  function Streamed(trace: seq<Attempt>): (log: seq<Effect>)
    ensures |log| == |trace| && forall i :: 0 <= i < |log| ==> log[i] == Emitted(trace[i].event)
  {
    seq(|trace|, i requires 0 <= i < |trace| => Emitted(trace[i].event))
  }

  function FinalEvent(e: Event, captured: bool): (f: Event)
  {
    if captured then e else e.(status := Some(StatusUnknown), captureUnknown := true)
  }

  predicate UniqueTerminal(trace: seq<Attempt>, n: nat)
  {
    n <= |trace| && (n < |trace| ==> Terminal(trace[n].event)) && forall i :: 0 <= i < n ==> !Terminal(trace[i].event)
  }

  lemma FirstTerminalUnique(trace: seq<Attempt>, n: nat)
    requires UniqueTerminal(trace, n)
    ensures n == FirstTerminal(trace)
  {
  }

  /** The effects of an invocation whose prerequisites hold: the stream up to the first terminal event,
      a capture if the clean outcome is completed, one stop, and the terminal event after a clean stop. */
  function Effects(trace: seq<Attempt>, adapterErr: bool, captures: bool, verifies: bool,
      stops: bool): (log: seq<Effect>)
  {
    var n := FirstTerminal(trace);
    var clean := Clean(trace) && !adapterErr;
    var capturing := clean && OutcomeOf(trace) == RuntimeFence.Completed;
    Streamed(trace[..n])
    + (if capturing then [Captured(captures)] + (if captures && verifies then [Verified] else []) else [])
    + [StoppedRun(OutcomeOf(trace), stops)]
    + (if clean && stops then [Emitted(FinalEvent(trace[n].event, !capturing || captures))] else [])
  }

  // ---------- what the effects are, by the statuses in the trace ----------

  /** A status that ends a Run; everything else is progress. */
  ghost predicate Ends(e: Event)
  {
    e.status.Some? && !e.status.value.Progress?
  }

  /** `n` is the first ending event, or the length of a trace without one. */
  ghost predicate FirstEnd(trace: seq<Attempt>, n: nat)
  {
    n <= |trace| && (n < |trace| ==> Ends(trace[n].event)) && forall i :: 0 <= i < n ==> !Ends(trace[i].event)
  }

  /** What is recorded for a trace that ends with `e`. */
  ghost predicate RecordedFor(e: Event, outcome: RuntimeFence.Outcome)
  {
    && (e.status == Some(StatusCompleted) <==> outcome == RuntimeFence.Completed)
    && (e.status == Some(StatusFailed) <==> outcome == RuntimeFence.Failed)
    && (e.status == Some(StatusCanceled) <==> outcome == RuntimeFence.Canceled)
    && (e.status == Some(StatusInputRequired) <==> outcome == RuntimeFence.InputRequired)
    && (e.status == Some(StatusUnknown) <==> outcome == RuntimeFence.OutcomeUnknown)
  }

  /** The adapter did its part: exactly one ending event, the last one, everything before it emitted, no error. */
  ghost predicate EndsCleanly(trace: seq<Attempt>, n: nat, adapterErr: bool)
  {
    n + 1 == |trace| && !adapterErr && forall i :: 0 <= i < n ==> trace[i].emits
  }

  /** Everything before the ending event is emitted as it came; then a capture, exactly for a clean completed Run,
      with its verification; then one stop with the recorded outcome; then, after a clean end and a successful stop,
      the ending event itself, or an unknown one in its place if the capture failed. */
  ghost predicate EffectsAre(log: seq<Effect>, trace: seq<Attempt>, n: nat, adapterErr: bool, captures: bool,
      verifies: bool, stops: bool, outcome: RuntimeFence.Outcome)
  {
    var clean := EndsCleanly(trace, n, adapterErr);
    var capturing := clean && trace[n].event.status == Some(StatusCompleted);
    && n <= |trace| && n <= |log|
    && (if n < |trace| then RecordedFor(trace[n].event, outcome) else outcome == RuntimeFence.OutcomeUnknown)
    && (forall i :: 0 <= i < n ==> log[i] == Emitted(trace[i].event))
    && log[n..] == CaptureEffects(capturing, captures, verifies) + [StoppedRun(outcome, stops)]
                   + if clean && stops then [Emitted(EndShown(trace[n].event, capturing && !captures))] else []
  }

  ghost function CaptureEffects(capturing: bool, captures: bool, verifies: bool): (log: seq<Effect>)
  {
    if !capturing then [] else if captures && verifies then [Captured(true), Verified] else [Captured(captures)]
  }

  ghost function EndShown(e: Event, captureFailed: bool): (shown: Event)
  {
    if captureFailed then Event(Some(StatusUnknown), e.body, true) else e
  }

  lemma TerminalIsEnd(e: Event)
    ensures Terminal(e) <==> Ends(e)
    ensures Terminal(e) ==> RecordedFor(e, OutcomeFor(e.status.value).value)
  {
  }

  lemma EffectsByStatus(trace: seq<Attempt>, adapterErr: bool, captures: bool, verifies: bool, stops: bool)
    ensures FirstEnd(trace, FirstTerminal(trace))
    ensures EffectsAre(Effects(trace, adapterErr, captures, verifies, stops), trace, FirstTerminal(trace), adapterErr,
                       captures, verifies, stops, OutcomeOf(trace))
  {
    var n := FirstTerminal(trace);
    forall i | 0 <= i < |trace| ensures Terminal(trace[i].event) <==> Ends(trace[i].event) {
      TerminalIsEnd(trace[i].event);
    }
    CleanByStatus(trace, adapterErr);
    CapturingByStatus(trace);
    var clean := Clean(trace) && !adapterErr;
    var capturing := clean && OutcomeOf(trace) == RuntimeFence.Completed;
    var tail := Ending(trace, clean, capturing, captures, verifies, stops);
    hide OutcomeOf, Terminal, Ends, RecordedFor, Clean, EndsCleanly, Effects, CaptureEffects, EndShown;
    EffectsSplit(trace, adapterErr, captures, verifies, stops);
    var stream := Streamed(trace[..n]);
    assert (stream + tail)[n..] == tail;
  }

  ghost function Ending(trace: seq<Attempt>, clean: bool, capturing: bool, captures: bool, verifies: bool, stops: bool)
    : (log: seq<Effect>)
    requires clean ==> FirstTerminal(trace) < |trace|
  {
    CaptureEffects(capturing, captures, verifies) + [StoppedRun(OutcomeOf(trace), stops)]
    + if clean && stops then [Emitted(EndShown(trace[FirstTerminal(trace)].event, capturing && !captures))] else []
  }

  lemma EffectsSplit(trace: seq<Attempt>, adapterErr: bool, captures: bool, verifies: bool, stops: bool)
    ensures var clean := Clean(trace) && !adapterErr;
      var capturing := clean && OutcomeOf(trace) == RuntimeFence.Completed;
      Effects(trace, adapterErr, captures, verifies, stops) ==
      Streamed(trace[..FirstTerminal(trace)]) + Ending(trace, clean, capturing, captures, verifies, stops)
  {
    hide OutcomeOf, Terminal, Streamed;
  }

  lemma CapturingByStatus(trace: seq<Attempt>)
    ensures var n := FirstTerminal(trace);
      if n < |trace| then
        && RecordedFor(trace[n].event, OutcomeOf(trace))
        && (OutcomeOf(trace) == RuntimeFence.Completed <==> trace[n].event.status == Some(StatusCompleted))
      else OutcomeOf(trace) == RuntimeFence.OutcomeUnknown
  {
  }

  method Run(guard: bool, prerequisites: bool, trace: seq<Attempt>, adapterErr: bool,
             captures: bool, verifies: bool, stops: bool, emitsFinal: bool)
    returns (log: seq<Effect>, ok: bool)
    ensures !guard ==> log == [] && !ok
    ensures guard && !prerequisites ==> log == [StoppedRun(RuntimeFence.OutcomeUnknown, stops)] && !ok
    ensures guard && prerequisites ==> log == Effects(trace, adapterErr, captures, verifies, stops)
    ensures guard && prerequisites ==> exists n, outcome ::
      && FirstEnd(trace, n) && EffectsAre(log, trace, n, adapterErr, captures, verifies, stops, outcome)
      && (ok <==> EndsCleanly(trace, n, adapterErr) && stops && emitsFinal)
  {
    EffectsByStatus(trace, adapterErr, captures, verifies, stops);
    CleanByStatus(trace, adapterErr);
    log, ok := RunOnce(guard, prerequisites, trace, adapterErr, captures, verifies, stops, emitsFinal);
  }

  lemma CleanByStatus(trace: seq<Attempt>, adapterErr: bool)
    ensures Clean(trace) && !adapterErr <==> EndsCleanly(trace, FirstTerminal(trace), adapterErr)
  {
  }

  method RunOnce(guard: bool, prerequisites: bool, trace: seq<Attempt>, adapterErr: bool,
                 captures: bool, verifies: bool, stops: bool, emitsFinal: bool)
    returns (log: seq<Effect>, ok: bool)
    ensures !guard ==> log == [] && !ok
    ensures guard && !prerequisites ==> log == [StoppedRun(RuntimeFence.OutcomeUnknown, stops)] && !ok
    ensures guard && prerequisites ==> log == Effects(trace, adapterErr, captures, verifies, stops)
    ensures guard && prerequisites ==> (ok <==> Clean(trace) && !adapterErr && stops && emitsFinal)
  {
    log, ok := [], false;
    if !guard { return; }
    if !prerequisites {
      log := [StoppedRun(RuntimeFence.OutcomeUnknown, stops)];
      return;
    }
    var outcome, terminal := RuntimeFence.OutcomeUnknown, false;
    var terminalEvent: Option<Event> := None;
    var emittedErr := false;
    ghost var n := 0;
    for i := 0 to |trace|
      invariant n <= i && log == Streamed(trace[..n])
      invariant forall k :: 0 <= k < n ==> !Terminal(trace[k].event)
      invariant !terminal ==> n == i && terminalEvent.None? && outcome == RuntimeFence.OutcomeUnknown
      invariant terminal ==> n < i && Terminal(trace[n].event) && terminalEvent == Some(trace[n].event)
                             && outcome == OutcomeFor(trace[n].event.status.value).value
      invariant emittedErr <==> (exists k :: 0 <= k < n && !trace[k].emits) || (terminal && n + 1 < i)
    {
      var event := trace[i].event;
      if terminal {
        emittedErr := true;
      } else if event.status.Some? && OutcomeFor(event.status.value).Some? {
        outcome, terminal := OutcomeFor(event.status.value).value, true;
        terminalEvent := Some(event);
      } else {
        assert trace[..n + 1] == trace[..n] + [trace[n]];
        log := log + [Emitted(event)];
        n := n + 1;
        if !trace[i].emits {
          emittedErr := true;
        }
      }
    }
    FirstTerminalUnique(trace, n);
    var executeErr := adapterErr || emittedErr || !terminal;
    assert !executeErr <==> Clean(trace) && !adapterErr;
    var captured := true;
    if terminal && !executeErr && outcome == RuntimeFence.Completed {
      captured := captures;
      log := log + [Captured(captures)];
      if captures && verifies {
        log := log + [Verified];
      }
    }
    log := log + [StoppedRun(outcome, stops)];
    if executeErr || !stops || !terminal { return; }
    log := log + [Emitted(FinalEvent(terminalEvent.value, captured))];
    ok := emitsFinal;
  }

  /** `k` is the only stop; a terminal event comes only right after it, last, and only if it succeeded;
      captures come before it and only for a completed outcome. */
  predicate OneStop(log: seq<Effect>, k: nat, outcome: RuntimeFence.Outcome, stops: bool)
  {
    && k < |log| && log[k] == StoppedRun(outcome, stops)
    && (forall i :: 0 <= i < |log| && log[i].StoppedRun? ==> i == k)
    && (forall i :: 0 <= i < |log| && log[i].Emitted? && Terminal(log[i].event) ==>
        i == k + 1 && i == |log| - 1 && stops)
    && (forall i :: 0 <= i < |log| && log[i].Captured? ==> i < k && outcome == RuntimeFence.Completed)
  }

  lemma ShapeHasOneStop(stream: seq<Effect>, capture: seq<Effect>, outcome: RuntimeFence.Outcome, stops: bool,
      last: seq<Effect>)
    requires forall e :: e in stream ==> e.Emitted? && !Terminal(e.event)
    requires forall e :: e in capture ==> e.Verified? || (e.Captured? && outcome == RuntimeFence.Completed)
    requires last == [] || (stops && |last| == 1 && last[0].Emitted?)
    ensures OneStop(stream + capture + [StoppedRun(outcome, stops)] + last, |stream| + |capture|, outcome, stops)
  {
    var log := stream + capture + [StoppedRun(outcome, stops)] + last;
    var k := |stream| + |capture|;
    forall i | 0 <= i < k ensures log[i] in stream || log[i] in capture {
      assert log[i] == if i < |stream| then stream[i] else capture[i - |stream|];
    }
    assert forall i :: k < i < |log| ==> i == k + 1 && log[i] == last[0];
  }

  /** Whatever the adapter does, Stop is called exactly once; a terminal event is emitted only as the
      last effect, only after Stop succeeded; capture happens before Stop and only for a completed outcome. */
  lemma StopOnceTerminalLast(trace: seq<Attempt>, adapterErr: bool, captures: bool, verifies: bool, stops: bool)
    ensures exists k :: OneStop(Effects(trace, adapterErr, captures, verifies, stops), k, OutcomeOf(trace), stops)
  {
    var n := FirstTerminal(trace);
    var clean := Clean(trace) && !adapterErr;
    var capturing := clean && OutcomeOf(trace) == RuntimeFence.Completed;
    var stream := Streamed(trace[..n]);
    var capture := if capturing then [Captured(captures)] + (if captures && verifies then [Verified] else []) else [];
    var last := if clean && stops then [Emitted(FinalEvent(trace[n].event, !capturing || captures))] else [];
    ShapeHasOneStop(stream, capture, OutcomeOf(trace), stops, last);
    hide OneStop;
    assert Effects(trace, adapterErr, captures, verifies, stops) ==
        stream + capture + [StoppedRun(OutcomeOf(trace), stops)] + last;
  }
}
