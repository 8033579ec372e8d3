/**
 The two projections of a Run's event log that the room view keeps: the streamed
 output and the activity list.
 */
module RunProjections {
  import opened Options
  import opened RunReplay

  datatype Kind = Reasoning | Tool
  datatype ActivityPhase = Begun | Updated | Ended | Broken

  datatype Event =
    | StatusEvent(status: string)
    | ActivityEvent(id: nat, kind: Kind, phase: ActivityPhase, labelText: Option<string>, content: Option<string>,
        reset: bool)
    | OutputEvent(text: string, reset: bool)
    | ReplyEvent

  const TERMINAL_RUN_STATUSES: set<string> := {"completed", "failed", "canceled", "expired", "outcome_unknown"}

  /** A reply, or one of the terminal statuses. */
  predicate Seals(e: Event)
  {
    e.ReplyEvent? || (e.StatusEvent? && e.status in TERMINAL_RUN_STATUSES)
  }

  // ---------- streamed output ----------

  datatype Output = Output(content: string, sealed: bool)

  const NO_OUTPUT := Output("", false)

  function ApplyOutput(p: Output, n: nat, e: Event): (q: Output)
  {
    if p.sealed then p
    else if e.OutputEvent? then p.(content := if e.reset then e.text else p.content + e.text)
    else if Seals(e) then Output("", true)
    else p
  }

  /** The output text of a log: everything since the last reset. */
  function TextOf(log: seq<Event>): (s: string)
  {
    if log == [] then ""
    else
      var e := log[|log| - 1];
      var before := TextOf(log[..|log| - 1]);
      if e.OutputEvent? then (if e.reset then e.text else before + e.text) else before
  }

  predicate SealedBy(log: seq<Event>)
  {
    exists i :: 0 <= i < |log| && Seals(log[i])
  }

  /** The in-order replay is sealed exactly when the log has a sealing event; then it is empty,
      and otherwise it is the text since the last reset. */
  lemma {:induction false} OutputMeaning(log: seq<Event>)
    ensures Fold(NO_OUTPUT, log, ApplyOutput) == if SealedBy(log) then Output("", true) else Output(TextOf(log), false)
  {
    if log != [] {
      var before := log[..|log| - 1];
      OutputMeaning(before);
      assert forall i :: 0 <= i < |before| ==> log[i] == before[i];
      assert SealedBy(log) <==> SealedBy(before) || Seals(log[|log| - 1]);
    }
  }

  /** The log holds a reply or says that the Run completed, failed, was canceled, expired or ended unknown. */
  ghost predicate Concluded(log: seq<Event>)
  {
    || ReplyEvent in log
    || StatusEvent("completed") in log || StatusEvent("failed") in log || StatusEvent("canceled") in log
    || StatusEvent("expired") in log || StatusEvent("outcome_unknown") in log
  }

  lemma SealedIffConcluded(log: seq<Event>)
    ensures SealedBy(log) <==> Concluded(log)
  {
    if SealedBy(log) {
      var i :| 0 <= i < |log| && Seals(log[i]);
      assert log[i] in log;
    }
    if e :| e in log && Seals(e) {
      var i :| 0 <= i < |log| && log[i] == e;
      assert Seals(log[i]);
    }
    assert Seals(ReplyEvent) && forall status :: status in TERMINAL_RUN_STATUSES ==> Seals(StatusEvent(status));
  }

  /** The text of a log is what was put out from its last reset on. */
  lemma {:induction false} TextSinceReset(log: seq<Event>, k: nat)
    requires k < |log| && log[k].OutputEvent? && log[k].reset
    requires forall i :: k < i < |log| && log[i].OutputEvent? ==> !log[i].reset
    ensures TextOf(log) == log[k].text + TextOf(log[k + 1..])
    decreases |log|
  {
    var before, after := log[..|log| - 1], log[k + 1..];
    if k == |log| - 1 {
      assert TextOf(after) == "";
    } else {
      TextSinceReset(before, k);
      assert before[k + 1..] == after[..|after| - 1];
      if log[|log| - 1].OutputEvent? {
        var x, y, z := log[k].text, TextOf(before[k + 1..]), log[|log| - 1].text;
        assert (x + y) + z == x + (y + z);
      }
    }
  }

  /** The projection after any batches of one log: the meaning of a prefix of it. */
  lemma OutputFromBatches(batches: seq<seq<Rec<Event>>>, log: seq<Event>)
    requires forall i :: 0 <= i < |batches| ==> Drawn(batches[i], log)
    ensures var r := AdvanceAll(Cursor(0, NO_OUTPUT), batches, ApplyOutput);
      && r.sequence <= |log|
      && (Concluded(log[..r.sequence]) ==> r.state.sealed && r.state.content == "")
      && (!Concluded(log[..r.sequence]) ==> !r.state.sealed && r.state.content == TextOf(log[..r.sequence]))
  {
    var c: Cursor<Output> := Cursor(0, NO_OUTPUT);
    assert Faithful(c, NO_OUTPUT, log, ApplyOutput);
    BatchesFaithful(c, batches, NO_OUTPUT, log, ApplyOutput);
    OutputMeaning(log[..AdvanceAll(c, batches, ApplyOutput).sequence]);
    SealedIffConcluded(log[..AdvanceAll(c, batches, ApplyOutput).sequence]);
  }

  /** Once sealed, always sealed and empty, whatever further batches arrive. */
  lemma SealIsFinal(c: Cursor<Output>, more: seq<seq<Rec<Event>>>, log: seq<Event>)
    requires Faithful(c, NO_OUTPUT, log, ApplyOutput) && c.state.sealed
    requires forall i :: 0 <= i < |more| ==> Drawn(more[i], log)
    ensures AdvanceAll(c, more, ApplyOutput).state == Output("", true)
  {
    BatchesFaithful(c, more, NO_OUTPUT, log, ApplyOutput);
    var n := AdvanceAll(c, more, ApplyOutput).sequence;
    OutputMeaning(log[..c.sequence]);
    OutputMeaning(log[..n]);
    var i :| 0 <= i < c.sequence && Seals(log[..c.sequence][i]);
    assert Seals(log[..n][i]);
  }

  // ---------- activities ----------

  const WINDOW: nat := 20000

  datatype Item = Item(id: nat, kind: Kind, phase: ActivityPhase, labelText: Option<string>, content: string,
      sequence: nat)
  datatype Activities = Activities(items: seq<Item>, sealed: bool)

  const NO_ACTIVITIES := Activities([], false)

  /** The last `n` characters. */
  function Tail(s: string, n: nat): (t: string)
  {
    if |s| <= n then s else s[|s| - n..]
  }

  /** findIndex: the position of the item with this id, or the length. */
  function IndexOf(items: seq<Item>, id: nat): (i: nat)
    ensures i <= |items|
    ensures i < |items| ==> items[i].id == id
    ensures forall k :: 0 <= k < i ==> items[k].id != id
  {
    if items == [] || items[0].id == id then 0 else 1 + IndexOf(items[1..], id)
  }

  function NextContent(existing: string, e: Event): (s: string)
    requires e.ActivityEvent?
  {
    if e.content.None? then existing
    else if e.reset then e.content.value
    else Tail(existing + e.content.value, WINDOW)
  }

  /** An absent label keeps the existing one; an empty label removes it. */
  function NextLabel(existing: Option<string>, e: Event): (l: Option<string>)
    requires e.ActivityEvent?
  {
    var text := if e.labelText.Some? then e.labelText else existing;
    if text == Some("") then None else text
  }

  function NextItem(existing: Option<Item>, n: nat, e: Event): (i: Item)
    requires e.ActivityEvent?
  {
    Item(e.id, e.kind, e.phase,
         NextLabel(if existing.Some? then existing.value.labelText else None, e),
         NextContent(if existing.Some? then existing.value.content else "", e), n)
  }

  function ApplyActivity(p: Activities, n: nat, e: Event): (q: Activities)
  {
    if e.ActivityEvent? then
      var i := IndexOf(p.items, e.id);
      if i < |p.items| then p.(items := p.items[i := NextItem(Some(p.items[i]), n, e)])
      else p.(items := p.items + [NextItem(None, n, e)])
    else if Seals(e) then p.(sealed := true)
    else p
  }

  // ---------- what the activity list must be ----------

  predicate IsFor(e: Event, id: nat)
  {
    e.ActivityEvent? && e.id == id
  }

  /** The ids of a log in order of first appearance. */
  function Ids(log: seq<Event>): (ids: seq<nat>)
  {
    if log == [] then []
    else
      var e := log[|log| - 1];
      var before := Ids(log[..|log| - 1]);
      if e.ActivityEvent? && e.id !in before then before + [e.id] else before
  }

  /** Everything said under `id` since its last content-carrying reset, never truncated. */
  function FullContent(log: seq<Event>, id: nat): (s: string)
  {
    if log == [] then ""
    else
      var e := log[|log| - 1];
      var before := FullContent(log[..|log| - 1], id);
      if IsFor(e, id) && e.content.Some? then (if e.reset then e.content.value else before + e.content.value)
          else before
  }

  /** The last 20,000 characters of everything said under an id since its last reset. */
  function Window(log: seq<Event>, id: nat): (s: string)
  {
    var full := FullContent(log, id);
    if |full| <= 20_000 then full else full[|full| - 20_000..]
  }

  /** The last event under `id` that carries content is a reset. */
  predicate EndsInReset(log: seq<Event>, id: nat)
  {
    log != [] &&
    var e := log[|log| - 1];
    if IsFor(e, id) && e.content.Some? then e.reset else EndsInReset(log[..|log| - 1], id)
  }

  /** What the item of `id` holds after `log`. */
  function ContentOf(log: seq<Event>, id: nat): (s: string)
  {
    if EndsInReset(log, id) then FullContent(log, id) else Window(log, id)
  }

  /** The label of the last labelled event under `id`; an empty label means none. */
  function LabelOf(log: seq<Event>, id: nat): (l: Option<string>)
  {
    if log == [] then None
    else
      var e := log[|log| - 1];
      if IsFor(e, id) && e.labelText.Some? then (if e.labelText.value == "" then None else e.labelText)
          else LabelOf(log[..|log| - 1], id)
  }

  /** The number of the last event under `id`. */
  function LastOf(log: seq<Event>, id: nat): (n: nat)
    requires id in Ids(log)
    ensures 1 <= n <= |log| && IsFor(log[n - 1], id) && forall k :: n <= k < |log| ==> !IsFor(log[k], id)
  {
    var e := log[|log| - 1];
    if IsFor(e, id) then |log| else LastOf(log[..|log| - 1], id)
  }

  /** The item an id must have after `log`. */
  function ItemOf(log: seq<Event>, id: nat): (i: Item)
    requires id in Ids(log)
  {
    var e := log[LastOf(log, id) - 1];
    Item(id, e.kind, e.phase, LabelOf(log, id), ContentOf(log, id), LastOf(log, id))
  }

  /** The items of the projection are exactly the required ones, in order of first appearance. */
  predicate ItemsMatch(items: seq<Item>, log: seq<Event>)
  {
    |items| == |Ids(log)| && forall k :: 0 <= k < |items| ==> items[k] == ItemOf(log, Ids(log)[k])
  }

  predicate DistinctIds(ids: seq<nat>)
  {
    forall i, j :: 0 <= i < j < |ids| ==> ids[i] != ids[j]
  }

  lemma {:induction false} IdsDistinct(log: seq<Event>)
    ensures DistinctIds(Ids(log))
    ensures forall id :: id in Ids(log) <==> exists k :: 0 <= k < |log| && IsFor(log[k], id)
  {
    if log != [] {
      var before := log[..|log| - 1];
      IdsDistinct(before);
      var e := log[|log| - 1];
      forall id ensures id in Ids(log) <==> exists k :: 0 <= k < |log| && IsFor(log[k], id) {
        if id in Ids(before) {
          var k :| 0 <= k < |before| && IsFor(before[k], id);
          assert IsFor(log[k], id);
        }
        if e.ActivityEvent? && e.id == id {
          assert IsFor(log[|log| - 1], id);
        }
        if exists k :: 0 <= k < |log| && IsFor(log[k], id) {
          var k :| 0 <= k < |log| && IsFor(log[k], id);
          if k < |before| {
            assert IsFor(before[k], id);
          }
        }
      }
    }
  }

  /** Truncating again after appending is truncating the whole. */
  lemma TailAppend(s: string, t: string, n: nat)
    ensures Tail(Tail(s, n) + t, n) == Tail(s + t, n)
  {
    if |s| > n {
      var a := Tail(s, n) + t;
      var b := s + t;
      assert a == b[|s| - n..];
      assert a[|a| - n..] == b[|b| - n..];
    }
  }

  /** An id without events so far has nothing. */
  lemma {:induction false} AbsentId(log: seq<Event>, id: nat)
    requires id !in Ids(log)
    ensures FullContent(log, id) == "" && !EndsInReset(log, id) && LabelOf(log, id) == None
  {
    if log != [] {
      AbsentId(log[..|log| - 1], id);
    }
  }

  lemma OtherItemKept(log: seq<Event>, id: nat)
    requires log != [] && id in Ids(log[..|log| - 1]) && !IsFor(log[|log| - 1], id)
    ensures id in Ids(log) && ItemOf(log, id) == ItemOf(log[..|log| - 1], id)
  {
    hide Tail;
    var before := log[..|log| - 1];
    assert id in Ids(log);
    assert LastOf(log, id) == LastOf(before, id);
    assert log[LastOf(log, id) - 1] == before[LastOf(before, id) - 1];
    assert FullContent(log, id) == FullContent(before, id) && EndsInReset(log, id) == EndsInReset(before, id);
    assert LabelOf(log, id) == LabelOf(before, id);
  }

  lemma ExistingContent(log: seq<Event>)
    requires log != [] && log[|log| - 1].ActivityEvent?
    ensures var e := log[|log| - 1];
      NextContent(ContentOf(log[..|log| - 1], e.id), e) == ContentOf(log, e.id)
  {
    var e := log[|log| - 1];
    var before := log[..|log| - 1];
    if e.content.Some? && !e.reset {
      var full := FullContent(before, e.id);
      assert FullContent(log, e.id) == full + e.content.value && !EndsInReset(log, e.id);
      hide FullContent, EndsInReset;
      TailAppend(full, e.content.value, 20_000);
    } else {
      assert FullContent(log, e.id) == if e.content.None? then FullContent(before, e.id) else e.content.value;
      assert EndsInReset(log, e.id) == if e.content.None? then EndsInReset(before, e.id) else true;
    }
  }

  lemma ExistingItem(log: seq<Event>)
    requires log != [] && log[|log| - 1].ActivityEvent? && log[|log| - 1].id in Ids(log[..|log| - 1])
    ensures var e := log[|log| - 1]; var before := log[..|log| - 1];
      e.id in Ids(log) && NextItem(Some(ItemOf(before, e.id)), |log|, e) == ItemOf(log, e.id)
  {
    hide ContentOf, NextContent;
    var e := log[|log| - 1];
    LabelNeverEmpty(log[..|log| - 1], e.id);
    ExistingContent(log);
  }

  lemma {:induction false} LabelNeverEmpty(log: seq<Event>, id: nat)
    ensures LabelOf(log, id) != Some("")
  {
    if log != [] {
      LabelNeverEmpty(log[..|log| - 1], id);
    }
  }

  lemma FreshContent(log: seq<Event>)
    requires log != [] && log[|log| - 1].ActivityEvent? && log[|log| - 1].id !in Ids(log[..|log| - 1])
    ensures var e := log[|log| - 1];
      && FullContent(log, e.id) == (if e.content.Some? then e.content.value else "")
      && EndsInReset(log, e.id) == (e.content.Some? && e.reset)
      && LabelOf(log, e.id) == NextLabel(None, e)
  {
    var e := log[|log| - 1];
    AbsentId(log[..|log| - 1], e.id);
    hide Ids;
    if e.content.Some? {
      assert "" + e.content.value == e.content.value;
    }
  }

  lemma FreshItem(log: seq<Event>)
    requires log != [] && log[|log| - 1].ActivityEvent? && log[|log| - 1].id !in Ids(log[..|log| - 1])
    ensures var e := log[|log| - 1]; e.id in Ids(log) && NextItem(None, |log|, e) == ItemOf(log, e.id)
  {
    var e := log[|log| - 1];
    FreshContent(log);
    assert e.id in Ids(log);
    assert LastOf(log, e.id) == |log|;
    hide FullContent, EndsInReset, LabelOf, Ids, LastOf, NextLabel;
    if e.content.Some? {
      assert "" + e.content.value == e.content.value;
    }
  }

  lemma {:induction false} ActivitiesMeaning(log: seq<Event>)
    ensures ItemsMatch(Fold(NO_ACTIVITIES, log, ApplyActivity).items, log)
    ensures Fold(NO_ACTIVITIES, log, ApplyActivity).sealed <==> SealedBy(log)
  {
    if log != [] {
      var before := log[..|log| - 1];
      ActivitiesMeaning(before);
      ApplyKeepsMatch(Fold(NO_ACTIVITIES, before, ApplyActivity), log);
      assert forall i :: 0 <= i < |before| ==> log[i] == before[i];
      assert SealedBy(log) <==> SealedBy(before) || Seals(log[|log| - 1]);
    }
  }

  /** Items under other ids are untouched by the last event. */
  lemma OthersMatch(items: seq<Item>, log: seq<Event>, k: nat)
    requires log != [] && ItemsMatch(items, log[..|log| - 1]) && k < |items|
      && !IsFor(log[|log| - 1], Ids(log[..|log| - 1])[k])
    ensures k < |Ids(log)| && Ids(log)[k] == Ids(log[..|log| - 1])[k] && items[k] == ItemOf(log, Ids(log)[k])
  {
    hide ItemOf;
    assert Ids(log[..|log| - 1])[k] in Ids(log[..|log| - 1]);
    OtherItemKept(log, Ids(log[..|log| - 1])[k]);
  }

  lemma ApplyKeepsMatch(p: Activities, log: seq<Event>)
    requires log != [] && ItemsMatch(p.items, log[..|log| - 1])
    ensures ItemsMatch(ApplyActivity(p, |log|, log[|log| - 1]).items, log)
  {
    var before := log[..|log| - 1];
    var e := log[|log| - 1];
    var ids := Ids(before);
    IdsDistinct(before);
    assert forall k :: 0 <= k < |ids| ==> p.items[k].id == ids[k];
    if e.ActivityEvent? {
      if e.id in ids { ExistingItem(log); } else { FreshItem(log); }
    }
    hide ItemOf, NextItem;
    var q := ApplyActivity(p, |log|, e);
    forall k | 0 <= k < |q.items| ensures k < |Ids(log)| && q.items[k] == ItemOf(log, Ids(log)[k]) {
      if k < |ids| && !IsFor(e, ids[k]) {
        OthersMatch(p.items, log, k);
      }
    }
  }

  /** The activity list after any batches of one log: unique ids in order of first appearance, each item
      carrying its last kind, phase and label, and the last 20,000 characters since its last reset. */
  lemma ActivitiesFromBatches(batches: seq<seq<Rec<Event>>>, log: seq<Event>)
    requires forall i :: 0 <= i < |batches| ==> Drawn(batches[i], log)
    ensures var r := AdvanceAll(Cursor(0, NO_ACTIVITIES), batches, ApplyActivity);
      && r.sequence <= |log| && ItemsMatch(r.state.items, log[..r.sequence]) && DistinctIds(Ids(log[..r.sequence]))
      && (r.state.sealed <==> Concluded(log[..r.sequence]))
  {
    var c: Cursor<Activities> := Cursor(0, NO_ACTIVITIES);
    assert Faithful(c, NO_ACTIVITIES, log, ApplyActivity);
    BatchesFaithful(c, batches, NO_ACTIVITIES, log, ApplyActivity);
    var n := AdvanceAll(c, batches, ApplyActivity).sequence;
    ActivitiesMeaning(log[..n]);
    IdsDistinct(log[..n]);
    SealedIffConcluded(log[..n]);
  }

  lemma WindowExact(log: seq<Event>, id: nat)
    requires id in Ids(log)
    ensures ItemOf(log, id).content == Window(log, id) <==>
      |FullContent(log, id)| <= 20_000 || !EndsInReset(log, id)
  {
    var full := FullContent(log, id);
    if |full| > 20_000 {
      assert |Window(log, id)| < |full|;
    }
  }

  /** After any batches an item of the reducer is the window of its full content exactly when that fits
      the window or its last content was appended: a reset is stored untruncated. */
  lemma ItemIsWindowIff(batches: seq<seq<Rec<Event>>>, log: seq<Event>, k: nat)
    requires forall i :: 0 <= i < |batches| ==> Drawn(batches[i], log)
    requires k < |AdvanceAll(Cursor(0, NO_ACTIVITIES), batches, ApplyActivity).state.items|
    ensures var r := AdvanceAll(Cursor(0, NO_ACTIVITIES), batches, ApplyActivity);
      var item := r.state.items[k];
      && r.sequence <= |log|
      && (item.content == Window(log[..r.sequence], item.id) <==>
            |FullContent(log[..r.sequence], item.id)| <= 20_000 || !EndsInReset(log[..r.sequence], item.id))
  {
    ActivitiesFromBatches(batches, log);
    var r := AdvanceAll(Cursor(0, NO_ACTIVITIES), batches, ApplyActivity);
    var prefix := log[..r.sequence];
    hide AdvanceAll, Window, FullContent, EndsInReset;
    assert Ids(prefix)[k] in Ids(prefix);
    WindowExact(prefix, Ids(prefix)[k]);
  }

  /** Every content that a reset stores fits the window. */
  predicate ResetsFit(log: seq<Event>)
  {
    forall k :: 0 <= k < |log| && log[k].ActivityEvent? && log[k].content.Some? && log[k].reset ==>
      |log[k].content.value| <= 20_000
  }

  lemma {:induction false} ResetContentFits(log: seq<Event>, id: nat)
    requires ResetsFit(log)
    ensures EndsInReset(log, id) ==> |FullContent(log, id)| <= 20_000
  {
    if log != [] {
      ResetContentFits(log[..|log| - 1], id);
    }
  }

  /** When the resets of the log fit the window, every item after any batches is the last 20,000
      characters of its full content. */
  lemma ItemsAreWindows(batches: seq<seq<Rec<Event>>>, log: seq<Event>, k: nat)
    requires (forall i :: 0 <= i < |batches| ==> Drawn(batches[i], log)) && ResetsFit(log)
    requires k < |AdvanceAll(Cursor(0, NO_ACTIVITIES), batches, ApplyActivity).state.items|
    ensures var r := AdvanceAll(Cursor(0, NO_ACTIVITIES), batches, ApplyActivity);
      r.sequence <= |log| && r.state.items[k].content == Window(log[..r.sequence], r.state.items[k].id)
  {
    ItemIsWindowIff(batches, log, k);
    var r := AdvanceAll(Cursor(0, NO_ACTIVITIES), batches, ApplyActivity);
    ResetContentFits(log[..r.sequence], r.state.items[k].id);
  }
}
