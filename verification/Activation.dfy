/**
 Desktop activation: a coalescing single-slot queue between second launches and
 the UI thread. The empty link is a plain wake. Delivery happens outside the
 lock, so any step may fall between a drain and its delivery, including an
 accept made from inside that delivery.
 */
module Activation {
  import opened Options

  datatype Intent = Intent(
    pending: bool, link: string, scheduled: bool, closed: bool, dispatching: bool,
    // drains between their critical section and their delivery, oldest first
    inFlight: seq<string>,
    // history: distinct links taken on, what drains took, what was delivered, and how many drains are owed
    acceptedLinks: seq<string>, taken: seq<string>, delivered: seq<string>, owed: nat)

  /** Deliver(k): the k-th oldest drain in flight calls deliver. */
  datatype Act = Accept(link: string) | MakeReady | Drain | Deliver(k: nat) | Shut

  const NEW_INTENT := Intent(false, "", false, false, false, [], [], [], [], 0)

  /** scheduleLocked: claim the one drain that may be outstanding. */
  function Schedule(a: Intent): (b: Intent)
  {
    if !a.dispatching || !a.pending || a.scheduled then a else a.(scheduled := true, owed := a.owed + 1)
  }

  predicate Accepts(a: Intent, link: string)
  {
    !a.closed && !(link != "" && a.link != "" && a.link != link)
  }

  function StepAccept(a: Intent, link: string): (b: Intent)
  {
    if !Accepts(a, link) then a
    else Schedule(a.(pending := true, link := if link != "" then link else a.link,
                     acceptedLinks := if link != "" && a.link == "" then a.acceptedLinks + [link] else a.acceptedLinks))
  }

  function StepDrain(a: Intent): (b: Intent)
  {
    if a.owed == 0 then a
    else
      var s := a.(scheduled := false, owed := a.owed - 1);
      if a.closed || !a.pending then s
      else s.(link := "", pending := false, taken := a.taken + [a.link], inFlight := a.inFlight + [a.link])
  }

  function StepIntent(a: Intent, act: Act): (b: Intent)
  {
    match act
    case Accept(link) => StepAccept(a, link)
    case MakeReady => if a.closed || a.dispatching then a else Schedule(a.(dispatching := true))
    case Drain => StepDrain(a)
    case Deliver(k) =>
      if k >= |a.inFlight| then a
      else a.(inFlight := a.inFlight[..k] + a.inFlight[k + 1..], delivered := a.delivered + [a.inFlight[k]])
    case Shut => a.(closed := true, pending := false, link := "", dispatching := false)
  }

  function RunIntent(a: Intent, acts: seq<Act>): (b: Intent)
    decreases |acts|
  {
    if acts == [] then a else StepIntent(RunIntent(a, acts[..|acts| - 1]), acts[|acts| - 1])
  }

  /** The pairing links among the deliveries; the rest are plain wakes. */
  function Links(taken: seq<string>): (links: seq<string>)
  {
    if taken == [] then [] else Links(taken[..|taken| - 1]) + (if taken[|taken| - 1] != "" then [taken[|taken| - 1]]
        else [])
  }

  ghost predicate IntentInv(a: Intent)
  {
    && a.owed == (if a.scheduled then 1 else 0)
    && (a.pending && a.dispatching ==> a.scheduled)
    && (!a.pending ==> a.link == "")
    && (a.closed ==> !a.pending && !a.dispatching)
    && (!a.closed ==> a.acceptedLinks == Links(a.taken) + Pending(a))
  }

  /** The link that waits to be taken. */
  function Pending(a: Intent): (links: seq<string>)
  {
    if a.link != "" then [a.link] else []
  }

  /** What was taken is delivered or in flight, each once. */
  ghost predicate Conserved(a: Intent)
  {
    multiset(a.taken) == multiset(a.delivered) + multiset(a.inFlight)
  }

  lemma LinksAppend(taken: seq<string>, link: string)
    ensures Links(taken + [link]) == Links(taken) + (if link != "" then [link] else [])
  {
    assert (taken + [link])[..|taken|] == taken;
  }

  lemma {:induction false} LinksConcat(s: seq<string>, t: seq<string>)
    ensures Links(s + t) == Links(s) + Links(t)
    decreases |t|
  {
    if t == [] {
      assert s + t == s;
    } else {
      var before, last := t[..|t| - 1], t[|t| - 1];
      assert s + t == (s + before) + [last] && t == before + [last];
      LinksConcat(s, before);
      LinksAppend(s + before, last);
      LinksAppend(before, last);
    }
  }

  lemma AcceptKeeps(a: Intent, link: string)
    requires IntentInv(a)
    ensures IntentInv(StepAccept(a, link))
  {
    hide Links;
  }

  lemma DrainKeeps(a: Intent)
    requires IntentInv(a)
    ensures IntentInv(StepDrain(a))
  {
    LinksAppend(a.taken, a.link);
    hide Links;
  }

  lemma OtherKeeps(a: Intent, act: Act)
    requires IntentInv(a) && (act.MakeReady? || act.Deliver? || act.Shut?)
    ensures IntentInv(StepIntent(a, act))
  {
    hide Links;
  }

  lemma IntentKeeps(a: Intent, act: Act)
    requires IntentInv(a)
    ensures IntentInv(StepIntent(a, act))
  {
    hide IntentInv;
    match act {
      case Accept(link) => AcceptKeeps(a, link);
      case Drain => DrainKeeps(a);
      case _ => OtherKeeps(a, act);
    }
  }

  lemma ConservedKeeps(a: Intent, act: Act)
    requires Conserved(a)
    ensures Conserved(StepIntent(a, act))
  {
    if act.Deliver? && act.k < |a.inFlight| {
      var flight := a.inFlight;
      assert flight == flight[..act.k] + [flight[act.k]] + flight[act.k + 1..];
    }
  }

  lemma {:induction false} RunIntentKeeps(a: Intent, acts: seq<Act>)
    requires IntentInv(a) && Conserved(a)
    ensures IntentInv(RunIntent(a, acts)) && Conserved(RunIntent(a, acts))
    decreases |acts|
  {
    hide IntentInv, Conserved, StepIntent;
    if acts != [] {
      RunIntentKeeps(a, acts[..|acts| - 1]);
      IntentKeeps(RunIntent(a, acts[..|acts| - 1]), acts[|acts| - 1]);
      ConservedKeeps(RunIntent(a, acts[..|acts| - 1]), acts[|acts| - 1]);
    }
  }

  ghost predicate ReachableIntent(a: Intent)
  {
    exists acts :: a == RunIntent(NEW_INTENT, acts)
  }

  lemma ReachableIntentInv(a: Intent)
    requires ReachableIntent(a)
    ensures IntentInv(a) && Conserved(a)
  {
    var acts :| a == RunIntent(NEW_INTENT, acts);
    RunIntentKeeps(NEW_INTENT, acts);
  }

  // ---------- main results ----------

  /** Whatever thread a drain runs on: until close, the links taken on are those that drains took followed by
      the pending one, in order; and what drains took is delivered or in flight, nothing lost or repeated. */
  lemma TakenThenPending(a: Intent)
    requires ReachableIntent(a)
    ensures !a.closed ==> a.acceptedLinks == Links(a.taken) + Pending(a)
    ensures multiset(a.taken) == multiset(a.delivered) + multiset(a.inFlight)
  {
    ReachableIntentInv(a);
  }

  /** The dispatcher runs drains one at a time: none starts while another is between taking and delivering.
      A delivery may still re-enter accept and a further drain may run inside it. */
  predicate OneAtATime(a: Intent, acts: seq<Act>)
    decreases |acts|
  {
    acts == [] ||
    var before := acts[..|acts| - 1];
    OneAtATime(a, before) && (acts[|acts| - 1].Drain? ==> RunIntent(a, before).inFlight == [])
  }

  ghost predicate ReachableSerial(a: Intent)
  {
    exists acts :: a == RunIntent(NEW_INTENT, acts) && OneAtATime(NEW_INTENT, acts)
  }

  lemma SerialStep(a: Intent, act: Act)
    requires a.taken == a.delivered + a.inFlight && |a.inFlight| <= 1 && (act.Drain? ==> a.inFlight == [])
    ensures var b := StepIntent(a, act); b.taken == b.delivered + b.inFlight && |b.inFlight| <= 1
  {
    match act {
      case Accept(link) => assert StepAccept(a, link).taken == a.taken;
      case Drain => assert StepDrain(a).delivered == a.delivered;
      case Deliver(k) =>
        if k < |a.inFlight| {
          assert a.inFlight == [a.inFlight[k]];
        }
      case _ =>
    }
  }

  lemma {:induction false} SerialInOrder(acts: seq<Act>)
    requires OneAtATime(NEW_INTENT, acts)
    ensures var a := RunIntent(NEW_INTENT, acts); a.taken == a.delivered + a.inFlight && |a.inFlight| <= 1
    decreases |acts|
  {
    hide StepIntent;
    if acts != [] {
      SerialInOrder(acts[..|acts| - 1]);
      SerialStep(RunIntent(NEW_INTENT, acts[..|acts| - 1]), acts[|acts| - 1]);
    }
  }

  /** On the UI thread, until close: the links taken on are those delivered, then the one on its way to
      delivery if any, then the pending one, in order. */
  lemma DeliveredThenPending(a: Intent)
    requires ReachableSerial(a)
    ensures |a.inFlight| <= 1
    ensures !a.closed ==> a.acceptedLinks == Links(a.delivered) + Links(a.inFlight) + Pending(a)
  {
    var acts :| a == RunIntent(NEW_INTENT, acts) && OneAtATime(NEW_INTENT, acts);
    SerialInOrder(acts);
    RunIntentKeeps(NEW_INTENT, acts);
    LinksConcat(a.delivered, a.inFlight);
  }

  lemma ReachableIntentStep(a: Intent, act: Act)
    requires ReachableIntent(a)
    ensures ReachableIntent(StepIntent(a, act))
  {
    hide StepIntent;
    var acts :| a == RunIntent(NEW_INTENT, acts);
    assert (acts + [act])[..|acts|] == acts;
    assert RunIntent(NEW_INTENT, acts + [act]) == StepIntent(a, act);
  }

  /** The one thread is needed: two drains in flight can deliver in the other order. */
  lemma DrainsCanOvertake()
    ensures exists a :: ReachableIntent(a) && a.taken == ["a", "b"] && a.delivered == ["b", "a"]
  {
    var a1 := StepIntent(NEW_INTENT, MakeReady);
    var a2 := StepIntent(a1, Accept("a"));
    var a3 := StepIntent(a2, Drain);
    assert a3.inFlight == ["a"] && a3.taken == ["a"] && a3.dispatching && !a3.scheduled && a3.link == "" && !a3.closed;
    var a4 := StepIntent(a3, Accept("b"));
    var a5 := StepIntent(a4, Drain);
    assert a5.inFlight == ["a", "b"] && a5.taken == ["a", "b"] && a5.delivered == [];
    var a6 := StepIntent(a5, Deliver(1));
    assert a6.inFlight == ["a"] && a6.delivered == ["b"];
    var a7 := StepIntent(a6, Deliver(0));
    assert a7.taken == ["a", "b"] && a7.delivered == ["b", "a"];
    hide StepIntent, ReachableIntent;
    NewIsReachable();
    ReachableIntentStep(NEW_INTENT, MakeReady);
    ReachableIntentStep(a1, Accept("a"));
    ReachableIntentStep(a2, Drain);
    ReachableIntentStep(a3, Accept("b"));
    ReachableIntentStep(a4, Drain);
    ReachableIntentStep(a5, Deliver(1));
    ReachableIntentStep(a6, Deliver(0));
  }

  lemma NewIsReachable()
    ensures ReachableIntent(NEW_INTENT)
  {
    assert RunIntent(NEW_INTENT, []) == NEW_INTENT;
  }

  /** A pending intent with a ready dispatcher has exactly one drain on its way; never two. */
  lemma ExactlyOneDrain(a: Intent)
    requires ReachableIntent(a)
    ensures a.owed <= 1
    ensures a.pending && a.dispatching ==> a.owed == 1
  {
    ReachableIntentInv(a);
  }

  /** After close nothing is accepted and no drain takes anything, in any continuation; what was in flight
      when close came is all that can still be delivered. */
  lemma {:induction false} ClosedIsFinal(a: Intent, acts: seq<Act>)
    requires a.closed
    ensures var b := RunIntent(a, acts);
      && b.closed && b.taken == a.taken && b.acceptedLinks == a.acceptedLinks && (forall link :: !Accepts(b, link))
      && multiset(b.delivered) + multiset(b.inFlight) == multiset(a.delivered) + multiset(a.inFlight)
    decreases |acts|
  {
    hide StepIntent;
    if acts != [] {
      ClosedIsFinal(a, acts[..|acts| - 1]);
      ClosedStep(RunIntent(a, acts[..|acts| - 1]), acts[|acts| - 1]);
    }
  }

  lemma ClosedStep(a: Intent, act: Act)
    requires a.closed
    ensures var b := StepIntent(a, act);
      && b.closed && b.taken == a.taken && b.acceptedLinks == a.acceptedLinks
      && multiset(b.delivered) + multiset(b.inFlight) == multiset(a.delivered) + multiset(a.inFlight)
  {
    if act.Deliver? && act.k < |a.inFlight| {
      assert a.inFlight == a.inFlight[..act.k] + [a.inFlight[act.k]] + a.inFlight[act.k + 1..];
    }
  }

  /** A link offered while open and nothing else waits is never lost: unless close comes first, the next drain
      in a ready object takes exactly it, whatever links and wakes are offered in between. */
  lemma {:induction false} OfferedIsTakenNext(a: Intent, link: string, offers: seq<string>)
    requires ReachableIntent(a) && !a.closed && a.dispatching && link != "" && (a.link == "" || a.link == link)
    ensures var b := RunIntent(StepIntent(a, Accept(link)), Offers(offers));
      && b.owed == 1 && b.link == link && b.pending && !b.closed && b.dispatching
      && StepIntent(b, Drain).taken == a.taken + [link] && StepIntent(b, Drain).inFlight == a.inFlight + [link]
      && StepIntent(b, Drain).acceptedLinks == a.acceptedLinks + if a.link == "" then [link] else []
  {
    ReachableIntentInv(a);
    OffersKeepTheLink(StepIntent(a, Accept(link)), link, offers);
  }

  function Offers(offers: seq<string>): (acts: seq<Act>)
    ensures |acts| == |offers| && forall k :: 0 <= k < |acts| ==> acts[k] == Accept(offers[k])
  {
    seq(|offers|, k requires 0 <= k < |offers| => Accept(offers[k]))
  }

  lemma {:induction false} OffersKeepTheLink(a: Intent, link: string, offers: seq<string>)
    requires !a.closed && a.dispatching && a.pending && a.scheduled && a.link == link != ""
    ensures RunIntent(a, Offers(offers)) == a
    decreases |offers|
  {
    if offers != [] {
      var before := offers[..|offers| - 1];
      OffersKeepTheLink(a, link, before);
      assert Offers(offers)[..|offers| - 1] == Offers(before);
    }
  }

  // ---------- the activation object ----------

  class DesktopActivation {
    var pending: bool
    var link: string
    var scheduled: bool
    var closed: bool
    var dispatching: bool

    /** `a` has this object's data. */
    predicate Shows(a: Intent)
      reads this
    {
      a.pending == pending && a.link == link && a.scheduled == scheduled && a.closed == closed
          && a.dispatching == dispatching
    }

    constructor ()
      ensures Shows(NEW_INTENT)
    {
      pending, link, scheduled, closed, dispatching := false, "", false, false, false;
    }

    /** scheduleLocked: the caller must dispatch a drain iff `dispatch`. */
    method ScheduleLocked() returns (dispatch: bool)
      modifies this`scheduled
      ensures dispatch == (dispatching && pending && !old(scheduled)) && scheduled == (old(scheduled) || dispatch)
    {
      dispatch := dispatching && pending && !scheduled;
      if dispatch { scheduled := true; }
    }

    /** accept of a link that passed validation. */
    method AcceptLink(validated: string) returns (accepted: bool, dispatch: bool)
      modifies this
      ensures forall a: Intent :: old(Shows(a)) ==>
        Shows(StepAccept(a, validated)) && accepted == Accepts(a, validated)
            && StepAccept(a, validated).owed == a.owed + (if dispatch then 1 else 0)
      // taken on exactly while open, as a wake, the first link or the link already waiting
      ensures accepted <==> !old(closed) && (validated == "" || old(link) == "" || old(link) == validated)
      ensures accepted ==> pending && link == if validated == "" then old(link) else validated
      ensures !accepted ==> pending == old(pending) && link == old(link)
      ensures dispatch <==> accepted && old(dispatching) && !old(scheduled)
      ensures scheduled == (old(scheduled) || dispatch) && closed == old(closed) && dispatching == old(dispatching)
    {
      if closed { return false, false; }
      if validated != "" && link != "" && link != validated { return false, false; }
      pending := true;
      if validated != "" { link := validated; }
      dispatch := ScheduleLocked();
      accepted := true;
    }

    method Ready() returns (dispatch: bool)
      modifies this
      ensures forall a: Intent :: old(Shows(a)) ==>
        Shows(StepIntent(a, MakeReady)) && StepIntent(a, MakeReady).owed == a.owed + (if dispatch then 1 else 0)
      ensures dispatching <==> old(dispatching) || !old(closed)
      ensures dispatch <==> !old(closed) && !old(dispatching) && old(pending) && !old(scheduled)
      ensures scheduled == (old(scheduled) || dispatch)
      ensures pending == old(pending) && link == old(link) && closed == old(closed)
    {
      if closed || dispatching { return false; }
      dispatching := true;
      dispatch := ScheduleLocked();
    }

    /** The drain's critical section; `deliver` is what it must deliver after unlocking. */
    method DrainOnce() returns (deliver: Option<string>)
      modifies this
      ensures forall a: Intent :: old(Shows(a)) && a.owed > 0 ==>
        && Shows(StepDrain(a))
        && StepDrain(a).inFlight == a.inFlight + if deliver.Some? then [deliver.value] else []
      ensures deliver == if !old(closed) && old(pending) then Some(old(link)) else None
      ensures deliver.Some? ==> !pending && link == ""
      ensures deliver.None? ==> pending == old(pending) && link == old(link)
      ensures !scheduled && closed == old(closed) && dispatching == old(dispatching)
    {
      scheduled := false;
      if closed || !pending { return None; }
      deliver := Some(link);
      link, pending := "", false;
    }

    method Close()
      modifies this
      ensures forall a: Intent :: old(Shows(a)) ==> Shows(StepIntent(a, Shut))
      ensures closed && !pending && link == "" && !dispatching && scheduled == old(scheduled)
    {
      closed, pending := true, false;
      link, dispatching := "", false;
    }
  }
}
