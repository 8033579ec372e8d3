/**
 The per-Agent execution gate: a FIFO lock in which cancellation of a waiter may
 race with its grant. Agents do not share anything, so the gate is one lane per
 Agent. Tickets number the arrivals of a lane.
 */
module ExecutionGate {
  import opened Options

  type Agent = nat

  /** `ready` is the waiter's closed channel. */
  datatype Phase = Waiting | Cancelling | Holding | MustRelease | Done
  datatype Caller = Caller(phase: Phase, ready: bool)

  /** `active` and `queue` are the gate's own data. `granted` lists the tickets that received the
      token, in order; `dropped` holds the tickets that left the queue without it. */
  datatype Lane = Lane(active: bool, queue: seq<nat>, callers: map<nat, Caller>, next: nat, granted: seq<nat>,
      dropped: set<nat>)

  datatype Turn =
    | Arrive
    | TakeGrant(ticket: nat, canceled: bool)   // <-ready chosen; then the context is consulted
    | SeeCancel(ticket: nat)                   // <-ctx.Done() chosen
    | Withdraw(ticket: nat)                    // the cancelled caller takes the mutex
    | Release(ticket: nat)                     // the release function, or the release after a lost race

  const EMPTY_LANE := Lane(false, [], map[], 0, [], {})

  /** The queue without its first occurrence of `t`. */
  function Without(q: seq<nat>, t: nat): (r: seq<nat>)
  {
    if q == [] then [] else if q[0] == t then q[1..] else [q[0]] + Without(q[1..], t)
  }

  function SetPhase(l: Lane, t: nat, p: Phase): (m: Lane)
    requires t in l.callers
  {
    l.(callers := l.callers[t := l.callers[t].(phase := p)])
  }

  function StepArrive(l: Lane): (m: Lane)
  {
    var t := l.next;
    if !l.active then l.(active := true, next := t + 1, callers := l.callers[t := Caller(Holding, false)],
        granted := l.granted + [t])
    else l.(queue := l.queue + [t], next := t + 1, callers := l.callers[t := Caller(Waiting, false)])
  }

  function StepWithdraw(l: Lane, t: nat): (m: Lane)
    requires t in l.callers
  {
    if t in l.queue then SetPhase(l, t, Done).(queue := Without(l.queue, t), dropped := l.dropped + {t})
    else SetPhase(l, t, MustRelease)
  }

  /** Hand the token to the head of the queue, or give it up. */
  function StepRelease(l: Lane, t: nat): (m: Lane)
    requires t in l.callers
  {
    var d := SetPhase(l, t, Done);
    if l.queue == [] then d.(active := false)
    else
      var n := l.queue[0];
      d.(queue := l.queue[1..], granted := l.granted + [n],
         callers := if n in d.callers then d.callers[n := d.callers[n].(ready := true)] else d.callers)
  }

  function StepLane(l: Lane, e: Turn): (m: Lane)
  {
    match e
    case Arrive => StepArrive(l)
    case TakeGrant(t, canceled) =>
      if t in l.callers && l.callers[t].phase == Waiting && l.callers[t].ready then
          SetPhase(l, t, if canceled then MustRelease else Holding) else l
    case SeeCancel(t) => if t in l.callers && l.callers[t].phase == Waiting then SetPhase(l, t, Cancelling) else l
    case Withdraw(t) => if t in l.callers && l.callers[t].phase == Cancelling then StepWithdraw(l, t) else l
    case Release(t) => if t in l.callers && (l.callers[t].phase == Holding || l.callers[t].phase == MustRelease) then
        StepRelease(l, t) else l
  }

  function LaneOf(g: map<Agent, Lane>, a: Agent): (l: Lane)
  {
    if a in g then g[a] else EMPTY_LANE
  }

  /** A run of the whole gate: each turn is taken in the lane of its Agent. */
  function RunGate(turns: seq<(Agent, Turn)>): (g: map<Agent, Lane>)
    decreases |turns|
  {
    if turns == [] then map[]
    else
      var g := RunGate(turns[..|turns| - 1]);
      var (a, e) := turns[|turns| - 1];
      g[a := StepLane(LaneOf(g, a), e)]
  }

  // ---------- the invariant ----------

  /** The caller owns the token: it holds it, must give it back, or was granted it. */
  predicate HasToken(c: Caller)
  {
    c.phase == Holding || c.phase == MustRelease || ((c.phase == Waiting || c.phase == Cancelling) && c.ready)
  }

  predicate Queued(c: Caller)
  {
    (c.phase == Waiting || c.phase == Cancelling) && !c.ready
  }

  predicate Increasing(q: seq<nat>)
  {
    forall i, j :: 0 <= i < j < |q| ==> q[i] < q[j]
  }

  /** The tickets that own the token. */
  function Owners(l: Lane): (s: set<nat>)
  {
    set t | t in l.callers && HasToken(l.callers[t])
  }

  ghost predicate TokenOk(l: Lane)
  {
    && (forall t :: t in l.callers ==> t < l.next)
    && (l.active <==> Owners(l) != {})
    && (forall t, u :: t in Owners(l) && u in Owners(l) ==> t == u)
  }

  ghost predicate QueueOk(l: Lane)
  {
    && (l.queue != [] ==> l.active)
    && Increasing(l.queue)
    && (forall t :: t in l.queue <==> t in l.callers && Queued(l.callers[t]))
  }

  ghost predicate OrderOk(l: Lane)
  {
    && Increasing(l.granted)
    && (forall t, u :: t in l.granted && u in l.queue ==> t < u)
    && (forall t :: t in l.granted ==> t in l.callers && !Queued(l.callers[t]) && t !in l.dropped)
    && (forall t :: t in l.dropped ==> t in l.callers && l.callers[t].phase == Done)
    && (forall t: nat :: t < l.next ==> t in l.callers && (Queued(l.callers[t]) || t in l.dropped || t in l.granted))
  }

  ghost predicate LaneInv(l: Lane)
  {
    TokenOk(l) && QueueOk(l) && OrderOk(l)
  }

  lemma {:induction false} WithoutExact(q: seq<nat>, t: nat)
    requires Increasing(q)
    ensures Increasing(Without(q, t))
    ensures forall u :: u in Without(q, t) <==> u in q && u != t
  {
    if q != [] && q[0] != t {
      WithoutExact(q[1..], t);
      var r := Without(q[1..], t);
      assert forall u :: u in q <==> u == q[0] || u in q[1..];
      forall i | 0 <= i < |r| ensures q[0] < r[i] {
        assert r[i] in q[1..];
      }
    }
  }

  lemma IncreasingAppend(q: seq<nat>, t: nat)
    requires Increasing(q) && forall u :: u in q ==> u < t
    ensures Increasing(q + [t])
  {
    forall i | 0 <= i < |q| ensures q[i] < t { assert q[i] in q; }
  }

  lemma ArriveKeeps(l: Lane)
    requires LaneInv(l)
    ensures LaneInv(StepArrive(l))
  {
    var m := StepArrive(l);
    if l.active {
      IncreasingAppend(l.queue, l.next);
      assert Owners(m) == Owners(l);
    } else {
      IncreasingAppend(l.granted, l.next);
      assert Owners(m) == {l.next};
    }
  }

  lemma PhaseKeeps(l: Lane, e: Turn)
    requires LaneInv(l) && (e.TakeGrant? || e.SeeCancel?)
    ensures LaneInv(StepLane(l, e))
  {
    assert Owners(StepLane(l, e)) == Owners(l);
  }

  lemma WithdrawToken(l: Lane, t: nat)
    requires LaneInv(l) && t in l.callers && l.callers[t].phase == Cancelling
    ensures TokenOk(StepWithdraw(l, t)) && (l.queue != [] ==> l.active)
    ensures StepWithdraw(l, t).active == l.active
  {
    hide OrderOk, Increasing;
    assert t in l.queue <==> Queued(l.callers[t]);
    assert Owners(StepWithdraw(l, t)) == Owners(l);
  }

  lemma WithdrawQueue(l: Lane, t: nat)
    requires LaneInv(l) && t in l.callers && l.callers[t].phase == Cancelling
    ensures QueueOk(StepWithdraw(l, t))
  {
    WithdrawToken(l, t);
    hide OrderOk, TokenOk;
    WithoutExact(l.queue, t);
    hide Increasing;
  }

  lemma QueuedIffInQueue(l: Lane, t: nat)
    requires QueueOk(l) && t in l.callers
    ensures t in l.queue <==> Queued(l.callers[t])
  {
  }

  /** Withdrawn in time: the waiter leaves the queue. */
  lemma WithdrawOrderQueued(l: Lane, t: nat)
    requires OrderOk(l) && Increasing(l.queue) && t in l.callers && t in l.queue && Queued(l.callers[t])
    ensures OrderOk(StepWithdraw(l, t))
  {
    WithoutExact(l.queue, t);
    hide Increasing, Without;
  }

  /** Too late: the token is already granted and must be passed on. */
  lemma WithdrawOrderGranted(l: Lane, t: nat)
    requires OrderOk(l) && t in l.callers && t !in l.queue && !Queued(l.callers[t]) && l.callers[t].phase == Cancelling
    ensures OrderOk(StepWithdraw(l, t))
  {
    hide Increasing;
  }

  lemma WithdrawOrder(l: Lane, t: nat)
    requires LaneInv(l) && t in l.callers && l.callers[t].phase == Cancelling
    ensures OrderOk(StepWithdraw(l, t))
  {
    QueuedIffInQueue(l, t);
    assert Increasing(l.queue);
    hide OrderOk, QueueOk, TokenOk, StepWithdraw, Increasing;
    if t in l.queue {
      WithdrawOrderQueued(l, t);
    } else {
      WithdrawOrderGranted(l, t);
    }
  }

  lemma WithdrawKeeps(l: Lane, t: nat)
    requires LaneInv(l) && t in l.callers && l.callers[t].phase == Cancelling
    ensures LaneInv(StepWithdraw(l, t))
  {
    WithdrawToken(l, t);
    WithdrawQueue(l, t);
    WithdrawOrder(l, t);
    hide TokenOk, QueueOk, OrderOk, StepWithdraw;
  }

  /** Passing the token on leaves the head of the queue as its only owner. */
  lemma PassOnToken(l: Lane, t: nat)
    requires LaneInv(l) && t in Owners(l) && (l.callers[t].phase == Holding || l.callers[t].phase == MustRelease)
      && l.queue != []
    ensures Owners(StepRelease(l, t)) == {l.queue[0]} && l.queue[0] in l.callers && l.queue[0] != t
      && TokenOk(StepRelease(l, t))
  {
    hide OrderOk, Increasing;
    var m := StepRelease(l, t);
    var n := l.queue[0];
    assert n in l.queue;
    assert t != n;
    forall u | u in Owners(m) ensures u == n {
      assert u != n ==> u in Owners(l);
    }
    assert n in Owners(m);
  }

  lemma PassOnQueue(l: Lane, t: nat)
    requires LaneInv(l) && t in Owners(l) && (l.callers[t].phase == Holding || l.callers[t].phase == MustRelease)
      && l.queue != []
    ensures QueueOk(StepRelease(l, t))
  {
    hide OrderOk, TokenOk;
    var n := l.queue[0];
    assert n in l.queue;
    assert t != n;
    assert forall u :: u in l.queue <==> u == n || u in l.queue[1..];
    assert n !in l.queue[1..];
    assert l.active;
  }

  lemma PassOnOrder(l: Lane, t: nat)
    requires LaneInv(l) && t in Owners(l) && (l.callers[t].phase == Holding || l.callers[t].phase == MustRelease)
      && l.queue != []
    ensures OrderOk(StepRelease(l, t))
  {
    var m := StepRelease(l, t);
    var n := l.queue[0];
    assert n in l.queue;
    assert t != n && n in l.callers && n !in l.dropped;
    IncreasingAppend(l.granted, n);
    HeadIsLeast(l.queue);
    hide TokenOk, Increasing, Owners;
    assert m.granted == l.granted + [n];
    forall u, v | u in m.granted && v in m.queue ensures u < v {
      assert v in l.queue;
    }
    forall u | u in m.granted ensures u in m.callers && !Queued(m.callers[u]) && u !in m.dropped {
      assert u == n || u in l.granted;
    }
    forall u: nat | u < m.next ensures u in m.callers && (Queued(m.callers[u]) || u in m.dropped || u in m.granted) {
      assert u in l.callers && (Queued(l.callers[u]) || u in l.dropped || u in l.granted);
    }
  }

  lemma HeadIsLeast(q: seq<nat>)
    requires Increasing(q) && q != []
    ensures forall u :: u in q[1..] ==> q[0] < u
  {
    forall u | u in q[1..] ensures q[0] < u {
      var i :| 0 <= i < |q[1..]| && q[1..][i] == u;
      assert q[i + 1] == u;
    }
  }

  lemma ReleaseKeeps(l: Lane, t: nat)
    requires LaneInv(l) && t in l.callers && (l.callers[t].phase == Holding || l.callers[t].phase == MustRelease)
    ensures LaneInv(StepRelease(l, t))
  {
    assert t in Owners(l);
    if l.queue == [] {
      var m := StepRelease(l, t);
      assert forall u :: u in Owners(m) ==> u in Owners(l) && u != t;
      assert Owners(m) == {};
    } else {
      PassOnToken(l, t);
      PassOnQueue(l, t);
      PassOnOrder(l, t);
      hide TokenOk, QueueOk, OrderOk, StepRelease;
    }
  }

  lemma LaneKeeps(l: Lane, e: Turn)
    requires LaneInv(l)
    ensures LaneInv(StepLane(l, e))
  {
    hide LaneInv;
    match e {
      case Arrive => ArriveKeeps(l);
      case Withdraw(t) => if t in l.callers && l.callers[t].phase == Cancelling { WithdrawKeeps(l, t); }
      case Release(t) =>
        if t in l.callers && (l.callers[t].phase == Holding || l.callers[t].phase == MustRelease) {
          ReleaseKeeps(l, t);
        }
      case _ => PhaseKeeps(l, e);
    }
  }

  lemma {:induction false} RunGateKeeps(turns: seq<(Agent, Turn)>, a: Agent)
    ensures LaneInv(LaneOf(RunGate(turns), a))
    decreases |turns|
  {
    if turns != [] {
      var before := turns[..|turns| - 1];
      var (b, e) := turns[|turns| - 1];
      RunGateKeeps(before, a);
      RunGateKeeps(before, b);
      LaneKeeps(LaneOf(RunGate(before), b), e);
    }
  }

  // ---------- main results ----------

  ghost predicate ReachableGate(g: map<Agent, Lane>)
  {
    exists turns :: g == RunGate(turns)
  }

  /** The gate is active exactly when one token is outstanding, and never two. */
  lemma ExactlyOneToken(g: map<Agent, Lane>, a: Agent)
    requires ReachableGate(g)
    ensures |Owners(LaneOf(g, a))| == if LaneOf(g, a).active then 1 else 0
  {
    var turns :| g == RunGate(turns);
    RunGateKeeps(turns, a);
    var l := LaneOf(g, a);
    if l.active {
      var t :| t in Owners(l);
      assert Owners(l) == {t};
    }
  }

  /** Two invocations of one Agent never overlap. */
  lemma InvocationsNeverOverlap(g: map<Agent, Lane>, a: Agent, t: nat, u: nat)
    requires ReachableGate(g) && t in LaneOf(g, a).callers && u in LaneOf(g, a).callers
    requires LaneOf(g, a).callers[t].phase == Holding && LaneOf(g, a).callers[u].phase == Holding
    ensures t == u
  {
    var turns :| g == RunGate(turns);
    RunGateKeeps(turns, a);
    var l := LaneOf(g, a);
    assert t in Owners(l) && u in Owners(l);
  }

  /** No waiter is lost and nobody overtakes: waiters exist only while the token is out, and whoever
      arrived before a ticket that was granted has been granted earlier or left the queue cancelled. */
  lemma NoOvertaking(g: map<Agent, Lane>, a: Agent, early: nat, late: nat)
    requires ReachableGate(g) && early < late && late in LaneOf(g, a).granted
    ensures var l := LaneOf(g, a);
      || early in l.dropped
      || exists i, j :: 0 <= i < j < |l.granted| && l.granted[i] == early && l.granted[j] == late
  {
    var turns :| g == RunGate(turns);
    RunGateKeeps(turns, a);
    var l := LaneOf(g, a);
    assert late in l.callers;
    if early !in l.dropped {
      assert early < l.next;
      assert early in l.granted;
      var i :| 0 <= i < |l.granted| && l.granted[i] == early;
      var j :| 0 <= j < |l.granted| && l.granted[j] == late;
      assert i < j;
    }
  }

  /** Whoever waits without the token is in the queue, and the queue is served only while active. */
  lemma WaiterIsQueued(g: map<Agent, Lane>, a: Agent, t: nat)
    requires ReachableGate(g) && t in LaneOf(g, a).callers && Queued(LaneOf(g, a).callers[t])
    ensures t in LaneOf(g, a).queue && LaneOf(g, a).active && Owners(LaneOf(g, a)) != {}
  {
    var turns :| g == RunGate(turns);
    RunGateKeeps(turns, a);
  }

  // ---------- what each turn answers ----------

  predicate InPhase(l: Lane, t: nat, p: Phase)
  {
    t in l.callers && l.callers[t].phase == p
  }

  /** Everybody but the tickets in `some` is where they were. */
  ghost predicate OthersStay(l: Lane, m: Lane, some: set<nat>)
  {
    forall u :: u !in some ==> (u in m.callers <==> u in l.callers) && (u in l.callers ==> m.callers[u] == l.callers[u])
  }

  /** A caller holds at once exactly when the lane is idle and otherwise waits last. */
  lemma ArriveAnswer(l: Lane)
    ensures var m := StepLane(l, Arrive);
      && m.active && m.next == l.next + 1 && OthersStay(l, m, {l.next})
      && (!l.active ==> InPhase(m, l.next, Holding) && m.granted == l.granted + [l.next] && m.queue == l.queue)
      && (l.active ==> InPhase(m, l.next, Waiting) && m.granted == l.granted && m.queue == l.queue + [l.next])
  {
  }

  /** A granted waiter holds unless its context has ended, and then owes the release; a waiter that sees its
      cancellation first leaves the queue while it is there and owes the release once it was granted. */
  lemma WaiterAnswer(l: Lane, t: nat, canceled: bool)
    requires LaneInv(l) && InPhase(l, t, Waiting)
    ensures var m := StepLane(l, TakeGrant(t, canceled));
      && InPhase(m, t, if !l.callers[t].ready then Waiting else if canceled then MustRelease else Holding)
      && OthersStay(l, m, {t}) && m.queue == l.queue && m.active == l.active && m.granted == l.granted
    ensures var m := StepLane(StepLane(l, SeeCancel(t)), Withdraw(t));
      && (t in l.queue <==> !l.callers[t].ready)
      && InPhase(m, t, if t in l.queue then Done else MustRelease)
      && (forall u :: u in m.queue <==> u in l.queue && u != t) && Increasing(m.queue)
      && OthersStay(l, m, {t}) && m.active == l.active && m.granted == l.granted
  {
    WithoutExact(l.queue, t);
  }

  lemma HolderNotQueued(l: Lane, t: nat)
    requires LaneInv(l) && (InPhase(l, t, Holding) || InPhase(l, t, MustRelease))
    ensures t !in l.queue && Increasing(l.queue)
  {
    hide OrderOk, TokenOk;
  }

  /** The holder's release, or that of a caller that lost the race, grants the longest waiting ticket, and
      makes the lane idle exactly when nobody waits. */
  lemma ReleaseAnswer(l: Lane, t: nat)
    requires LaneInv(l) && (InPhase(l, t, Holding) || InPhase(l, t, MustRelease))
    ensures var m := StepLane(l, Release(t));
      && InPhase(m, t, Done) && (m.active <==> l.queue != [])
      && (l.queue == [] ==> m.queue == [] && m.granted == l.granted && OthersStay(l, m, {t}))
      && (l.queue != [] ==>
          && m.queue == l.queue[1..] && m.granted == l.granted + [l.queue[0]]
          && l.queue[0] in m.callers && m.callers[l.queue[0]] == l.callers[l.queue[0]].(ready := true)
          && (forall u :: u in l.queue ==> l.queue[0] <= u) && OthersStay(l, m, {t, l.queue[0]}))
  {
    HolderNotQueued(l, t);
    if l.queue != [] {
      assert l.queue[0] in l.queue;
    }
  }

  /** The token's way to the `k`-th waiter: each waiter before it takes the grant and releases. */
  function Served(l: Lane, holder: nat, k: nat): (m: Lane)
    requires k < |l.queue|
  {
    if k == 0 then StepLane(StepLane(l, Release(holder)), TakeGrant(l.queue[0], false))
    else
      var m := Served(l, holder, k - 1);
      StepLane(StepLane(m, Release(l.queue[k - 1])), TakeGrant(l.queue[k], false))
  }

  /** One hand-over: the head of the queue holds and everybody behind it has moved up. */
  lemma HandOver(l: Lane, holder: nat)
    requires LaneInv(l) && (InPhase(l, holder, Holding) || InPhase(l, holder, MustRelease)) && l.queue != []
    requires InPhase(l, l.queue[0], Waiting)
    ensures var m := StepLane(StepLane(l, Release(holder)), TakeGrant(l.queue[0], false));
      && LaneInv(m) && InPhase(m, l.queue[0], Holding) && m.queue == l.queue[1..]
      && m.granted == l.granted + [l.queue[0]] && OthersStay(l, m, {holder, l.queue[0]})
  {
    hide StepLane, LaneInv, Increasing;
    var n := l.queue[0];
    ReleaseAnswer(l, holder);
    LaneKeeps(l, Release(holder));
    HolderNotQueued(l, holder);
    assert n in l.queue;
    var m := StepLane(l, Release(holder));
    WaiterAnswer(m, n, false);
    LaneKeeps(m, TakeGrant(n, false));
  }

  lemma BehindStay(l: Lane, holder: nat)
    requires LaneInv(l) && (InPhase(l, holder, Holding) || InPhase(l, holder, MustRelease)) && l.queue != []
    requires forall i :: 0 <= i < |l.queue| ==> InPhase(l, l.queue[i], Waiting)
    ensures var m := StepLane(StepLane(l, Release(holder)), TakeGrant(l.queue[0], false));
      forall i :: 0 < i < |l.queue| ==> InPhase(m, l.queue[i], Waiting)
  {
    hide LaneInv, StepLane;
    HandOver(l, holder);
    HolderNotQueued(l, holder);
    var m := StepLane(StepLane(l, Release(holder)), TakeGrant(l.queue[0], false));
    forall i | 0 < i < |l.queue| ensures InPhase(m, l.queue[i], Waiting) {
      assert l.queue[0] < l.queue[i] && l.queue[i] in l.queue;
    }
  }

  /** Nobody starves: whoever waits `k`-th and is not cancelled holds the token after the `k` before it took
      theirs and released, and the grants in between are theirs, in order of arrival. */
  lemma {:induction false} WaiterIsServed(l: Lane, holder: nat, k: nat)
    requires LaneInv(l) && (InPhase(l, holder, Holding) || InPhase(l, holder, MustRelease)) && k < |l.queue|
    requires forall i :: 0 <= i < |l.queue| ==> InPhase(l, l.queue[i], Waiting)
    ensures var m := Served(l, holder, k);
      && LaneInv(m) && InPhase(m, l.queue[k], Holding) && m.queue == l.queue[k + 1..]
      && m.granted == l.granted + l.queue[..k + 1]
      && (forall i :: k < i < |l.queue| ==> InPhase(m, l.queue[i], Waiting))
    decreases k
  {
    hide LaneInv, StepLane, OthersStay, Increasing;
    var q := l.queue;
    if k == 0 {
      HandOver(l, holder);
      BehindStay(l, holder);
      assert q[..1] == [q[0]];
    } else {
      WaiterIsServed(l, holder, k - 1);
      var m := Served(l, holder, k - 1);
      assert m.queue[0] == q[k];
      HandOver(m, q[k - 1]);
      BehindStay(m, q[k - 1]);
      forall i | k < i < |q| ensures InPhase(Served(l, holder, k), q[i], Waiting) {
        assert m.queue[i - k] == q[i];
      }
      assert q[..k + 1] == q[..k] + [q[k]];
    }
  }

  // ---------- the gate object ----------

  class AgentExecutionGate {
    var active: set<Agent>
    var queues: map<Agent, seq<nat>>

    ghost predicate Valid()
      reads this
    {
      forall a :: a in queues ==> a in active && queues[a] != []
    }

    function QueueOf(a: Agent): (q: seq<nat>)
      reads this
    {
      if a in queues then queues[a] else []
    }

    /** The lane `l` of Agent `a` has the gate's own data. */
    predicate Shows(l: Lane, a: Agent)
      reads this
    {
      l.active == (a in active) && l.queue == QueueOf(a)
    }

    constructor ()
      ensures Valid() && active == {} && queues == map[]
    {
      active, queues := {}, map[];
    }

    /** Acquire's first critical section. */
    method Enter(a: Agent, ticket: nat) returns (immediate: bool)
      requires Valid()
      modifies this
      ensures Valid() && active == old(active) + {a}
      ensures immediate <==> a !in old(active)
      ensures forall l: Lane :: old(Shows(l, a)) && l.next == ticket ==> Shows(StepArrive(l), a)
      ensures QueueOf(a) == if immediate then old(QueueOf(a)) else old(QueueOf(a)) + [ticket]
      ensures forall b :: b != a ==> QueueOf(b) == old(QueueOf(b))
    {
      if a !in active {
        active := active + {a};
        return true;
      }
      queues := queues[a := QueueOf(a) + [ticket]];
      immediate := false;
    }

    /** Acquire's critical section after cancellation: search the queue for the own waiter. */
    method Cancel(a: Agent, ticket: nat) returns (removed: bool)
      requires Valid()
      modifies this
      ensures Valid() && active == old(active)
      ensures removed <==> ticket in old(QueueOf(a))
      ensures forall l: Lane :: old(Shows(l, a)) && ticket in l.callers ==> Shows(StepWithdraw(l, ticket), a)
      ensures QueueOf(a) == Without(old(QueueOf(a)), ticket)
      ensures forall b :: b != a ==> QueueOf(b) == old(QueueOf(b))
    {
      var queue := QueueOf(a);
      removed := false;
      var index := 0;
      while index < |queue|
        invariant 0 <= index <= |queue| && !removed && queues == old(queues)
        invariant ticket !in queue[..index]
        invariant Without(queue, ticket) == queue[..index] + Without(queue[index..], ticket)
      {
        if queue[index] == ticket {
          var rest := queue[..index] + queue[index + 1..];
          assert queue[index..][1..] == queue[index + 1..];
          queues := if rest == [] then queues - {a} else queues[a := rest];
          return true;
        }
        assert queue[index..][1..] == queue[index + 1..];
        assert queue[..index + 1] == queue[..index] + [queue[index]];
        index := index + 1;
      }
      assert queue[..index] == queue;
    }

    /** release: hand the token to the head of the queue, or give it up. */
    method PassOn(a: Agent, holder: nat) returns (next: Option<nat>)
      requires Valid() && a in active
      modifies this
      ensures Valid()
      ensures forall l: Lane :: old(Shows(l, a)) && holder in l.callers ==> Shows(StepRelease(l, holder), a)
      ensures next == if old(QueueOf(a)) == [] then None else Some(old(QueueOf(a))[0])
      ensures QueueOf(a) == if next.None? then [] else old(QueueOf(a))[1..]
      ensures active == if next.None? then old(active) - {a} else old(active)
      ensures forall b :: b != a ==> QueueOf(b) == old(QueueOf(b))
    {
      var queue := QueueOf(a);
      if queue == [] {
        active := active - {a};
        queues := queues - {a};
        return None;
      }
      next := Some(queue[0]);
      queue := queue[1..];
      queues := if queue == [] then queues - {a} else queues[a := queue];
    }
  }
}
