/**
 The reference-counted lock of one materialization Run. A thread registers under
 the map mutex, then locks, unlocks, and finally deregisters under the map mutex.
 The entries of different Runs are independent, so one Run is modelled.
 */
module RunLocks {
  import opened Maps
  import opened Options

  datatype Phase = Wanting | Inside | Leaving
  datatype Thread = Thread(lock: nat, phase: Phase)

  /** `entry` is the map entry of the Run, `references` and `holder` belong to the lock objects. */
  datatype RunLock = RunLock(
    entry: Option<nat>, references: map<nat, int>, holder: map<nat, nat>, threads: map<nat, Thread>, nextLock: nat)

  datatype Act = Register(thread: nat) | Lock(thread: nat) | Unlock(thread: nat) | Deregister(thread: nat)

  const UNUSED := RunLock(None, map[], map[], map[], 0)

  function StepLock(s: RunLock, a: Act): (r: RunLock)
  {
    var t := a.thread;
    match a
    case Register(_) =>
      if t in s.threads then s
      else if s.entry.None? then
        s.(entry := Some(s.nextLock), references := s.references[s.nextLock := 1], nextLock := s.nextLock + 1,
           threads := s.threads[t := Thread(s.nextLock, Wanting)])
      else if s.entry.value in s.references then
        s.(references := s.references[s.entry.value := s.references[s.entry.value] + 1],
            threads := s.threads[t := Thread(s.entry.value, Wanting)])
      else s
    case Lock(_) =>
      if t in s.threads && s.threads[t].phase == Wanting && s.threads[t].lock !in s.holder then
        s.(holder := s.holder[s.threads[t].lock := t], threads := s.threads[t := s.threads[t].(phase := Inside)])
      else s
    case Unlock(_) =>
      if t in s.threads && s.threads[t].phase == Inside then
        s.(holder := s.holder - {s.threads[t].lock}, threads := s.threads[t := s.threads[t].(phase := Leaving)])
      else s
    case Deregister(_) =>
      if t in s.threads && s.threads[t].phase == Leaving && s.threads[t].lock in s.references then
        var l := s.threads[t].lock;
        var n := s.references[l] - 1;
        s.(references := s.references[l := n], threads := s.threads - {t}, entry := if n == 0 then None else s.entry)
      else s
  }

  function RunLockActs(s: RunLock, acts: seq<Act>): (r: RunLock)
    decreases |acts|
  {
    if acts == [] then s else StepLock(RunLockActs(s, acts[..|acts| - 1]), acts[|acts| - 1])
  }

  ghost predicate LockInv(s: RunLock)
  {
    && (s.entry.None? <==> s.threads == map[])
    && (forall t :: t in s.threads ==> s.entry == Some(s.threads[t].lock))
    && (s.entry.Some? ==>
        && s.entry.value in s.references && s.references[s.entry.value] == |s.threads|
        && s.entry.value < s.nextLock)
    && (forall l :: l in s.holder ==>
        l < s.nextLock && s.holder[l] in s.threads && s.threads[s.holder[l]] == Thread(l, Inside))
    && (forall t :: t in s.threads && s.threads[t].phase == Inside ==>
        s.threads[t].lock in s.holder && s.holder[s.threads[t].lock] == t)
  }

  lemma RegisterFirst(s: RunLock, t: nat)
    requires LockInv(s) && s.entry.None?
    ensures LockInv(StepLock(s, Register(t)))
  {
    OneMoreKey(s.threads, t, Thread(s.nextLock, Wanting));
  }

  lemma RegisterAnother(s: RunLock, t: nat)
    requires LockInv(s) && s.entry.Some? && t !in s.threads
    ensures LockInv(StepLock(s, Register(t)))
  {
    OneMoreKey(s.threads, t, Thread(s.entry.value, Wanting));
  }

  lemma RegisterKeeps(s: RunLock, t: nat)
    requires LockInv(s)
    ensures LockInv(StepLock(s, Register(t)))
  {
    hide LockInv;
    if t !in s.threads {
      if s.entry.None? {
        RegisterFirst(s, t);
      } else {
        RegisterAnother(s, t);
      }
    }
  }

  lemma DeregisterKeeps(s: RunLock, t: nat)
    requires LockInv(s)
    ensures LockInv(StepLock(s, Deregister(t)))
  {
    var r := StepLock(s, Deregister(t));
    if t in s.threads && s.threads[t].phase == Leaving {
      assert s.threads.Keys == r.threads.Keys + {t};
      assert |s.threads| == |r.threads| + 1;
      assert r.threads == map[] <==> |r.threads| == 0;
    }
  }

  lemma MutexKeeps(s: RunLock, a: Act)
    requires LockInv(s) && (a.Lock? || a.Unlock?)
    ensures LockInv(StepLock(s, a))
  {
    if a.thread in s.threads {
      assert StepLock(s, a).threads.Keys == s.threads.Keys;
      assert |StepLock(s, a).threads| == |s.threads|;
    }
  }

  lemma LockStepKeeps(s: RunLock, a: Act)
    requires LockInv(s)
    ensures LockInv(StepLock(s, a))
  {
    hide LockInv, StepLock;
    match a {
      case Register(t) => RegisterKeeps(s, t);
      case Deregister(t) => DeregisterKeeps(s, t);
      case _ => MutexKeeps(s, a);
    }
  }

  lemma {:induction false} RunLockKeeps(s: RunLock, acts: seq<Act>)
    requires LockInv(s)
    ensures LockInv(RunLockActs(s, acts))
    decreases |acts|
  {
    hide LockInv, StepLock;
    if acts != [] {
      RunLockKeeps(s, acts[..|acts| - 1]);
      LockStepKeeps(RunLockActs(s, acts[..|acts| - 1]), acts[|acts| - 1]);
    }
  }

  ghost predicate ReachableLock(s: RunLock)
  {
    exists acts :: s == RunLockActs(UNUSED, acts)
  }

  lemma ReachableLockInv(s: RunLock)
    requires ReachableLock(s)
    ensures LockInv(s)
  {
    var acts :| s == RunLockActs(UNUSED, acts);
    RunLockKeeps(UNUSED, acts);
  }

  /** All threads contending for one Run share a single lock object. */
  lemma OneLockObject(s: RunLock, t: nat, u: nat)
    requires ReachableLock(s) && t in s.threads && u in s.threads
    ensures s.threads[t].lock == s.threads[u].lock && s.entry == Some(s.threads[t].lock)
  {
    ReachableLockInv(s);
  }

  /** At most one thread is inside the critical section. */
  lemma OneThreadInside(s: RunLock, t: nat, u: nat)
    requires ReachableLock(s) && t in s.threads && u in s.threads && s.threads[t].phase == Inside
      && s.threads[u].phase == Inside
    ensures t == u
  {
    ReachableLockInv(s);
  }

  /** The map entry exists exactly while its reference count is positive, and the count counts the threads. */
  lemma EntryExactlyWhileReferenced(s: RunLock)
    requires ReachableLock(s)
    ensures s.entry.Some? <==> |s.threads| > 0
    ensures s.entry.Some? ==> s.entry.value in s.references && s.references[s.entry.value] == |s.threads|
  {
    ReachableLockInv(s);
  }

  // ---------- what each step answers ----------

  /** A new thread joins the Run's lock, on a lock object of its own exactly when nobody is registered. */
  lemma RegisterAnswer(s: RunLock, t: nat)
    requires ReachableLock(s) && t !in s.threads
    ensures var r := StepLock(s, Register(t));
      && r.entry.Some? && r.threads == s.threads[t := Thread(r.entry.value, Wanting)] && r.holder == s.holder
      && r.entry.value in r.references && r.references[r.entry.value] == |s.threads| + 1
      && (s.threads != map[] ==> r.entry == s.entry)
      && (s.threads == map[] ==> r.entry.value !in s.holder)
  {
    ReachableLockInv(s);
  }

  /** A registered thread gets in exactly when nobody is inside; leaving frees the lock and the last thread to
      deregister removes the entry. */
  lemma MutexAnswer(s: RunLock, t: nat)
    requires ReachableLock(s) && t in s.threads
    ensures s.threads[t].phase == Wanting ==>
      var r := StepLock(s, Lock(t));
      if exists u :: u in s.threads && s.threads[u].phase == Inside then r == s
      else r.threads == s.threads[t := Thread(s.threads[t].lock, Inside)] && r.entry == s.entry
    ensures s.threads[t].phase == Inside ==>
      var r := StepLock(s, Unlock(t));
      && r.threads == s.threads[t := Thread(s.threads[t].lock, Leaving)] && s.threads[t].lock !in r.holder
      && r.entry == s.entry && r.references == s.references
    ensures s.threads[t].phase == Leaving ==>
      var r := StepLock(s, Deregister(t));
      && r.threads == s.threads - {t} && r.holder == s.holder
      && r.entry == (if s.threads.Keys == {t} then None else s.entry)
  {
    ReachableLockInv(s);
    if s.threads[t].phase == Leaving {
      assert s.threads.Keys == (s.threads - {t}).Keys + {t};
      assert |s.threads| == |s.threads - {t}| + 1;
      assert |s.threads - {t}| == 0 <==> s.threads.Keys == {t};
    }
  }

  lemma ReachableStep(s: RunLock, a: Act)
    requires ReachableLock(s)
    ensures ReachableLock(StepLock(s, a))
  {
    hide StepLock;
    var acts :| s == RunLockActs(UNUSED, acts);
    assert (acts + [a])[..|acts|] == acts;
    assert RunLockActs(UNUSED, acts + [a]) == StepLock(s, a);
  }

  /** Getting in: the thread is inside and everybody else is where they were. */
  lemma GetsIn(s: RunLock, t: nat)
    requires ReachableLock(s) && t !in s.threads && forall u :: u in s.threads ==> s.threads[u].phase != Inside
    ensures var inside := StepLock(StepLock(s, Register(t)), Lock(t));
      && ReachableLock(inside) && inside.entry.Some?
      && inside.threads == s.threads[t := Thread(inside.entry.value, Inside)]
      && (s.threads != map[] ==> inside.entry == s.entry)
  {
    hide StepLock, ReachableLock;
    var joined := StepLock(s, Register(t));
    RegisterAnswer(s, t);
    ReachableStep(s, Register(t));
    MutexAnswer(joined, t);
    ReachableStep(joined, Lock(t));
  }

  /** Getting out: the thread is gone, and with it the entry when it was alone. */
  lemma GetsOut(s: RunLock, t: nat)
    requires ReachableLock(s) && t in s.threads && s.threads[t].phase == Inside
    ensures var after := StepLock(StepLock(s, Unlock(t)), Deregister(t));
      && ReachableLock(after) && after.threads == s.threads - {t}
      && after.entry == (if s.threads.Keys == {t} then None else s.entry)
  {
    hide StepLock, ReachableLock;
    MutexAnswer(s, t);
    var left := StepLock(s, Unlock(t));
    ReachableStep(s, Unlock(t));
    MutexAnswer(left, t);
    ReachableStep(left, Deregister(t));
    assert left.threads.Keys == s.threads.Keys;
  }

  /** A whole pass of a thread that finds nobody inside: it gets in, and after it left everybody else is
      where they were, and the entry with its lock object is what it was. */
  lemma PassThrough(s: RunLock, t: nat)
    requires ReachableLock(s) && t !in s.threads && forall u :: u in s.threads ==> s.threads[u].phase != Inside
    ensures var inside := StepLock(StepLock(s, Register(t)), Lock(t));
      && t in inside.threads && inside.threads[t].phase == Inside
      && var after := StepLock(StepLock(inside, Unlock(t)), Deregister(t));
      after.threads == s.threads && after.entry == s.entry && ReachableLock(after)
  {
    hide StepLock, ReachableLock;
    GetsIn(s, t);
    var inside := StepLock(StepLock(s, Register(t)), Lock(t));
    GetsOut(inside, t);
    EntryExactlyWhileReferenced(s);
    assert inside.threads - {t} == s.threads;
    if s.threads != map[] {
      var u :| u in s.threads;
      assert u in inside.threads.Keys;
    } else {
      assert inside.threads.Keys == {t};
    }
  }

  // ---------- the map of lock objects ----------

  class LockObject {
    var references: int

    constructor ()
      ensures references == 0
    {
      references := 0;
    }
  }

  class Materializer {
    var runLocks: map<nat, LockObject>

    ghost predicate Valid()
      reads this, runLocks.Values
    {
      && (forall run :: run in runLocks ==> runLocks[run].references > 0)
      && (forall a, b :: a in runLocks && b in runLocks && a != b ==> runLocks[a] != runLocks[b])
    }

    constructor ()
      ensures Valid() && runLocks == map[]
    {
      runLocks := map[];
    }

    /** acquireRun up to the point where it waits for the lock itself. */
    method RegisterThread(run: nat) returns (lock: LockObject)
      requires Valid()
      modifies this, runLocks.Values
      ensures Valid() && run in runLocks && runLocks[run] == lock
      ensures run in old(runLocks) ==>
        lock == old(runLocks[run]) && lock.references == old(runLocks[run].references) + 1
            && runLocks == old(runLocks)
      ensures run !in old(runLocks) ==> fresh(lock) && lock.references == 1 && runLocks == old(runLocks)[run := lock]
      ensures forall other :: other in old(runLocks) && other != run ==>
        runLocks[other].references == old(runLocks[other].references)
    {
      if run !in runLocks {
        lock := new LockObject();
        runLocks := runLocks[run := lock];
      } else {
        lock := runLocks[run];
      }
      lock.references := lock.references + 1;
    }

    /** The release function after it unlocked: the last reference deletes the entry. */
    method DeregisterThread(run: nat, lock: LockObject)
      requires Valid() && run in runLocks && runLocks[run] == lock
      modifies this, lock
      ensures Valid() && lock.references == old(lock.references) - 1
      ensures runLocks == if lock.references == 0 then old(runLocks) - {run} else old(runLocks)
      ensures forall other :: other in runLocks && other != run ==>
        runLocks[other].references == old(runLocks[other].references)
    {
      lock.references := lock.references - 1;
      if lock.references == 0 {
        runLocks := runLocks - {run};
      }
    }
  }
}
