/**
 Replaying a Run's event log from batches. A batch may be reordered, duplicated,
 overlapping or gapped; the reducer sorts it stably, skips what the cursor has
 passed and stops at the first gap.

 The output and the activity reducers share this loop and differ in the function
 `f` that applies one event.
 */
module RunReplay {
  import StableSort

  datatype Rec<E> = Rec(sequence: int, event: E)

  datatype Cursor<P> = Cursor(sequence: nat, state: P)

  // ---------- the stable sort by sequence ----------

  function Number<E>(r: Rec<E>): (n: int)
  {
    r.sequence
  }

  function Sort<E>(s: seq<Rec<E>>): (r: seq<Rec<E>>)
  {
    StableSort.Sort(s, Number)
  }

  predicate Has<E>(s: seq<Rec<E>>, n: int)
  {
    exists i :: 0 <= i < |s| && s[i].sequence == n
  }

  /** The first record numbered `n`. */
  function First<E>(s: seq<Rec<E>>, n: int): (r: Rec<E>)
    requires Has(s, n)
    ensures r in s && r.sequence == n
  {
    if s[0].sequence == n then s[0] else First(s[1..], n)
  }

  lemma {:induction false} InsertFirst<E>(x: Rec<E>, s: seq<Rec<E>>, n: int)
    ensures Has(StableSort.Insert(x, s, Number), n) <==> x.sequence == n || Has(s, n)
    ensures x.sequence == n ==> First(StableSort.Insert(x, s, Number), n) == x
    ensures x.sequence != n && Has(s, n) ==> First(StableSort.Insert(x, s, Number), n) == First(s, n)
  {
    var r := StableSort.Insert(x, s, Number);
    if s == [] {
      assert r[0] == x;
    } else if x.sequence <= s[0].sequence {
      assert r[0] == x && r[1..] == s;
      HasSplit(r, n);
    } else {
      InsertFirst(x, s[1..], n);
      assert r[0] == s[0] && r[1..] == StableSort.Insert(x, s[1..], Number);
      HasSplit(r, n);
      HasSplit(s, n);
    }
  }

  lemma HasSplit<E>(s: seq<Rec<E>>, n: int)
    requires s != []
    ensures Has(s, n) <==> s[0].sequence == n || Has(s[1..], n)
  {
    if Has(s[1..], n) {
      var i :| 0 <= i < |s[1..]| && s[1..][i].sequence == n;
      assert s[i + 1].sequence == n;
    }
    if Has(s, n) && s[0].sequence != n {
      var i :| 0 <= i < |s| && s[i].sequence == n;
      assert s[1..][i - 1].sequence == n;
    }
  }

  lemma {:induction false} SortFirst<E>(s: seq<Rec<E>>, n: int)
    ensures Has(Sort(s), n) <==> Has(s, n)
    ensures Has(s, n) ==> First(Sort(s), n) == First(s, n)
  {
    if s != [] {
      SortFirst(s[1..], n);
      InsertFirst(s[0], Sort(s[1..]), n);
      HasSplit(s, n);
    }
  }

  /** Sorting orders the batch and keeps, for each number, which record comes first. */
  lemma SortStable<E(!new)>(s: seq<Rec<E>>, n: int)
    ensures StableSort.Sorted(Sort(s), Number) && |Sort(s)| == |s|
    ensures Has(Sort(s), n) <==> Has(s, n)
    ensures Has(s, n) ==> First(Sort(s), n) == First(s, n)
  {
    SortFirst(s, n);
    StableSort.SortKeeps(s, Number);
  }

  // ---------- what a batch does, and the loop that does it ----------

  function CountAbove<E>(s: seq<Rec<E>>, n: int): (c: nat)
  {
    if s == [] then 0 else (if s[0].sequence > n then 1 else 0) + CountAbove(s[1..], n)
  }

  lemma {:induction false} CountAboveStep<E>(s: seq<Rec<E>>, n: int)
    ensures CountAbove(s, n + 1) <= CountAbove(s, n)
    ensures Has(s, n + 1) ==> CountAbove(s, n + 1) < CountAbove(s, n)
  {
    if s != [] {
      CountAboveStep(s[1..], n);
      HasSplit(s, n + 1);
    }
  }

  /** Apply the next record while the batch has one numbered right after the cursor. */
  function Advance<P, E>(c: Cursor<P>, batch: seq<Rec<E>>, f: (P, nat, E) -> P): (r: Cursor<P>)
    decreases CountAbove(batch, c.sequence)
  {
    var n := c.sequence + 1;
    if Has(batch, n) then
      CountAboveStep(batch, c.sequence);
      Advance(Cursor(n, f(c.state, n, First(batch, n).event)), batch, f)
    else c
  }

  /** The reducer's loop computes exactly Advance, for every batch. */
  method Reduce<P, E(!new)>(current: Cursor<P>, records: seq<Rec<E>>, f: (P, nat, E) -> P) returns (r: Cursor<P>)
    ensures r == Advance(current, records, f)
  {
    r := current;
    var sorted := Sort(records);
    for i := 0 to |sorted|
      invariant forall k :: 0 <= k < i ==> sorted[k].sequence <= r.sequence
      invariant Advance(r, records, f) == Advance(current, records, f)
    {
      SortStable(records, r.sequence + 1);
      if sorted[i].sequence <= r.sequence {
        continue;
      }
      if sorted[i].sequence != r.sequence + 1 {
        assert !Has(sorted, r.sequence + 1);
        return;
      }
      FirstAt(sorted, i);
      r := Cursor(r.sequence + 1, f(r.state, r.sequence + 1, sorted[i].event));
    }
    SortStable(records, r.sequence + 1);
    assert !Has(sorted, r.sequence + 1);
  }

  lemma {:induction false} FirstAt<E>(s: seq<Rec<E>>, i: nat)
    requires i < |s| && forall k :: 0 <= k < i ==> s[k].sequence < s[i].sequence
    ensures Has(s, s[i].sequence) && First(s, s[i].sequence) == s[i]
  {
    assert Has(s, s[i].sequence);
    if i > 0 {
      assert s[1..][i - 1] == s[i];
      forall k | 0 <= k < i - 1 ensures s[1..][k].sequence < s[1..][i - 1].sequence {
        assert s[1..][k] == s[k + 1];
      }
      FirstAt(s[1..], i - 1);
    }
  }

  // ---------- agreement with the in-order replay of one log ----------

  /** Applying the whole log in order. */
  function Fold<P, E>(init: P, log: seq<E>, f: (P, nat, E) -> P): (p: P)
  {
    if log == [] then init else f(Fold(init, log[..|log| - 1], f), |log|, log[|log| - 1])
  }

  /** Every record of the batch is the log's event of that number. */
  predicate Drawn<E(==)>(batch: seq<Rec<E>>, log: seq<E>)
  {
    forall i :: 0 <= i < |batch| ==> 1 <= batch[i].sequence <= |log| && batch[i].event == log[batch[i].sequence - 1]
  }

  /** The cursor's state is the replay of the log prefix of its length. */
  predicate Faithful<P(==), E>(c: Cursor<P>, init: P, log: seq<E>, f: (P, nat, E) -> P)
  {
    c.sequence <= |log| && c.state == Fold(init, log[..c.sequence], f)
  }

  /** One batch: still the replay of a prefix; the cursor moves exactly over the numbers present without a gap. */
  lemma {:induction false} AdvanceFaithful<P, E>(
    c: Cursor<P>, batch: seq<Rec<E>>, init: P, log: seq<E>, f: (P, nat, E) -> P)
    requires Faithful(c, init, log, f) && Drawn(batch, log)
    ensures var r := Advance(c, batch, f);
      && Faithful(r, init, log, f) && c.sequence <= r.sequence
      && (forall n :: c.sequence < n <= r.sequence ==> Has(batch, n))
      && !Has(batch, r.sequence + 1)
    decreases CountAbove(batch, c.sequence)
  {
    var n := c.sequence + 1;
    if Has(batch, n) {
      var e := First(batch, n);
      var i :| 0 <= i < |batch| && batch[i] == e;
      assert e.event == log[n - 1];
      assert log[..n][..n - 1] == log[..c.sequence];
      CountAboveStep(batch, c.sequence);
      AdvanceFaithful(Cursor(n, f(c.state, n, e.event)), batch, init, log, f);
    }
  }

  function AdvanceAll<P, E>(c: Cursor<P>, batches: seq<seq<Rec<E>>>, f: (P, nat, E) -> P): (r: Cursor<P>)
    decreases |batches|
  {
    if batches == [] then c else Advance(AdvanceAll(c, batches[..|batches| - 1], f), batches[|batches| - 1], f)
  }

  /** Any sequence of batches of one log yields the in-order replay of the prefix the cursor names,
      and the cursor never goes back. */
  lemma {:induction false} BatchesFaithful<P, E>(
    c: Cursor<P>, batches: seq<seq<Rec<E>>>, init: P, log: seq<E>, f: (P, nat, E) -> P)
    requires Faithful(c, init, log, f) && forall i :: 0 <= i < |batches| ==> Drawn(batches[i], log)
    ensures Faithful(AdvanceAll(c, batches, f), init, log, f) && c.sequence <= AdvanceAll(c, batches, f).sequence
    decreases |batches|
  {
    if batches != [] {
      BatchesFaithful(c, batches[..|batches| - 1], init, log, f);
      AdvanceFaithful(AdvanceAll(c, batches[..|batches| - 1], f), batches[|batches| - 1], init, log, f);
    }
  }

  /** A batch that has everything after the cursor brings any client up to the full replay. */
  lemma CompleteBatchCatchesUp<P, E>(c: Cursor<P>, batch: seq<Rec<E>>, init: P, log: seq<E>, f: (P, nat, E) -> P)
    requires Faithful(c, init, log, f) && Drawn(batch, log)
    requires forall n :: c.sequence < n <= |log| ==> Has(batch, n)
    ensures Advance(c, batch, f) == Cursor(|log|, Fold(init, log, f))
  {
    AdvanceFaithful(c, batch, init, log, f);
    assert Advance(c, batch, f).sequence == |log|;
    assert log[..|log|] == log;
  }
}
