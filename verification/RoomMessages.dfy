/**
 Merging room messages: a map filled in order (later wins), sorted by sequence and
 cut to the last `historyLimit` messages.
 */
module RoomMessages {
  import StableSort

  datatype Msg = Msg(id: nat, sequence: int, body: nat)

  /** Each message id has one fixed sequence and no two ids share one. */
  predicate Coherent(ms: seq<Msg>)
  {
    forall x, y :: x in ms && y in ms ==> (x.id == y.id <==> x.sequence == y.sequence)
  }

  // ---------- the code's own data structures ----------

  /** Map.set on an insertion-ordered map: replace in place or append. */
  function Put(m: seq<Msg>, x: Msg): (r: seq<Msg>)
  {
    if m == [] then [x] else if m[0].id == x.id then [x] + m[1..] else [m[0]] + Put(m[1..], x)
  }

  function PutAll(m: seq<Msg>, xs: seq<Msg>): (r: seq<Msg>)
    decreases |xs|
  {
    if xs == [] then m else Put(PutAll(m, xs[..|xs| - 1]), xs[|xs| - 1])
  }

  function Sequence(m: Msg): (n: int)
  {
    m.sequence
  }

  /** The stable sort by sequence. */
  function SortMsgs(s: seq<Msg>): (r: seq<Msg>)
  {
    StableSort.Sort(s, Sequence)
  }

  function TakeLast(n: nat, s: seq<Msg>): (r: seq<Msg>)
  {
    if |s| <= n then s else s[|s| - n..]
  }

  /** slice(-n): for n = 0 this is slice(0), the whole list. */
  function SliceLast(s: seq<Msg>, n: nat): (r: seq<Msg>)
  {
    if n == 0 then s else TakeLast(n, s)
  }

  function Merge(current: seq<Msg>, incoming: seq<Msg>, limit: nat): (r: seq<Msg>)
  {
    SliceLast(SortMsgs(PutAll([], current + incoming)), limit)
  }

  /** One filling loop. */
  method Fill(m: seq<Msg>, xs: seq<Msg>) returns (r: seq<Msg>)
    ensures r == PutAll(m, xs)
  {
    r := m;
    for i := 0 to |xs|
      invariant r == PutAll(m, xs[..i])
    {
      assert xs[..i + 1][..i] == xs[..i];
      r := Put(r, xs[i]);
    }
    assert xs[..|xs|] == xs;
  }

  lemma {:induction false} PutAllAppend(m: seq<Msg>, xs: seq<Msg>, ys: seq<Msg>)
    ensures PutAll(m, xs + ys) == PutAll(PutAll(m, xs), ys)
    decreases |ys|
  {
    if ys == [] {
      assert xs + ys == xs;
    } else {
      assert (xs + ys)[..|xs + ys| - 1] == xs + ys[..|ys| - 1];
      PutAllAppend(m, xs, ys[..|ys| - 1]);
    }
  }

  /** Fill from both lists, sort and cut. */
  method MergeRoomMessages(current: seq<Msg>, incoming: seq<Msg>, limit: nat) returns (r: seq<Msg>)
    ensures r == Merge(current, incoming, limit)
  {
    var messages := Fill([], current);
    messages := Fill(messages, incoming);
    PutAllAppend([], current, incoming);
    r := SliceLast(SortMsgs(messages), limit);
  }

  // ---------- the reference: one sorted list, updated message by message ----------

  predicate Strict(s: seq<Msg>)
  {
    StableSort.Strict(s, Sequence)
  }

  function Upsert(s: seq<Msg>, x: Msg): (r: seq<Msg>)
  {
    if s == [] then [x]
    else
      var last := s[|s| - 1];
      if last.sequence < x.sequence then s + [x]
      else if last.sequence == x.sequence then s[..|s| - 1] + [x]
      else Upsert(s[..|s| - 1], x) + [last]
  }

  function UpsertAll(s: seq<Msg>, xs: seq<Msg>): (r: seq<Msg>)
    decreases |xs|
  {
    if xs == [] then s else Upsert(UpsertAll(s, xs[..|xs| - 1]), xs[|xs| - 1])
  }

  lemma {:induction false} UpsertMembers(s: seq<Msg>, x: Msg)
    requires Strict(s)
    ensures Strict(Upsert(s, x))
    ensures forall y :: y in Upsert(s, x) <==> y == x || (y in s && y.sequence != x.sequence)
  {
    if s != [] {
      var last := s[|s| - 1];
      var init := s[..|s| - 1];
      assert forall y :: y in s <==> y == last || y in init;
      if x.sequence < last.sequence {
        UpsertMembers(init, x);
        var r := Upsert(init, x);
        forall i | 0 <= i < |r| ensures r[i].sequence < last.sequence {
          assert r[i] in r;
        }
      } else {
        assert forall y :: y in init ==> y.sequence < last.sequence;
      }
    }
  }

  lemma {:induction false} PutMembers(m: seq<Msg>, x: Msg)
    requires forall i, j :: 0 <= i < j < |m| ==> m[i].id != m[j].id
    ensures forall i, j :: 0 <= i < j < |Put(m, x)| ==> Put(m, x)[i].id != Put(m, x)[j].id
    ensures forall y :: y in Put(m, x) <==> y == x || (y in m && y.id != x.id)
  {
    if m != [] {
      assert forall y :: y in m <==> y == m[0] || y in m[1..];
      if m[0].id != x.id {
        PutMembers(m[1..], x);
        var r := Put(m[1..], x);
        forall i | 0 <= i < |r| ensures r[i].id != m[0].id {
          assert r[i] in r;
        }
      } else {
        assert forall y :: y in m[1..] ==> y.id != x.id;
      }
    }
  }

  lemma SortMembers(s: seq<Msg>)
    requires forall i, j :: 0 <= i < j < |s| ==> s[i].sequence != s[j].sequence
    ensures Strict(SortMsgs(s)) && forall y :: y in SortMsgs(s) <==> y in s
  {
    StableSort.SortStrict(s, Sequence);
    StableSort.SortKeeps(s, Sequence);
  }

  lemma LastIsGreatest(s: seq<Msg>, y: Msg)
    requires Strict(s) && y in s
    ensures y.sequence <= s[|s| - 1].sequence && (y.sequence == s[|s| - 1].sequence ==> y == s[|s| - 1])
  {
    var i :| 0 <= i < |s| && s[i] == y;
  }

  lemma SomeMember(s: seq<Msg>)
    ensures s == [] || exists y :: y in s
  {
    if s != [] {
      assert s[0] in s;
    }
  }

  /** A strictly sorted list is determined by its members. */
  lemma {:induction false} StrictUnique(s: seq<Msg>, t: seq<Msg>)
    requires Strict(s) && Strict(t) && forall y :: y in s <==> y in t
    ensures s == t
    decreases |s|
  {
    if |s| > 0 && |t| > 0 {
      var a := s[|s| - 1];
      var b := t[|t| - 1];
      LastIsGreatest(s, b);
      LastIsGreatest(t, a);
      var s' := s[..|s| - 1];
      var t' := t[..|t| - 1];
      assert forall y :: y in s <==> y == a || y in s';
      assert forall y :: y in t <==> y == a || y in t';
      assert a !in s' && a !in t';
      StrictUnique(s', t');
    } else {
      SomeMember(s);
      SomeMember(t);
    }
  }

  /** Filling the map and filling the sorted list keep the same messages. */
  lemma {:induction false} FillAgrees(ms: seq<Msg>)
    requires Coherent(ms)
    ensures var p := PutAll([], ms); var u := UpsertAll([], ms);
      && (forall i, j :: 0 <= i < j < |p| ==> p[i].id != p[j].id)
      && Strict(u) && (forall y :: y in p <==> y in u) && (forall y :: y in u ==> y in ms)
  {
    if ms != [] {
      var before := ms[..|ms| - 1];
      var x := ms[|ms| - 1];
      assert forall y :: y in ms <==> y == x || y in before;
      FillAgrees(before);
      PutMembers(PutAll([], before), x);
      UpsertMembers(UpsertAll([], before), x);
      forall y | y in UpsertAll([], before) ensures y.id == x.id <==> y.sequence == x.sequence {
        assert y in ms && x in ms;
      }
    }
  }

  /** On coherent messages the code's merge is the sorted list, cut. */
  lemma MergeIsUpsert(current: seq<Msg>, incoming: seq<Msg>, limit: nat)
    requires Coherent(current + incoming)
    ensures Merge(current, incoming, limit) == SliceLast(UpsertAll([], current + incoming), limit)
  {
    var ms := current + incoming;
    FillAgrees(ms);
    var p := PutAll([], ms);
    forall i, j | 0 <= i < j < |p| ensures p[i].sequence != p[j].sequence {
      assert p[i] in p && p[j] in p;
      assert p[i] in ms && p[j] in ms;
    }
    SortMembers(p);
    StrictUnique(SortMsgs(p), UpsertAll([], ms));
  }

  // ---------- bounded merging ----------

  /** Cutting before an update changes nothing that the final cut keeps. */
  lemma {:induction false} CutThenUpsert(n: nat, s: seq<Msg>, x: Msg)
    ensures TakeLast(n, Upsert(TakeLast(n, s), x)) == TakeLast(n, Upsert(s, x))
  {
    if |s| > n > 0 {
      var last := s[|s| - 1];
      var init := s[..|s| - 1];
      var cut := TakeLast(n, s);
      assert cut[..|cut| - 1] == TakeLast(n - 1, init) && cut[|cut| - 1] == last;
      if x.sequence < last.sequence {
        CutThenUpsert(n - 1, init, x);
        TakeLastAppend(n, Upsert(init, x), last);
        TakeLastAppend(n, Upsert(TakeLast(n - 1, init), x), last);
      } else if last.sequence == x.sequence {
        TakeLastAppend(n, init, x);
        TakeLastAppend(n, TakeLast(n - 1, init), x);
      } else {
        TakeLastAppend(n, s, x);
        TakeLastAppend(n, cut, x);
      }
    }
  }

  lemma TakeLastAppend(n: nat, s: seq<Msg>, x: Msg)
    requires n > 0
    ensures TakeLast(n, s + [x]) == TakeLast(n - 1, s) + [x]
    ensures TakeLast(n - 1, TakeLast(n - 1, s)) == TakeLast(n - 1, s)
    ensures TakeLast(n - 1, TakeLast(n, s)) == TakeLast(n - 1, s)
  {
  }

  lemma {:induction false} CutThenUpsertAll(n: nat, s: seq<Msg>, xs: seq<Msg>)
    ensures TakeLast(n, UpsertAll(TakeLast(n, s), xs)) == TakeLast(n, UpsertAll(s, xs))
    decreases |xs|
  {
    if xs != [] {
      var before := xs[..|xs| - 1];
      var x := xs[|xs| - 1];
      CutThenUpsertAll(n, s, before);
      CutThenUpsert(n, UpsertAll(s, before), x);
      CutThenUpsert(n, UpsertAll(TakeLast(n, s), before), x);
    }
  }

  lemma {:induction false} UpsertAllAppend(s: seq<Msg>, xs: seq<Msg>, ys: seq<Msg>)
    ensures UpsertAll(s, xs + ys) == UpsertAll(UpsertAll(s, xs), ys)
    decreases |ys|
  {
    if ys == [] {
      assert xs + ys == xs;
    } else {
      assert (xs + ys)[..|xs + ys| - 1] == xs + ys[..|ys| - 1];
      UpsertAllAppend(s, xs, ys[..|ys| - 1]);
    }
  }

  lemma {:induction false} UpsertSorted(s: seq<Msg>)
    requires Strict(s)
    ensures UpsertAll([], s) == s
  {
    if s != [] {
      UpsertSorted(s[..|s| - 1]);
    }
  }

  lemma StrictCut(s: seq<Msg>, n: nat)
    requires Strict(s)
    ensures Strict(SliceLast(s, n)) && forall y :: y in SliceLast(s, n) ==> y in s
  {
  }

  /** Merging increment by increment with a bounded history is merging everything at once. */
  lemma BoundedMergeRefines(a: seq<Msg>, b: seq<Msg>, c: seq<Msg>, limit: nat)
    requires Coherent(a + b + c)
    ensures Merge(Merge(a, b, limit), c, limit) == Merge(a, b + c, limit)
  {
    var ab := a + b;
    assert forall y :: y in a + b + c <==> y in ab || y in c;
    assert a + (b + c) == ab + c;
    assert Coherent(ab);
    MergeIsUpsert(a, b, limit);
    MergeIsUpsert(a, b + c, limit);
    FillAgrees(ab);
    var full := UpsertAll([], ab);
    var m := SliceLast(full, limit);
    StrictCut(full, limit);
    assert Coherent(m + c) by {
      assert forall y :: y in m + c ==> y in a + b + c;
    }
    MergeIsUpsert(m, c, limit);
    UpsertAllAppend([], m, c);
    UpsertSorted(m);
    UpsertAllAppend([], ab, c);
    if limit > 0 {
      CutThenUpsertAll(limit, full, c);
    }
  }

  /** The last message of this id in `ms` is `y`. */
  predicate LastWord(ms: seq<Msg>, y: Msg)
  {
    exists i :: 0 <= i < |ms| && ms[i] == y && forall j :: i < j < |ms| ==> ms[j].id != y.id
  }

  lemma LastWordStep(ms: seq<Msg>, y: Msg)
    requires ms != []
    ensures var x := ms[|ms| - 1]; LastWord(ms, y) <==> y == x || (LastWord(ms[..|ms| - 1], y) && y.id != x.id)
  {
    var before := ms[..|ms| - 1];
    var x := ms[|ms| - 1];
    if LastWord(before, y) && y.id != x.id {
      var i :| 0 <= i < |before| && before[i] == y && forall j :: i < j < |before| ==> before[j].id != y.id;
      assert ms[i] == y && forall j :: i < j < |ms| ==> ms[j].id != y.id;
    }
    if y == x {
      assert ms[|ms| - 1] == y;
    }
    if LastWord(ms, y) && y != x {
      var i :| 0 <= i < |ms| && ms[i] == y && forall j :: i < j < |ms| ==> ms[j].id != y.id;
      assert before[i] == y && forall j :: i < j < |before| ==> before[j].id != y.id;
    }
  }

  lemma {:induction false} UpsertLastWord(ms: seq<Msg>, y: Msg)
    requires Coherent(ms)
    ensures y in UpsertAll([], ms) <==> LastWord(ms, y)
  {
    if ms != [] {
      var before := ms[..|ms| - 1];
      var x := ms[|ms| - 1];
      assert forall z :: z in ms <==> z == x || z in before;
      UpsertLastWord(before, y);
      FillAgrees(before);
      UpsertMembers(UpsertAll([], before), x);
      LastWordStep(ms, y);
      hide LastWord;
      assert x in ms;
      assert y in UpsertAll([], before) ==> y in ms;
    }
  }

  /** The result is strictly sorted, holds each id once with its latest version, and is the part of the
      complete merge with the greatest sequences. */
  lemma MergeMeaning(a: seq<Msg>, b: seq<Msg>, limit: nat, y: Msg)
    requires Coherent(a + b)
    ensures Strict(Merge(a, b, limit))
    ensures y in Merge(a, b, 0) <==> LastWord(a + b, y)
    ensures limit > 0 ==> Merge(a, b, limit) == TakeLast(limit, Merge(a, b, 0))
  {
    MergeIsUpsert(a, b, limit);
    MergeIsUpsert(a, b, 0);
    FillAgrees(a + b);
    StrictCut(UpsertAll([], a + b), limit);
    UpsertLastWord(a + b, y);
  }
}
