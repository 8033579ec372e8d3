/** A stable sort by an integer key. */
module StableSort {

  function Insert<T>(x: T, s: seq<T>, key: T -> int): (r: seq<T>)
  {
    if s == [] then [x] else if key(x) <= key(s[0]) then [x] + s else [s[0]] + Insert(x, s[1..], key)
  }

  function Sort<T>(s: seq<T>, key: T -> int): (r: seq<T>)
  {
    if s == [] then [] else Insert(s[0], Sort(s[1..], key), key)
  }

  predicate Sorted<T>(s: seq<T>, key: T -> int)
  {
    forall i, j :: 0 <= i < j < |s| ==> key(s[i]) <= key(s[j])
  }

  predicate Strict<T>(s: seq<T>, key: T -> int)
  {
    forall i, j :: 0 <= i < j < |s| ==> key(s[i]) < key(s[j])
  }

  predicate DistinctKeys<T>(s: seq<T>, key: T -> int)
  {
    forall i, j :: 0 <= i < j < |s| ==> key(s[i]) != key(s[j])
  }

  lemma {:induction false} InsertKeeps<T(!new)>(x: T, s: seq<T>, key: T -> int)
    requires Sorted(s, key)
    ensures Sorted(Insert(x, s, key), key) && |Insert(x, s, key)| == |s| + 1
    ensures forall y :: y in Insert(x, s, key) <==> y == x || y in s
  {
    if s != [] {
      assert forall y :: y in s <==> y == s[0] || y in s[1..];
      if key(s[0]) < key(x) {
        InsertKeeps(x, s[1..], key);
        var r := Insert(x, s[1..], key);
        forall i | 0 <= i < |r| ensures key(s[0]) <= key(r[i]) {
          assert r[i] in r;
        }
      }
    }
  }

  lemma {:induction false} SortKeeps<T(!new)>(s: seq<T>, key: T -> int)
    ensures Sorted(Sort(s, key), key) && |Sort(s, key)| == |s|
    ensures forall y :: y in Sort(s, key) <==> y in s
  {
    if s != [] {
      assert forall y :: y in s <==> y == s[0] || y in s[1..];
      SortKeeps(s[1..], key);
      InsertKeeps(s[0], Sort(s[1..], key), key);
    }
  }

  lemma {:induction false} InsertStrict<T(!new)>(x: T, s: seq<T>, key: T -> int)
    requires Strict(s, key) && forall y :: y in s ==> key(y) != key(x)
    ensures Strict(Insert(x, s, key), key)
  {
    if s != [] {
      assert s[0] in s;
      if key(s[0]) < key(x) {
        InsertStrict(x, s[1..], key);
        InsertKeeps(x, s[1..], key);
        var r := Insert(x, s[1..], key);
        forall i | 0 <= i < |r| ensures key(s[0]) < key(r[i]) {
          assert r[i] in r;
        }
      }
    }
  }

  lemma {:induction false} SortStrict<T(!new)>(s: seq<T>, key: T -> int)
    requires DistinctKeys(s, key)
    ensures Strict(Sort(s, key), key)
  {
    if s != [] {
      SortStrict(s[1..], key);
      SortKeeps(s[1..], key);
      forall y | y in Sort(s[1..], key) ensures key(y) != key(s[0]) {
        var i :| 0 <= i < |s[1..]| && s[1..][i] == y;
        assert s[i + 1] == y;
      }
      InsertStrict(s[0], Sort(s[1..], key), key);
    }
  }
}
