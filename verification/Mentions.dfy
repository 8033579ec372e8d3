/**
 Which mentions of a message count. Every known name is scanned for; where several
 names are mentioned at one place only the longest is kept. From the kept mentions
 the composer resolves typed commands and decides which selected agents stay.
 */
module Mentions {
  import opened MentionScan
  import StableSort

  // ---------- all finds of one name ----------

  function MentionsFrom(content: string, name: string, from: nat): (r: seq<nat>)
    ensures forall k :: 0 <= k < |r| ==> from <= r[k] < |content| && Mentioned(content, name, r[k])
    ensures forall j, k :: 0 <= j < k < |r| ==> r[j] < r[k]
    decreases |content| - from
  {
    hide BoundaryAt, BoundaryChar;
    var i := Scan(content, name, from);
    if i < 0 then [] else [i] + MentionsFrom(content, name, i + |name| + 1)
  }

  lemma MentionsFromStep(content: string, name: string, from: nat)
    ensures var i := Scan(content, name, from);
      MentionsFrom(content, name, from) == if i < 0 then [] else [i] + MentionsFrom(content, name, i + |name| + 1)
  {
    hide Scan, Mentioned;
  }

  /** The scanner's finds in the whole message. */
  function Found(content: string, name: string): (r: seq<nat>)
    ensures forall i :: i in r ==> i < |content| && Mentioned(content, name, i)
    ensures forall j, k :: 0 <= j < k < |r| ==> r[j] < r[k]
  {
    MentionsFrom(content, name, 0)
  }

  lemma {:induction false} MentionsFromComplete(content: string, name: string, from: nat, i: nat)
    requires Scannable(name) && from <= i && Mentioned(content, name, i)
    ensures i in MentionsFrom(content, name, from)
    decreases |content| - from
  {
    hide Scan, OccursAt, BoundaryAt, Scannable;
    ScanComplete(content, name, from, i);
    var first := Scan(content, name, from);
    if first < i {
      MentionApart(content, name, first, i);
      MentionsFromComplete(content, name, first + |name| + 1, i);
    }
  }

  /** For a scannable name the finds are exactly the mentions. */
  lemma FoundExact(content: string, name: string, i: nat)
    requires Scannable(name)
    ensures i in Found(content, name) <==> Mentioned(content, name, i)
  {
    if Mentioned(content, name, i) {
      MentionsFromComplete(content, name, 0, i);
    }
  }

  // ---------- the kept mentions ----------

  /** The scanner finds `name` at `i` and no longer known name there. */
  ghost predicate Longest(content: string, names: set<string>, name: string, i: nat)
  {
    && name in names && i in Found(content, name)
    && forall other :: other in names && i in Found(content, other) ==> |other| <= |name|
  }

  /** `name` is mentioned at `i` and no longer known name is. */
  ghost predicate Kept(content: string, names: set<string>, name: string, i: nat)
  {
    && name in names && Mentioned(content, name, i)
    && forall other :: other in names && Mentioned(content, other, i) ==> |other| <= |name|
  }

  ghost predicate Plain(names: set<string>)
  {
    forall name :: name in names ==> '@' !in name
  }

  /** For names without `@` the kept finds are the kept mentions. */
  lemma KeptExact(content: string, names: set<string>, name: string, i: nat)
    requires Plain(names)
    ensures Longest(content, names, name, i) <==> Kept(content, names, name, i)
  {
    hide Found, Mentioned, Scannable;
    forall other | other in names ensures i in Found(content, other) <==> Mentioned(content, other, i) {
      PlainNamesScannable(other);
      FoundExact(content, other, i);
    }
  }

  /** Equal lengths at one place are equal names. */
  lemma SameLengthSameName(content: string, a: string, b: string, i: nat)
    requires Mentioned(content, a, i) && Mentioned(content, b, i) && |a| == |b|
    ensures a == b
  {
    assert Token(a) == Token(b);
    assert a == Token(a)[1..] && b == Token(b)[1..];
  }

  /** One name per place. */
  lemma LongestUnique(content: string, names: set<string>, a: string, b: string, i: nat)
    requires Longest(content, names, a, i) && Longest(content, names, b, i)
    ensures a == b
  {
    hide Mentioned;
    SameLengthSameName(content, a, b, i);
  }

  lemma MentionStartsWithAt(content: string, name: string, i: nat)
    requires Mentioned(content, name, i)
    ensures i < |content| && content[i] == '@'
  {
    assert content[i..i + |name| + 1][0] == Token(name)[0];
  }

  lemma PlainMentionHidesNoAt(content: string, name: string, i: nat, j: nat)
    requires Mentioned(content, name, i) && '@' !in name && i < j < i + |name| + 1
    ensures content[j] != '@'
  {
    var part := content[i..i + |name| + 1];
    assert part == Token(name);
    assert content[j] == part[j - i] == name[j - i - 1];
  }

  /** Kept mentions of names without `@` never overlap; at one place there is only one. */
  lemma KeptDisjoint(content: string, names: set<string>, a: string, i: nat, b: string, j: nat)
    requires Plain(names) && Kept(content, names, a, i) && Kept(content, names, b, j) && i <= j
    ensures i + |a| + 1 <= j || (i == j && a == b)
  {
    if i == j {
      SameLengthSameName(content, a, b, i);
    } else if j < i + |a| + 1 {
      MentionStartsWithAt(content, b, j);
      PlainMentionHidesNoAt(content, a, i, j);
    }
  }

  // ---------- collecting them ----------

  datatype Tagged = Tagged(index: nat, tag: string)

  function Index(t: Tagged): (i: int)
  {
    t.index
  }

  function Same(i: nat): (r: int)
  {
    i
  }

  predicate Distinct<T(==)>(s: seq<T>)
  {
    forall i, j :: 0 <= i < j < |s| ==> s[i] != s[j]
  }

  ghost function SetOf(s: seq<string>): (r: set<string>)
    ensures forall x :: x in r <==> x in s
  {
    set x | x in s
  }

  /** Every find of every name, once per name. */
  ghost predicate AllFinds(content: string, names: seq<string>, cs: seq<Tagged>)
  {
    && (forall c :: c in cs <==> c.tag in names && c.index in Found(content, c.tag))
    && (Distinct(names) ==> Distinct(cs))
  }

  /** The scan of one name. */
  method CollectName(content: string, name: string) returns (cs: seq<Tagged>)
    ensures Distinct(cs)
    ensures forall c :: c in cs <==> c.tag == name && c.index in Found(content, name)
  {
    hide Scan, MentionsFrom, Mentioned, Distinct;
    var from := 0;
    ghost var done: seq<nat> := [];
    cs := [];
    while from <= |content|
      invariant done + MentionsFrom(content, name, from) == Found(content, name)
      invariant |cs| == |done| && forall k :: 0 <= k < |cs| ==> cs[k] == Tagged(done[k], name)
      decreases |content| + 1 - from
    {
      var index := FindMentionToken(content, name, from);
      MentionsFromStep(content, name, from);
      if index < 0 {
        break;
      }
      done := done + [index];
      cs := cs + [Tagged(index, name)];
      from := index + |name| + 1;
    }
    MentionsFromStep(content, name, from);
    assert done == Found(content, name);
    TaggedMembers(cs, done, name);
  }

  lemma TaggedMembers(cs: seq<Tagged>, found: seq<nat>, name: string)
    requires |cs| == |found| && forall k :: 0 <= k < |cs| ==> cs[k] == Tagged(found[k], name)
    requires forall j, k :: 0 <= j < k < |found| ==> found[j] < found[k]
    ensures Distinct(cs) && forall c :: c in cs <==> c.tag == name && c.index in found
  {
    forall c: Tagged | c.tag == name && c.index in found ensures c in cs {
      var k :| 0 <= k < |found| && found[k] == c.index;
      assert cs[k] == c;
    }
  }

  method CollectAll(content: string, names: seq<string>) returns (cs: seq<Tagged>)
    ensures AllFinds(content, names, cs)
  {
    hide Found;
    cs := [];
    for k := 0 to |names|
      invariant AllFinds(content, names[..k], cs)
    {
      var more := CollectName(content, names[k]);
      AppendFinds(content, names[..k], names[k], cs, more);
      assert names[..k + 1] == names[..k] + [names[k]];
      cs := cs + more;
    }
    assert names[..|names|] == names;
  }

  lemma AppendFinds(content: string, names: seq<string>, name: string, cs: seq<Tagged>, more: seq<Tagged>)
    requires AllFinds(content, names, cs) && Distinct(more)
    requires forall c :: c in more <==> c.tag == name && c.index in Found(content, name)
    ensures AllFinds(content, names + [name], cs + more)
  {
    hide Found;
    assert forall c :: c in cs + more <==> c in cs || c in more;
    if Distinct(names + [name]) {
      assert (names + [name])[|names|] == name;
      assert forall k :: 0 <= k < |names| ==> (names + [name])[k] == names[k];
      assert name !in names && Distinct(names);
      forall i, j | 0 <= i < |cs| && 0 <= j < |more| ensures cs[i] != more[j] {
        assert cs[i] in cs && more[j] in more;
      }
    }
  }

  /** The greatest name length at each place. */
  ghost predicate Lengths(cs: seq<Tagged>, longest: map<nat, nat>)
  {
    && (forall c :: c in cs ==> c.index in longest && |c.tag| <= longest[c.index])
    && (forall i :: i in longest ==> exists c :: c in cs && c.index == i && |c.tag| == longest[i])
  }

  method LongestLengths(cs: seq<Tagged>) returns (longest: map<nat, nat>)
    ensures Lengths(cs, longest)
  {
    longest := map[];
    for k := 0 to |cs|
      invariant Lengths(cs[..k], longest)
    {
      var c := cs[k];
      LengthsStep(cs[..k], longest, c);
      assert cs[..k + 1] == cs[..k] + [c];
      var known := if c.index in longest then longest[c.index] else 0;
      longest := longest[c.index := if known < |c.tag| then |c.tag| else known];
    }
    assert cs[..|cs|] == cs;
  }

  lemma LengthsStep(cs: seq<Tagged>, longest: map<nat, nat>, c: Tagged)
    requires Lengths(cs, longest)
    ensures var known := if c.index in longest then longest[c.index] else 0;
      Lengths(cs + [c], longest[c.index := if known < |c.tag| then |c.tag| else known])
  {
    var known := if c.index in longest then longest[c.index] else 0;
    var next := longest[c.index := if known < |c.tag| then |c.tag| else known];
    assert forall d :: d in cs + [c] <==> d in cs || d == c;
    forall i | i in next ensures exists d :: d in cs + [c] && d.index == i && |d.tag| == next[i] {
      if i != c.index || |c.tag| < known {
        var d :| d in cs && d.index == i && |d.tag| == longest[i];
        assert d in cs + [c];
      } else if c.index in longest && known == |c.tag| {
        assert c in cs + [c];
      } else {
        assert c in cs + [c];
      }
    }
  }

  /** The indexes of `name` among the candidates whose length is the greatest at their place, in order. */
  function Picks(cs: seq<Tagged>, longest: map<nat, nat>, name: string): (r: seq<nat>)
    requires forall c :: c in cs ==> c.index in longest
  {
    if cs == [] then []
    else
      var c := cs[|cs| - 1];
      Picks(cs[..|cs| - 1], longest, name) + if c.tag == name && |name| == longest[c.index] then [c.index] else []
  }

  lemma {:induction false} PicksMembers(cs: seq<Tagged>, longest: map<nat, nat>, name: string)
    requires forall c :: c in cs ==> c.index in longest
    ensures forall i :: i in Picks(cs, longest, name) <==> Tagged(i, name) in cs && |name| == longest[i]
    ensures Distinct(cs) ==> Distinct(Picks(cs, longest, name))
  {
    if cs != [] {
      var c := cs[|cs| - 1];
      var before := cs[..|cs| - 1];
      assert forall d :: d in cs <==> d in before || d == c;
      PicksMembers(before, longest, name);
      if Distinct(cs) {
        assert Distinct(before) && c !in before;
      }
    }
  }

  method GroupByName(cs: seq<Tagged>, longest: map<nat, nat>) returns (r: map<string, seq<nat>>)
    requires forall c :: c in cs ==> c.index in longest
    ensures forall name :: name in r <==> Picks(cs, longest, name) != []
    ensures forall name :: name in r ==> r[name] == Picks(cs, longest, name)
  {
    r := map[];
    for k := 0 to |cs|
      invariant forall name :: name in r <==> Picks(cs[..k], longest, name) != []
      invariant forall name :: name in r ==> r[name] == Picks(cs[..k], longest, name)
    {
      var c := cs[k];
      assert cs[..k + 1][..k] == cs[..k];
      if |c.tag| != longest[c.index] {
        continue;
      }
      var indexes := if c.tag in r then r[c.tag] else [];
      r := r[c.tag := indexes + [c.index]];
    }
    assert cs[..|cs|] == cs;
  }

  /** `list` is exactly the kept finds of `name`, ascending, each once when the names are distinct. */
  ghost predicate ListsKept(content: string, names: seq<string>, name: string, list: seq<nat>)
  {
    && (forall i :: i in list <==> Longest(content, SetOf(names), name, i))
    && StableSort.Sorted(list, Same)
    && (Distinct(names) ==> StableSort.Strict(list, Same))
  }

  lemma PicksAreLongest(content: string, names: seq<string>, cs: seq<Tagged>, longest: map<nat, nat>, name: string,
      i: nat)
    requires AllFinds(content, names, cs) && Lengths(cs, longest)
    ensures i in Picks(cs, longest, name) <==> Longest(content, SetOf(names), name, i)
  {
    hide Found;
    PicksMembers(cs, longest, name);
    if i in Picks(cs, longest, name) {
      forall other | other in names && i in Found(content, other) ensures |other| <= |name| {
        assert Tagged(i, other) in cs;
      }
      assert Tagged(i, name) in cs;
    }
    if Longest(content, SetOf(names), name, i) {
      assert Tagged(i, name) in cs;
      var c :| c in cs && c.index == i && |c.tag| == longest[i];
      assert c.tag in SetOf(names);
    }
  }

  lemma FindsDistinct(content: string, names: seq<string>, cs: seq<Tagged>)
    requires AllFinds(content, names, cs)
    ensures Distinct(names) ==> Distinct(cs)
  {
  }

  lemma LengthsCover(cs: seq<Tagged>, longest: map<nat, nat>)
    requires Lengths(cs, longest)
    ensures forall c :: c in cs ==> c.index in longest
  {
  }

  lemma SortedPicks(content: string, names: seq<string>, cs: seq<Tagged>, longest: map<nat, nat>, name: string)
    requires AllFinds(content, names, cs) && Lengths(cs, longest)
    ensures ListsKept(content, names, name, StableSort.Sort(Picks(cs, longest, name), Same))
    ensures StableSort.Sort(Picks(cs, longest, name), Same) == [] <==> Picks(cs, longest, name) == []
  {
    hide Longest, AllFinds, Lengths, Picks;
    assert Distinct(names) ==> Distinct(cs) by { FindsDistinct(content, names, cs); }
    assert forall c :: c in cs ==> c.index in longest by { LengthsCover(cs, longest); }
    var picks := Picks(cs, longest, name);
    StableSort.SortKeeps(picks, Same);
    forall i ensures i in picks <==> Longest(content, SetOf(names), name, i) {
      PicksAreLongest(content, names, cs, longest, name, i);
    }
    if Distinct(names) {
      PicksMembers(cs, longest, name);
      StableSort.SortStrict(picks, Same);
    }
  }

  /** The kept finds of every name that has one. */
  method LongestMentionIndexes(content: string, names: seq<string>) returns (r: map<string, seq<nat>>)
    ensures forall name :: name in r ==> r[name] != [] && ListsKept(content, names, name, r[name])
    ensures forall name :: name !in r ==> ListsKept(content, names, name, [])
  {
    hide AllFinds, ListsKept;
    var candidates := CollectAll(content, names);
    var longest := LongestLengths(candidates);
    var indexes := GroupByName(candidates, longest);
    r := map name | name in indexes :: StableSort.Sort(indexes[name], Same);
    forall name ensures ListsKept(content, names, name, StableSort.Sort(Picks(candidates, longest, name), Same)) {
      SortedPicks(content, names, candidates, longest, name);
    }
    forall name | name in r ensures r[name] != [] {
      SortedPicks(content, names, candidates, longest, name);
    }
  }
}
