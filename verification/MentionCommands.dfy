/**
 Typed commands and kept selections: which agents a message addresses by exact
 mention, which names are ambiguous, and which selected agents remain visible.
 */
module MentionCommands {
  import opened MentionScan
  import opened Mentions
  import StableSort

  datatype Agent = Agent(agentId: string, name: string)

  datatype Resolution = Resolution(agentIds: seq<string>, ambiguousNames: seq<string>, usesAll: bool)

  // ---------- the known agents by name ----------

  function OfName(agents: seq<Agent>, name: string): (r: seq<Agent>)
    ensures forall a :: a in r <==> a in agents && a.name == name
  {
    if agents == [] then []
    else
      var a := agents[|agents| - 1];
      OfName(agents[..|agents| - 1], name) + if a.name == name then [a] else []
  }

  /** Some agent, or two agents, are called `name`. */
  ghost predicate Borne(agents: seq<Agent>, name: string)
  {
    exists k :: 0 <= k < |agents| && agents[k].name == name
  }

  ghost predicate BorneTwice(agents: seq<Agent>, name: string)
  {
    exists i, j :: 0 <= i < j < |agents| && agents[i].name == name && agents[j].name == name
  }

  lemma BorneByLast(agents: seq<Agent>, name: string)
    requires agents != []
    ensures var before, last := agents[..|agents| - 1], agents[|agents| - 1];
      && (Borne(agents, name) <==> Borne(before, name) || last.name == name)
      && (BorneTwice(agents, name) <==> BorneTwice(before, name) || (last.name == name && Borne(before, name)))
  {
    var before, last := agents[..|agents| - 1], agents[|agents| - 1];
    assert agents == before + [last];
    if Borne(before, name) {
      var k :| 0 <= k < |before| && before[k].name == name;
      assert agents[k].name == name;
      assert last.name == name ==> BorneTwice(agents, name);
    }
    if i, j :| 0 <= i < j < |before| && before[i].name == name && before[j].name == name {
      assert agents[i].name == name && agents[j].name == name;
    }
    if i, j :| 0 <= i < j < |agents| && agents[i].name == name && agents[j].name == name {
      assert before[i].name == name;
      assert j < |before| ==> before[j].name == name;
    }
  }

  lemma {:induction false} OfNameCounts(agents: seq<Agent>, name: string)
    ensures |OfName(agents, name)| > 0 <==> Borne(agents, name)
    ensures |OfName(agents, name)| > 1 <==> BorneTwice(agents, name)
  {
    if agents != [] {
      OfNameCounts(agents[..|agents| - 1], name);
      hide Borne, BorneTwice;
      BorneByLast(agents, name);
    }
  }

  ghost function NamesOf(agents: seq<Agent>): (r: set<string>)
  {
    set a | a in agents :: a.name
  }

  function IdsOf(agents: seq<Agent>): (r: seq<string>)
    ensures forall id :: id in r <==> exists a :: a in agents && a.agentId == id
  {
    if agents == [] then [] else IdsOf(agents[..|agents| - 1]) + [agents[|agents| - 1].agentId]
  }

  lemma NobodyNamed()
    ensures forall name :: OfName([], name) == []
  {
  }

  lemma OfNameAppend(agents: seq<Agent>, a: Agent)
    ensures forall name ::
      OfName(agents + [a], name) == if a.name == name then OfName(agents, name) + [a] else OfName(agents, name)
  {
    assert (agents + [a])[..|agents|] == agents;
  }

  method GroupAgents(known: seq<Agent>) returns (names: seq<string>, byName: map<string, seq<Agent>>)
    ensures Distinct(names) && SetOf(names) == NamesOf(known)
    ensures forall name :: name in names ==> name in byName && byName[name] == OfName(known, name) && byName[name] != []
  {
    hide OfName;
    names, byName := [], map[];
    NobodyNamed();
    assert known[..0] == [];
    for k := 0 to |known|
      invariant Distinct(names) && forall name :: name in names <==> name in byName
      invariant forall name :: name in byName <==> OfName(known[..k], name) != []
      invariant forall name :: name in byName ==> byName[name] == OfName(known[..k], name)
    {
      var agent := known[k];
      assert known[..k + 1] == known[..k] + [agent];
      OfNameAppend(known[..k], agent);
      var sameName := if agent.name in byName then byName[agent.name] else [];
      if agent.name !in byName {
        names := names + [agent.name];
      }
      byName := byName[agent.name := sameName + [agent]];
    }
    assert known[..|known|] == known;
    NamesHaveAgents(known, names);
  }

  lemma NamesHaveAgents(known: seq<Agent>, names: seq<string>)
    requires forall name :: name in names <==> OfName(known, name) != []
    ensures SetOf(names) == NamesOf(known)
  {
    forall name ensures name in names <==> name in NamesOf(known) {
      var some := OfName(known, name);
      if name in names {
        assert some[0] in some;
      }
      if name in NamesOf(known) {
        var a :| a in known && a.name == name;
        assert a in some;
      }
    }
  }

  // ---------- what a message resolves to ----------

  datatype Context = Context(content: string, known: seq<Agent>, eligible: set<string>)

  /** `i` is the first kept find of `name`. */
  ghost predicate FirstKept(c: Context, name: string, i: nat)
  {
    && Longest(c.content, NamesOf(c.known), name, i)
    && forall j :: Longest(c.content, NamesOf(c.known), name, j) ==> i <= j
  }

  /** The single known agent of `name` is eligible and called `tag`. */
  ghost predicate Sole(c: Context, name: string, tag: string)
  {
    |OfName(c.known, name)| == 1 && tag == OfName(c.known, name)[0].agentId && tag in c.eligible
  }

  /** Several known agents are called `name` and one of them is eligible. */
  ghost predicate Shared(c: Context, name: string)
  {
    |OfName(c.known, name)| > 1 && exists a :: a in OfName(c.known, name) && a.agentId in c.eligible
  }

  /** `m` is what the message says about `name`: an ambiguous name, or a selected agent. */
  ghost predicate Chosen(c: Context, ambiguous: bool, name: string, m: Tagged)
  {
    FirstKept(c, name, m.index) && if ambiguous then m.tag == name && Shared(c, name) else Sole(c, name, m.tag)
  }

  function Tags(ms: seq<Tagged>): (r: seq<string>)
    ensures |r| == |ms| && forall k :: 0 <= k < |ms| ==> r[k] == ms[k].tag
  {
    if ms == [] then [] else Tags(ms[..|ms| - 1]) + [ms[|ms| - 1].tag]
  }

  /** `tags` are those of exactly the chosen finds, in the order of the message. */
  ghost predicate InMessageOrder(c: Context, ambiguous: bool, tags: seq<string>)
  {
    exists ms: seq<Tagged> ::
      && StableSort.Strict(ms, Index) && tags == Tags(ms)
      && forall m :: m in ms <==> exists name :: Chosen(c, ambiguous, name, m)
  }

  /** The ids once each, by first appearance. */
  function Once(ids: seq<string>): (r: seq<string>)
    ensures Distinct(r) && forall id :: id in r <==> id in ids
  {
    if ids == [] then []
    else
      var before := Once(ids[..|ids| - 1]);
      if ids[|ids| - 1] in before then before else before + [ids[|ids| - 1]]
  }

  // ---------- resolving ----------

  /** What has been gathered from the first names. */
  ghost predicate Gathered(c: Context, ambiguous: bool, names: seq<string>, ms: seq<Tagged>)
  {
    && StableSort.DistinctKeys(ms, Index)
    && forall m :: m in ms <==> exists name :: name in names && Chosen(c, ambiguous, name, m)
  }

  lemma GatherSkip(c: Context, ambiguous: bool, names: seq<string>, ms: seq<Tagged>, name: string)
    requires Gathered(c, ambiguous, names, ms) && forall m :: !Chosen(c, ambiguous, name, m)
    ensures Gathered(c, ambiguous, names + [name], ms)
  {
    hide Chosen;
    forall m ensures m in ms <==> exists n :: n in names + [name] && Chosen(c, ambiguous, n, m) {
      if m in ms {
        var n :| n in names && Chosen(c, ambiguous, n, m);
        assert n in names + [name];
      }
    }
  }

  lemma ChosenApart(c: Context, ambiguous: bool, a: string, m: Tagged, b: string, n: Tagged)
    requires Chosen(c, ambiguous, a, m) && Chosen(c, ambiguous, b, n) && m.index == n.index
    ensures a == b
  {
    hide Longest, Sole, Shared, NamesOf;
    LongestUnique(c.content, NamesOf(c.known), a, b, m.index);
  }

  lemma GatherMembers(c: Context, ambiguous: bool, names: seq<string>, ms: seq<Tagged>, name: string, m: Tagged,
      x: Tagged)
    requires Gathered(c, ambiguous, names, ms)
    requires forall y :: Chosen(c, ambiguous, name, y) <==> y == m
    ensures x in ms + [m] <==> exists n :: n in names + [name] && Chosen(c, ambiguous, n, x)
  {
    hide Chosen;
    if x in ms {
      var n :| n in names && Chosen(c, ambiguous, n, x);
      assert n in names + [name];
    } else if x == m {
      assert name in names + [name] && Chosen(c, ambiguous, name, m);
    }
  }

  lemma GatherPush(c: Context, ambiguous: bool, names: seq<string>, ms: seq<Tagged>, name: string, m: Tagged)
    requires Gathered(c, ambiguous, names, ms) && name !in names
    requires forall y :: Chosen(c, ambiguous, name, y) <==> y == m
    ensures Gathered(c, ambiguous, names + [name], ms + [m])
  {
    hide Chosen;
    forall k | 0 <= k < |ms| ensures ms[k].index != m.index {
      assert ms[k] in ms;
      var n :| n in names && Chosen(c, ambiguous, n, ms[k]);
      assert Chosen(c, ambiguous, name, m);
      if ms[k].index == m.index {
        ChosenApart(c, ambiguous, n, ms[k], name, m);
      }
    }
    forall x ensures x in ms + [m] <==> exists n :: n in names + [name] && Chosen(c, ambiguous, n, x) {
      GatherMembers(c, ambiguous, names, ms, name, m, x);
    }
  }

  lemma ChosenKnown(c: Context, ambiguous: bool, name: string, m: Tagged)
    requires Chosen(c, ambiguous, name, m)
    ensures name in NamesOf(c.known)
  {
  }

  /** All names gathered, then sorted. */
  lemma GatheredSorted(c: Context, ambiguous: bool, names: seq<string>, ms: seq<Tagged>)
    requires Gathered(c, ambiguous, names, ms) && SetOf(names) == NamesOf(c.known)
    ensures InMessageOrder(c, ambiguous, Tags(StableSort.Sort(ms, Index)))
  {
    hide Chosen, NamesOf;
    var sorted := StableSort.Sort(ms, Index);
    StableSort.SortKeeps(ms, Index);
    StableSort.SortStrict(ms, Index);
    forall m ensures m in sorted <==> exists name :: Chosen(c, ambiguous, name, m) {
      if name :| Chosen(c, ambiguous, name, m) {
        ChosenKnown(c, ambiguous, name, m);
        assert name in SetOf(names);
      }
    }
  }

  lemma FirstOfList(c: Context, names: seq<string>, name: string, list: seq<nat>)
    requires SetOf(names) == NamesOf(c.known) && ListsKept(c.content, names, name, list)
    ensures list == [] ==> forall i :: !FirstKept(c, name, i)
    ensures list != [] ==> forall i :: FirstKept(c, name, i) <==> i == list[0]
  {
    hide Longest, NamesOf;
    if list != [] {
      assert list[0] in list;
      forall j | j in list ensures list[0] <= j {
        var k :| 0 <= k < |list| && list[k] == j;
        assert Same(list[0]) <= Same(list[k]);
      }
    }
  }

  method ResolveNames(c: Context, names: seq<string>, byName: map<string, seq<Agent>>, indexes: map<string, seq<nat>>)
    returns (matches: seq<Tagged>, ambiguous: seq<Tagged>)
    requires Distinct(names) && SetOf(names) == NamesOf(c.known)
    requires forall name :: name in names ==>
      name in byName && byName[name] == OfName(c.known, name) && byName[name] != []
    requires forall name :: name in indexes ==> indexes[name] != [] && ListsKept(c.content, names, name, indexes[name])
    requires forall name :: name !in indexes ==> ListsKept(c.content, names, name, [])
    ensures Gathered(c, false, names, matches) && Gathered(c, true, names, ambiguous)
  {
    hide Gathered, FirstKept, ListsKept, NamesOf, OfName;
    matches, ambiguous := [], [];
    assert Gathered(c, false, names[..0], matches) && Gathered(c, true, names[..0], ambiguous) by {
      NothingGathered(c, false);
      NothingGathered(c, true);
    }
    for k := 0 to |names|
      invariant Gathered(c, false, names[..k], matches) && Gathered(c, true, names[..k], ambiguous)
    {
      var name := names[k];
      assert names[..k + 1] == names[..k] + [name];
      if name !in indexes {
        FirstOfList(c, names, name, []);
        GatherSkip(c, false, names[..k], matches, name);
        GatherSkip(c, true, names[..k], ambiguous, name);
        continue;
      }
      var index := indexes[name][0];
      FirstOfList(c, names, name, indexes[name]);
      if |byName[name]| > 1 {
        GatherSkip(c, false, names[..k], matches, name);
        if exists a :: a in byName[name] && a.agentId in c.eligible {
          GatherPush(c, true, names[..k], ambiguous, name, Tagged(index, name));
          ambiguous := ambiguous + [Tagged(index, name)];
        } else {
          GatherSkip(c, true, names[..k], ambiguous, name);
        }
        continue;
      }
      GatherSkip(c, true, names[..k], ambiguous, name);
      var agentId := byName[name][0].agentId;
      if agentId in c.eligible {
        GatherPush(c, false, names[..k], matches, name, Tagged(index, agentId));
        matches := matches + [Tagged(index, agentId)];
      } else {
        GatherSkip(c, false, names[..k], matches, name);
      }
    }
    assert names[..|names|] == names;
  }

  lemma NothingGathered(c: Context, ambiguous: bool)
    ensures Gathered(c, ambiguous, [], [])
  {
  }

  /** The message mentions `@all`, which is looked for before any known name. */
  ghost predicate AddressesAll(content: string)
  {
    exists i :: Mentioned(content, "all", i)
  }

  ghost function ContextOf(content: string, agents: seq<Agent>, known: seq<Agent>): (c: Context)
  {
    Context(content, known, set id | id in IdsOf(agents))
  }

  /** `@all` selects every agent once; otherwise exactly the agents and names the kept mentions address. */
  ghost predicate Resolves(content: string, agents: seq<Agent>, known: seq<Agent>, r: Resolution)
  {
    && (r.usesAll <==> AddressesAll(content))
    && (r.usesAll ==> r.agentIds == Once(IdsOf(agents)) && r.ambiguousNames == [])
    && (!r.usesAll ==>
        var c := ContextOf(content, agents, known);
        InMessageOrder(c, false, r.agentIds) && InMessageOrder(c, true, r.ambiguousNames))
  }

  /** No other known agent has the name of the `k`-th. */
  ghost predicate NamedAlone(known: seq<Agent>, k: nat)
  {
    k < |known| && forall j :: 0 <= j < |known| && j != k ==> known[j].name != known[k].name
  }

  /** The agent may be addressed. */
  ghost predicate Eligible(agents: seq<Agent>, id: string)
  {
    exists a :: a in agents && a.agentId == id
  }

  /** For names without `@`: who is selected, in every message. */
  ghost predicate SelectsExactly(content: string, agents: seq<Agent>, known: seq<Agent>, id: string)
  {
    && Eligible(agents, id)
    && (AddressesAll(content) || exists k: nat, i ::
          NamedAlone(known, k) && known[k].agentId == id && Kept(content, NamesOf(known), known[k].name, i))
  }

  /** For names without `@`: which names are reported as ambiguous. */
  ghost predicate ReportsExactly(content: string, agents: seq<Agent>, known: seq<Agent>, name: string)
  {
    && !AddressesAll(content)
    && (exists i, j :: 0 <= i < j < |known| && known[i].name == name && known[j].name == name)
    && (exists a :: a in known && a.name == name && Eligible(agents, a.agentId))
    && exists i :: Kept(content, NamesOf(known), name, i)
  }

  lemma SoleIff(content: string, agents: seq<Agent>, known: seq<Agent>, id: string, name: string)
    ensures Sole(ContextOf(content, agents, known), name, id) <==>
      Eligible(agents, id) && exists k: nat :: NamedAlone(known, k) && known[k].agentId == id && known[k].name == name
  {
    OfNameCounts(known, name);
    var named := OfName(known, name);
    if |named| == 1 {
      var k :| 0 <= k < |known| && known[k].name == name;
      assert NamedAlone(known, k);
      assert known[k] in named;
    }
    if k: nat :| NamedAlone(known, k) && known[k].agentId == id && known[k].name == name {
      assert |named| == 1 && known[k] in named;
    }
  }

  lemma SharedIff(content: string, agents: seq<Agent>, known: seq<Agent>, name: string)
    ensures Shared(ContextOf(content, agents, known), name) <==>
      && (exists i, j :: 0 <= i < j < |known| && known[i].name == name && known[j].name == name)
      && (exists a :: a in known && a.name == name && Eligible(agents, a.agentId))
  {
    OfNameCounts(known, name);
  }

  method ResolveExactMentionCommands(content: string, agents: seq<Agent>, known: seq<Agent>) returns (r: Resolution)
    ensures Resolves(content, agents, known, r)
    ensures Plain(NamesOf(known)) ==> forall id :: id in r.agentIds <==> SelectsExactly(content, agents, known, id)
    ensures Plain(NamesOf(known)) ==>
      forall name :: name in r.ambiguousNames <==> ReportsExactly(content, agents, known, name)
  {
    r := Resolve(content, agents, known);
    if Plain(NamesOf(known)) {
      forall id ensures id in r.agentIds <==> SelectsExactly(content, agents, known, id) {
        SelectedIff(content, agents, known, r, id);
      }
      forall name ensures name in r.ambiguousNames <==> ReportsExactly(content, agents, known, name) {
        AmbiguousIff(content, agents, known, r, name);
      }
    }
  }

  method Resolve(content: string, agents: seq<Agent>, known: seq<Agent>) returns (r: Resolution)
    ensures Resolves(content, agents, known, r)
  {
    hide Mentioned, InMessageOrder, Scan, Longest;
    var all := FindMentionToken(content, "all", 0);
    AllFound(content);
    if all >= 0 {
      return Resolution(Once(IdsOf(agents)), [], true);
    }
    var c := Context(content, known, set id | id in IdsOf(agents));
    var names, byName := GroupAgents(known);
    var indexes := LongestMentionIndexes(content, names);
    var matches, ambiguous := ResolveNames(c, names, byName, indexes);
    GatheredSorted(c, false, names, matches);
    GatheredSorted(c, true, names, ambiguous);
    r := Resolution(Tags(StableSort.Sort(matches, Index)), Tags(StableSort.Sort(ambiguous, Index)), false);
  }

  lemma AllFound(content: string)
    ensures Scan(content, "all", 0) >= 0 <==> AddressesAll(content)
  {
    hide Scan, Scannable, BoundaryAt;
    PlainNamesScannable("all");
    if i :| Mentioned(content, "all", i) {
      ScanComplete(content, "all", 0, i);
    }
  }

  // ---------- what resolution means for names without `@` ----------

  /** Without `@all` an agent is selected exactly when it is the only known agent of its name, is eligible,
      and its name is mentioned at some place where no longer known name is. */
  lemma NamedIff(c: Context, tags: seq<string>, id: string)
    requires InMessageOrder(c, false, tags) && Plain(NamesOf(c.known))
    ensures id in tags <==>
      exists name, i :: Sole(c, name, id) && Kept(c.content, NamesOf(c.known), name, i)
  {
    hide Sole, Kept, Longest, Shared, NamesOf;
    var ms: seq<Tagged> :| && StableSort.Strict(ms, Index) && tags == Tags(ms)
      && forall m :: m in ms <==> exists name :: Chosen(c, false, name, m);
    if id in tags {
      var k :| 0 <= k < |tags| && tags[k] == id;
      assert ms[k] in ms;
      var name :| Chosen(c, false, name, ms[k]);
      KeptExact(c.content, NamesOf(c.known), name, ms[k].index);
      assert Sole(c, name, id) && Kept(c.content, NamesOf(c.known), name, ms[k].index);
    }
    if name, i :| Sole(c, name, id) && Kept(c.content, NamesOf(c.known), name, i) {
      KeptHasFirst(c, name, i);
      var first :| FirstKept(c, name, first);
      assert Chosen(c, false, name, Tagged(first, id));
      assert Tagged(first, id) in ms;
      var k :| 0 <= k < |ms| && ms[k] == Tagged(first, id);
      assert tags[k] == id;
    }
  }

  /** Without `@all` a name is reported exactly when several known agents carry it, one of them is eligible,
      and it is mentioned at some place where no longer known name is. */
  lemma ReportedIff(c: Context, tags: seq<string>, name: string)
    requires InMessageOrder(c, true, tags) && Plain(NamesOf(c.known))
    ensures name in tags <==> Shared(c, name) && exists i :: Kept(c.content, NamesOf(c.known), name, i)
  {
    hide Sole, Kept, Longest, Shared, NamesOf;
    var ms: seq<Tagged> :| && StableSort.Strict(ms, Index) && tags == Tags(ms)
      && forall m :: m in ms <==> exists n :: Chosen(c, true, n, m);
    if name in tags {
      var k :| 0 <= k < |tags| && tags[k] == name;
      assert ms[k] in ms;
      var n :| Chosen(c, true, n, ms[k]);
      KeptExact(c.content, NamesOf(c.known), n, ms[k].index);
    }
    if i :| Shared(c, name) && Kept(c.content, NamesOf(c.known), name, i) {
      KeptHasFirst(c, name, i);
      var first :| FirstKept(c, name, first);
      assert Chosen(c, true, name, Tagged(first, name));
      assert Tagged(first, name) in ms;
      var k :| 0 <= k < |ms| && ms[k] == Tagged(first, name);
      assert tags[k] == name;
    }
  }

  lemma KeptHasFirst(c: Context, name: string, i: nat)
    requires Plain(NamesOf(c.known)) && Kept(c.content, NamesOf(c.known), name, i)
    ensures exists first :: FirstKept(c, name, first)
  {
    hide Kept, Longest, NamesOf;
    KeptExact(c.content, NamesOf(c.known), name, i);
    LongestHasFirst(c, name, i);
  }

  lemma {:induction false} LongestHasFirst(c: Context, name: string, i: nat)
    requires Longest(c.content, NamesOf(c.known), name, i)
    ensures exists first :: FirstKept(c, name, first)
  {
    hide Longest, NamesOf;
    if !FirstKept(c, name, i) {
      var j: nat :| Longest(c.content, NamesOf(c.known), name, j) && j < i;
      LongestHasFirst(c, name, j);
    }
  }

  lemma SoleIsKnown(c: Context, name: string, id: string)
    requires Sole(c, name, id)
    ensures exists a :: a in c.known && a.agentId == id && a.name == name
  {
    assert OfName(c.known, name)[0] in OfName(c.known, name);
  }

  /** Who is selected, in every message: everyone eligible under `@all`, and otherwise exactly the sole
      eligible bearers of a name that is mentioned where no longer known name is. */
  lemma SelectedIff(content: string, agents: seq<Agent>, known: seq<Agent>, r: Resolution, id: string)
    requires Resolves(content, agents, known, r) && Plain(NamesOf(known))
    ensures id in r.agentIds <==> SelectsExactly(content, agents, known, id)
  {
    hide InMessageOrder, Sole, Kept, Plain, NamesOf, AddressesAll;
    if !r.usesAll {
      var c := ContextOf(content, agents, known);
      NamedIff(c, r.agentIds, id);
      if name, i :| Sole(c, name, id) && Kept(content, NamesOf(known), name, i) {
        SoleIff(content, agents, known, id, name);
      }
      if k: nat, i :| NamedAlone(known, k) && known[k].agentId == id && Kept(content, NamesOf(known), known[k].name, i)
      {
        SoleIff(content, agents, known, id, known[k].name);
      }
    }
  }

  /** Which names are ambiguous, in every message: none under `@all`, and otherwise exactly those of several
      known agents, one of them eligible, that are mentioned where no longer known name is. */
  lemma AmbiguousIff(content: string, agents: seq<Agent>, known: seq<Agent>, r: Resolution, name: string)
    requires Resolves(content, agents, known, r) && Plain(NamesOf(known))
    ensures name in r.ambiguousNames <==> ReportsExactly(content, agents, known, name)
  {
    hide InMessageOrder, Shared, Kept, Plain, NamesOf, AddressesAll, Eligible;
    if !r.usesAll {
      ReportedIff(ContextOf(content, agents, known), r.ambiguousNames, name);
      SharedIff(content, agents, known, name);
    }
  }

  /** Every mention of `name` is also a mention of a longer known name. */
  ghost predicate PrefixOnly(content: string, known: seq<Agent>, name: string)
  {
    forall i :: Mentioned(content, name, i) ==>
      exists other :: other in NamesOf(known) && |other| > |name| && Mentioned(content, other, i)
  }

  /** An agent whose name only ever starts a longer known mention is selected exactly by `@all`. */
  lemma PrefixOnlySelectedIff(content: string, agents: seq<Agent>, known: seq<Agent>, r: Resolution, agent: Agent)
    requires Resolves(content, agents, known, r) && Plain(NamesOf(known))
    requires forall a :: a in known && a.agentId == agent.agentId ==> a.name == agent.name
    requires PrefixOnly(content, known, agent.name)
    ensures agent.agentId in r.agentIds <==> AddressesAll(content) && agent.agentId in IdsOf(agents)
  {
    hide InMessageOrder, Mentioned, Plain, AddressesAll, Resolves;
    SelectedIff(content, agents, known, r, agent.agentId);
    var c := ContextOf(content, agents, known);
    if name, i :| Sole(c, name, agent.agentId) && Kept(content, NamesOf(known), name, i) {
      SoleIsKnown(c, name, agent.agentId);
    }
  }

  const HANDS: seq<Agent> := [Agent("1", "all"), Agent("2", "all hands")]

  lemma AllHandsMentions(i: int)
    ensures Mentioned("@all hands", "all", i) <==> i == 0
    ensures Mentioned("@all hands", "all hands", 0)
  {
    var content := "@all hands";
    assert content[0..4] == Token("all") && content[0..10] == Token("all hands");
    assert IsSpace(content[4]);
    if Mentioned(content, "all", i) {
      MentionStartsWithAt(content, "all", i);
    }
  }

  /** `@all` comes before the longest name: "@all hands" selects the agent called "all" although its only
      mention is the start of "all hands". */
  lemma AllBeforeLongest(r: Resolution)
    requires Resolves("@all hands", HANDS, HANDS, r)
    ensures PrefixOnly("@all hands", HANDS, "all") && r.usesAll && "1" in r.agentIds
  {
    AllHandsMentions(0);
    assert AddressesAll("@all hands");
    assert HANDS[0] in HANDS && HANDS[1] in HANDS;
    assert "1" in IdsOf(HANDS);
    forall i | Mentioned("@all hands", "all", i)
      ensures exists other :: other in NamesOf(HANDS) && |other| > 3 && Mentioned("@all hands", other, i)
    {
      AllHandsMentions(i);
      assert "all hands" in NamesOf(HANDS);
    }
  }

  // ---------- selected agents that stay visible ----------

  /** Where `name` is kept. */
  ghost function KeptAt(content: string, names: set<string>, name: string): (r: set<nat>)
    ensures forall i :: i in r <==> Longest(content, names, name, i)
  {
    set i: nat | i < |content| && Longest(content, names, name, i)
  }

  ghost function NamesIn(agentsById: map<string, string>): (r: set<string>)
  {
    set id | id in agentsById :: agentsById[id]
  }

  /** The selected agents called `name`, in order. */
  function Called(ids: seq<string>, agentsById: map<string, string>, name: string): (r: seq<string>)
  {
    if ids == [] then []
    else
      var id := ids[|ids| - 1];
      Called(ids[..|ids| - 1], agentsById, name) + if id in agentsById && agentsById[id] == name then [id] else []
  }

  function Shown(visible: map<string, nat>, name: string): (n: nat)
  {
    if name in visible then visible[name] else 0
  }

  /** An id stays when fewer agents of its name precede it than the message shows mentions. */
  function Retained(ids: seq<string>, agentsById: map<string, string>, visible: map<string, nat>): (r: seq<string>)
  {
    if ids == [] then []
    else
      var id := ids[|ids| - 1];
      var before := ids[..|ids| - 1];
      Retained(before, agentsById, visible) +
      if id in agentsById && |Called(before, agentsById, agentsById[id])| < Shown(visible, agentsById[id]) then [id]
          else []
  }

  /** How many mentions of `name` are kept when all of the map's names are known. */
  ghost predicate CountsKept(content: string, agentsById: map<string, string>, visible: map<string, nat>)
  {
    forall name :: Shown(visible, name) == |KeptAt(content, NamesIn(agentsById), name)|
  }

  lemma {:induction false} StrictListSize(list: seq<nat>, s: set<nat>)
    requires StableSort.Strict(list, Same) && forall i :: i in list <==> i in s
    ensures |list| == |s|
  {
    if list == [] {
      assert s == {};
    } else {
      var last := list[|list| - 1];
      var before := list[..|list| - 1];
      assert forall i :: i in list <==> i in before || i == last;
      assert last !in before by {
        assert forall k :: 0 <= k < |before| ==> Same(list[k]) < Same(last);
      }
      StrictListSize(before, s - {last});
    }
  }

  lemma CountIsKept(content: string, names: seq<string>, name: string, list: seq<nat>)
    requires Distinct(names) && ListsKept(content, names, name, list)
    ensures |list| == |KeptAt(content, SetOf(names), name)|
  {
    hide Longest;
    StrictListSize(list, KeptAt(content, SetOf(names), name));
  }

  /** The known names, once each. */
  method EachNameOnce(agentsById: map<string, string>) returns (names: seq<string>)
    ensures Distinct(names) && SetOf(names) == NamesIn(agentsById)
  {
    names := [];
    var rest := agentsById.Values;
    while rest != {}
      invariant rest <= agentsById.Values && Distinct(names)
      invariant forall name :: name in names <==> name in agentsById.Values && name !in rest
      decreases |rest|
    {
      var name :| name in rest;
      rest := rest - {name};
      names := names + [name];
    }
    assert forall name :: name in NamesIn(agentsById) <==> name in agentsById.Values;
  }

  /** `remaining` holds what is left of each name's visible count after the ids seen so far. */
  ghost predicate Left(remaining: map<string, nat>, visible: map<string, nat>, seen: seq<string>,
      agentsById: map<string, string>)
  {
    forall name ::
      (if name in remaining then remaining[name] else Shown(visible, name)) ==
      var used := |Called(seen, agentsById, name)|; if used < Shown(visible, name) then Shown(visible, name) - used
          else 0
  }

  /** The filter with its counters. */
  method FilterByCounts(agentIds: seq<string>, agentsById: map<string, string>, visible: map<string, nat>)
    returns (r: seq<string>)
    ensures r == Retained(agentIds, agentsById, visible)
  {
    var remaining: map<string, nat> := map[];
    r := [];
    for k := 0 to |agentIds|
      invariant r == Retained(agentIds[..k], agentsById, visible)
      invariant Left(remaining, visible, agentIds[..k], agentsById)
    {
      var id := agentIds[k];
      assert agentIds[..k + 1][..k] == agentIds[..k];
      if id !in agentsById {
        continue;
      }
      var name := agentsById[id];
      var left := if name in remaining then remaining[name] else Shown(visible, name);
      if left == 0 {
        continue;
      }
      remaining := remaining[name := left - 1];
      r := r + [id];
    }
    assert agentIds[..|agentIds|] == agentIds;
  }

  method RetainVisibleMentionIds(content: string, agentIds: seq<string>, agentsById: map<string, string>)
    returns (r: seq<string>)
    ensures exists visible :: CountsKept(content, agentsById, visible) && r == Retained(agentIds, agentsById, visible)
  {
    hide ListsKept, NamesIn, Longest, Retained;
    var names := EachNameOnce(agentsById);
    var indexes := LongestMentionIndexes(content, names);
    var visible: map<string, nat> := map name | name in indexes :: |indexes[name]|;
    forall name ensures Shown(visible, name) == |KeptAt(content, NamesIn(agentsById), name)| {
      CountIsKept(content, names, name, if name in indexes then indexes[name] else []);
    }
    r := FilterByCounts(agentIds, agentsById, visible);
  }

  lemma CalledAppend(ids: seq<string>, id: string, agentsById: map<string, string>, name: string)
    ensures var called := Called(ids, agentsById, name);
      Called(ids + [id], agentsById, name) == if id in agentsById && agentsById[id] == name then called + [id]
          else called
  {
    assert (ids + [id])[..|ids|] == ids;
  }

  lemma RetainedAppend(ids: seq<string>, id: string, agentsById: map<string, string>, visible: map<string, nat>)
    ensures var r := Retained(ids, agentsById, visible);
      Retained(ids + [id], agentsById, visible) ==
      if id in agentsById && |Called(ids, agentsById, agentsById[id])| < Shown(visible, agentsById[id]) then r + [id]
          else r
  {
    hide Shown, Called;
    assert (ids + [id])[..|ids|] == ids;
  }

  /** The first `n`, or all. */
  function Upto(s: seq<string>, n: nat): (r: seq<string>)
  {
    if |s| < n then s else s[..n]
  }

  lemma UptoAppend(s: seq<string>, x: string, n: nat)
    ensures Upto(s + [x], n) == if |s| < n then Upto(s, n) + [x] else Upto(s, n)
  {
  }

  /** Of each name exactly the first ids stay, as many as there are kept mentions. */
  lemma {:induction false} RetainedPerName(ids: seq<string>, agentsById: map<string, string>, visible: map<string, nat>,
      name: string)
    ensures Called(Retained(ids, agentsById, visible), agentsById, name) ==
      Upto(Called(ids, agentsById, name), Shown(visible, name))
  {
    hide Shown, Retained, Called, Upto;
    if ids == [] {
      NothingRetained(agentsById, visible, name);
    } else {
      var before := ids[..|ids| - 1];
      var id := ids[|ids| - 1];
      RetainedPerName(before, agentsById, visible, name);
      assert ids == before + [id];
      RetainedAppend(before, id, agentsById, visible);
      CalledAppend(before, id, agentsById, name);
      CalledAppend(Retained(before, agentsById, visible), id, agentsById, name);
      UptoAppend(Called(before, agentsById, name), id, Shown(visible, name));
    }
  }

  lemma NothingRetained(agentsById: map<string, string>, visible: map<string, nat>, name: string)
    ensures Called(Retained([], agentsById, visible), agentsById, name) ==
      Upto(Called([], agentsById, name), Shown(visible, name))
  {
  }

  /** Nothing else stays. */
  lemma {:induction false} RetainedKnown(ids: seq<string>, agentsById: map<string, string>, visible: map<string, nat>,
      id: string)
    requires id in Retained(ids, agentsById, visible)
    ensures id in ids && id in agentsById
  {
    var before := ids[..|ids| - 1];
    if id in Retained(before, agentsById, visible) {
      RetainedKnown(before, agentsById, visible, id);
    }
  }

  /** `r` is what stands in `ids` at the places `at`, which ascend. */
  ghost predicate Picks(r: seq<string>, ids: seq<string>, at: seq<nat>)
  {
    && |at| == |r| && (forall k :: 0 <= k < |at| ==> at[k] < |ids| && ids[at[k]] == r[k])
    && forall j, k :: 0 <= j < k < |at| ==> at[j] < at[k]
  }

  lemma PicksMore(r: seq<string>, ids: seq<string>, at: seq<nat>, id: string)
    requires Picks(r, ids, at)
    ensures Picks(r, ids + [id], at) && Picks(r + [id], ids + [id], at + [|ids|])
  {
  }

  /** The place `i` stays: fewer places of its name precede it than mentions of the name are shown. */
  ghost predicate Stays(ids: seq<string>, agentsById: map<string, string>, visible: map<string, nat>, i: nat)
  {
    && i < |ids| && ids[i] in agentsById
    && |Called(ids[..i], agentsById, agentsById[ids[i]])| < Shown(visible, agentsById[ids[i]])
  }

  lemma StaysBefore(ids: seq<string>, agentsById: map<string, string>, visible: map<string, nat>, i: nat)
    requires i < |ids|
    ensures i < |ids| - 1 ==>
      (Stays(ids[..|ids| - 1], agentsById, visible, i) <==> Stays(ids, agentsById, visible, i))
    ensures i == |ids| - 1 ==>
      var before, id := ids[..|ids| - 1], ids[|ids| - 1];
      (Stays(ids, agentsById, visible, i) <==>
        id in agentsById && |Called(before, agentsById, agentsById[id])| < Shown(visible, agentsById[id]))
  {
    hide Called, Shown;
    if i < |ids| - 1 {
      assert ids[..|ids| - 1][..i] == ids[..i];
    }
  }

  /** What stays keeps its order, and exactly those places stay of which fewer of the same name precede than
      mentions of the name are shown. */
  lemma {:induction false} RetainedInOrder(ids: seq<string>, agentsById: map<string, string>, visible: map<string, nat>)
    returns (at: seq<nat>)
    ensures Picks(Retained(ids, agentsById, visible), ids, at)
    ensures forall i: nat :: i in at <==> Stays(ids, agentsById, visible, i)
  {
    hide Shown, Called, Stays, Picks;
    at := [];
    if ids == [] {
      NothingPicked(agentsById, visible);
    } else {
      hide Retained;
      var before := ids[..|ids| - 1];
      var id := ids[|ids| - 1];
      assert ids == before + [id];
      var earlier := RetainedInOrder(before, agentsById, visible);
      PicksMore(Retained(before, agentsById, visible), before, earlier, id);
      RetainedAppend(before, id, agentsById, visible);
      PlacesMore(ids, agentsById, visible, earlier);
      at := if Stays(ids, agentsById, visible, |before|) then earlier + [|before|] else earlier;
      StaysBefore(ids, agentsById, visible, |before|);
    }
  }

  lemma NothingPicked(agentsById: map<string, string>, visible: map<string, nat>)
    ensures Picks(Retained([], agentsById, visible), [], [])
    ensures forall i: nat :: !Stays([], agentsById, visible, i)
  {
  }

  lemma PlacesMore(ids: seq<string>, agentsById: map<string, string>, visible: map<string, nat>, earlier: seq<nat>)
    requires ids != [] && forall i: nat :: i in earlier <==> Stays(ids[..|ids| - 1], agentsById, visible, i)
    ensures var last := |ids| - 1;
      var at := if Stays(ids, agentsById, visible, last) then earlier + [last] else earlier;
      forall i: nat :: i in at <==> Stays(ids, agentsById, visible, i)
  {
    hide Stays;
    var last := |ids| - 1;
    var at := if Stays(ids, agentsById, visible, last) then earlier + [last] else earlier;
    forall i: nat ensures i in at <==> Stays(ids, agentsById, visible, i) {
      OnlyPlaces(ids[..last], agentsById, visible, i);
      OnlyPlaces(ids, agentsById, visible, i);
      if i < |ids| {
        StaysBefore(ids, agentsById, visible, i);
      }
    }
  }

  lemma OnlyPlaces(ids: seq<string>, agentsById: map<string, string>, visible: map<string, nat>, i: nat)
    ensures Stays(ids, agentsById, visible, i) ==> i < |ids|
  {
  }
}
