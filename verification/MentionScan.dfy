/**
 Finding `@name` tokens in a message. A mention is an occurrence of the token
 that has a boundary on both sides; the scanner jumps over the whole token after
 every occurrence, bounded or not.
 */
module MentionScan {

  const PUNCTUATION: string :=
    "()[]{}<>,.!?;:'\"\U{FF0C}\U{3002}\U{FF01}\U{FF1F}\U{FF1B}\U{FF1A}\U{FF08}\U{FF09}\U{3010}\U{3011}\U{300A}\U{300B}"

  predicate IsSpace(c: char)
  {
    || '\U{0009}' <= c <= '\U{000D}' || c == ' ' || c == '\U{00A0}' || c == '\U{1680}' || '\U{2000}' <= c <= '\U{200A}'
    || c == '\U{2028}' || c == '\U{2029}' || c == '\U{202F}' || c == '\U{205F}' || c == '\U{3000}' || c == '\U{FEFF}'
  }

  predicate BoundaryChar(c: char)
  {
    IsSpace(c) || c in PUNCTUATION
  }

  /** Position `i` is outside the message or holds a boundary character. */
  predicate BoundaryAt(content: string, i: int)
  {
    0 <= i < |content| ==> BoundaryChar(content[i])
  }

  function Token(name: string): (t: string)
  {
    "@" + name
  }

  predicate OccursAt(content: string, t: string, i: int)
  {
    0 <= i && i + |t| <= |content| && content[i..i + |t|] == t
  }

  /** A mention of `name` at `i`. */
  predicate Mentioned(content: string, name: string, i: int)
  {
    OccursAt(content, Token(name), i) && BoundaryAt(content, i - 1) && BoundaryAt(content, i + |name| + 1)
  }

  /** String.indexOf for a nonempty token. */
  function IndexOf(content: string, t: string, from: nat): (r: int)
    requires t != ""
    ensures r == -1 || (from <= r <= |content| - |t| && OccursAt(content, t, r))
    ensures forall i :: from <= i && OccursAt(content, t, i) ==> 0 <= r <= i
    decreases |content| - from
  {
    if from + |t| > |content| then -1
    else if content[from..from + |t|] == t then from
    else IndexOf(content, t, from + 1)
  }

  /** What the scanner finds from `from` on. */
  function Scan(content: string, name: string, from: nat): (r: int)
    ensures r == -1 || (from <= r < |content| && Mentioned(content, name, r))
    decreases |content| - from
  {
    hide IndexOf, OccursAt, BoundaryAt;
    var i := IndexOf(content, Token(name), from);
    if i < 0 then -1
    else if BoundaryAt(content, i - 1) && BoundaryAt(content, i + |name| + 1) then i
    else Scan(content, name, i + |name| + 1)
  }

  lemma ScanStep(content: string, name: string, from: nat)
    ensures var i := IndexOf(content, Token(name), from);
      Scan(content, name, from) ==
      if i < 0 then -1
      else if BoundaryAt(content, i - 1) && BoundaryAt(content, i + |name| + 1) then i
      else Scan(content, name, i + |name| + 1)
  {
    hide IndexOf, BoundaryAt, OccursAt, Mentioned;
  }

  method FindMentionToken(content: string, name: string, from: nat) returns (index: int)
    ensures index == Scan(content, name, from)
  {
    hide Scan, IndexOf, OccursAt, BoundaryAt, Mentioned;
    var token := Token(name);
    index := IndexOf(content, token, from);
    ghost var start: nat := from;
    while index >= 0
      invariant index == IndexOf(content, token, start)
      invariant Scan(content, name, start) == Scan(content, name, from)
      decreases |content| - start
    {
      ScanStep(content, name, start);
      if BoundaryAt(content, index - 1) && BoundaryAt(content, index + |token|) {
        return;
      }
      start := index + |token|;
      index := IndexOf(content, token, index + |token|);
    }
    ScanStep(content, name, start);
    index := -1;
  }

  // ---------- when the scanner is exact ----------

  /** The scanner finds the first mention at or after `from`, if there is one. */
  predicate Exact(content: string, name: string, from: nat)
  {
    forall i :: from <= i <= |content| && Mentioned(content, name, i) ==> 0 <= Scan(content, name, from) <= i
  }

  /** The token can overlap itself when shifted by `k`. */
  predicate Overlaps(t: string, k: nat)
  {
    0 < k < |t| && t[k..] == t[..|t| - k]
  }

  /** No self-overlap of the token puts a boundary character before the second copy. */
  predicate Scannable(name: string)
  {
    forall k :: 0 <= k < |Token(name)| && Overlaps(Token(name), k) ==> !BoundaryChar(Token(name)[k - 1])
  }

  /** Two occurrences closer than the token make the token overlap itself. */
  lemma CloseOccurrencesOverlap(content: string, t: string, i: int, j: int)
    requires OccursAt(content, t, i) && OccursAt(content, t, j) && i < j < i + |t|
    ensures Overlaps(t, j - i) && content[j - 1] == t[j - i - 1]
  {
    var k := j - i;
    var a := content[i..i + |t|];
    var b := content[j..j + |t|];
    assert a == t && b == t;
    assert a[k..] == content[j..i + |t|];
    assert b[..|t| - k] == content[j..i + |t|];
    assert content[j - 1] == a[k - 1];
  }

  /** Mentions of a scannable name are never closer than the token. */
  lemma MentionApart(content: string, name: string, i: int, j: int)
    requires Scannable(name) && OccursAt(content, Token(name), i) && Mentioned(content, name, j) && i < j
    ensures i + |name| + 1 <= j
  {
    if j < i + |name| + 1 {
      CloseOccurrencesOverlap(content, Token(name), i, j);
    }
  }

  lemma {:induction false} ScanComplete(content: string, name: string, from: nat, i: int)
    requires Scannable(name) && from <= i && Mentioned(content, name, i)
    ensures 0 <= Scan(content, name, from) <= i
    decreases |content| - from
  {
    hide OccursAt, BoundaryAt, Scannable, BoundaryChar;
    var first := IndexOf(content, Token(name), from);
    assert 0 <= first <= i;
    if !(BoundaryAt(content, first - 1) && BoundaryAt(content, first + |name| + 1)) {
      assert first < i;
      MentionApart(content, name, first, i);
      ScanComplete(content, name, first + |name| + 1, i);
    }
  }

  /** A name whose token overlaps itself behind a boundary is missed in this message. */
  function Trap(name: string, k: nat): (content: string)
    requires k <= |Token(name)|
  {
    "x" + Token(name)[..k] + Token(name)
  }

  lemma TrapOccurrences(name: string, k: nat)
    requires Overlaps(Token(name), k)
    ensures OccursAt(Trap(name, k), Token(name), 1) && OccursAt(Trap(name, k), Token(name), 1 + k)
    ensures !OccursAt(Trap(name, k), Token(name), 0)
  {
    var t := Token(name);
    var c := Trap(name, k);
    assert c[1 + k..1 + k + |t|] == t;
    assert c[1..1 + |t|] == t[..k] + t[..|t| - k];
    assert t[..k] + t[k..] == t;
    assert c[0..|t|][0] == 'x' && t[0] == '@';
  }

  lemma TrapMisses(name: string, k: nat)
    requires Overlaps(Token(name), k) && BoundaryChar(Token(name)[k - 1])
    ensures !Exact(Trap(name, k), name, 0)
  {
    var t := Token(name);
    var c := Trap(name, k);
    TrapOccurrences(name, k);
    assert IndexOf(c, t, 0) == 1;
    assert !BoundaryChar('x');
    assert c[0] == 'x';
    assert !BoundaryAt(c, 0);
    assert Scan(c, name, 0) == Scan(c, name, 1 + |t|);
    assert c[k] == t[k - 1];
    assert Mentioned(c, name, 1 + k);
  }

  /** The scanner is exact on every message exactly for scannable names. */
  lemma ScannerExactIff(name: string)
    ensures (forall content: string, from: nat :: Exact(content, name, from)) <==> Scannable(name)
  {
    if Scannable(name) {
      forall content: string, from: nat ensures Exact(content, name, from) {
        forall i | from <= i <= |content| && Mentioned(content, name, i) ensures 0 <= Scan(content, name, from) <= i {
          ScanComplete(content, name, from, i);
        }
      }
    } else {
      var k :| 0 <= k < |Token(name)| && Overlaps(Token(name), k) && BoundaryChar(Token(name)[k - 1]);
      TrapMisses(name, k);
      assert !Exact(Trap(name, k), name, 0);
    }
  }

  lemma PlainTokenHasOneAt(name: string, k: nat)
    requires '@' !in name && 0 < k < |Token(name)|
    ensures !Overlaps(Token(name), k)
  {
    var t := Token(name);
    assert t[k] == name[k - 1] && t[k..][0] == t[k] && t[..|t| - k][0] == '@';
  }

  /** Names without `@` are scannable. */
  lemma PlainNamesScannable(name: string)
    requires '@' !in name
    ensures Scannable(name)
  {
    forall k | 0 < k < |Token(name)| ensures !Overlaps(Token(name), k) {
      PlainTokenHasOneAt(name, k);
    }
  }

  /** Some name with `@` is not. */
  lemma SomeNamesMissed()
    ensures !Scannable("a @a")
  {
    var t := Token("a @a");
    assert t == "@a @a";
    assert t[3..] == "@a" && t[..2] == "@a";
    assert Overlaps(t, 3) && t[2] == ' ';
  }
}
