/** Sizes of maps. */
module Maps {

  lemma OneMoreKey<K, V>(m: map<K, V>, k: K, v: V)
    requires k !in m
    ensures |m[k := v]| == |m| + 1
  {
    assert m[k := v].Keys == m.Keys + {k};
  }

  lemma {:induction false} SubsetSize<K>(a: set<K>, b: set<K>)
    requires a <= b
    ensures |a| <= |b|
  {
    if a != {} {
      var x :| x in a;
      SubsetSize(a - {x}, b - {x});
    }
  }

  /** A finite set of naturals leaves some natural out. */
  lemma FreshNat(s: set<nat>) returns (n: nat)
    ensures n !in s
  {
    n := 0;
    var seen: set<nat> := {};
    while n in s
      invariant seen <= s && |seen| == n && forall k :: k in seen <==> 0 <= k < n
      decreases |s| - |seen|
    {
      SubsetSize(seen + {n}, s);
      seen := seen + {n};
      n := n + 1;
    }
  }
}
