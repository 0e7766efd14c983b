/** Counting the entries of a map that satisfy a predicate, and how one update
    moves that count. The reader protocol counts token holders this way. */
module Counting {
  import opened Bytes

  function Matching<V>(m: map<nat, V>, p: V -> bool): set<nat> {
    set k | k in m && p(m[k])
  }

  function Count<V>(m: map<nat, V>, p: V -> bool): nat {
    |Matching(m, p)|
  }

  /** Setting one entry takes the old value out of the count and puts the new one in. */
  lemma CountUpdate<V>(m: map<nat, V>, p: V -> bool, k: nat, v: V)
    ensures Count(m[k := v], p) + Bit(k in m && p(m[k])) == Count(m, p) + Bit(p(v))
  {
    var rest := Matching(m, p) - {k};
    if p(v) {
      assert Matching(m[k := v], p) == rest + {k};
    } else {
      assert Matching(m[k := v], p) == rest;
    }
    if k in m && p(m[k]) {
      assert Matching(m, p) == rest + {k};
    } else {
      assert Matching(m, p) == rest;
    }
  }

  /** An entry that matches is counted, and two distinct ones are counted twice. */
  lemma CountWitness<V>(m: map<nat, V>, p: V -> bool, j: nat, k: nat)
    requires j in m && p(m[j])
    requires k in m && p(m[k])
    ensures Count(m, p) >= if j == k then 1 else 2
  {
    var s := Matching(m, p);
    assert s >= {j, k};
    assert s == (s - {j, k}) + {j, k};
  }

  /** A predicate that splits in two disjoint ones is counted part by part. */
  lemma CountSplit<V>(m: map<nat, V>, p: V -> bool, q: V -> bool, r: V -> bool)
    requires forall k | k in m :: p(m[k]) == (q(m[k]) || r(m[k])) && !(q(m[k]) && r(m[k]))
    ensures Count(m, p) == Count(m, q) + Count(m, r)
  {
    assert Matching(m, p) == Matching(m, q) + Matching(m, r);
    assert Matching(m, q) !! Matching(m, r);
  }

  /** Counting through a view of the entries is counting with the composed predicate. */
  lemma CountMap<U, V>(m: map<nat, U>, n: map<nat, V>, p: U -> bool, q: V -> bool)
    requires m.Keys == n.Keys && forall k | k in m :: p(m[k]) == q(n[k])
    ensures Count(m, p) == Count(n, q)
  {
    assert Matching(m, p) == Matching(n, q);
  }

  lemma CountZero<V>(m: map<nat, V>, p: V -> bool, k: nat)
    requires Count(m, p) == 0
    requires k in m
    ensures !p(m[k])
  {
    if p(m[k]) {
      CountWitness(m, p, k, k);
    }
  }
}
