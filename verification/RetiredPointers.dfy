/** Pointers that wait to be freed, as the hazard pointer and the pass-the-buck collectors keep them. */
module RetiredPointers {

  /** A pointer waiting to be freed, with its deleter. Addresses are numbers; 0 is NULL. */
  datatype Retired = Retired(p: nat, deleter: int)

  /** No pointer is retired twice. */
  ghost predicate Distinct(m: multiset<Retired>) {
    forall r, q {:trigger r.p, q.p} | r in m && q in m && r.p == q.p :: r == q && m[r] == 1
  }

  lemma TwicePresent<T>(s: seq<T>, i: nat, j: nat)
    requires i < j < |s| && s[i] == s[j]
    ensures multiset(s)[s[i]] >= 2
  {
    assert s == s[..i] + [s[i]] + s[i + 1..j] + [s[j]] + s[j + 1..];
  }

  lemma DistinctPlaces(s: seq<Retired>, i: nat, j: nat)
    requires Distinct(multiset(s)) && i < j < |s|
    ensures s[i].p != s[j].p
  {
    assert s[i] in multiset(s) && s[j] in multiset(s);
    if s[i] == s[j] {
      TwicePresent(s, i, j);
    }
  }

  lemma DistinctPart(m: multiset<Retired>, n: multiset<Retired>)
    requires m <= n && Distinct(n)
    ensures Distinct(m)
  {
    forall r, q | r in m && q in m && r.p == q.p ensures r == q && m[r] == 1 {
      assert r in n && q in n;
    }
  }
}
