/** Adding up multisets over a finite set, in whatever order its elements come. */
module Tallies {

  ghost function Tally<K(!new), R(!new)>(s: set<K>, f: K -> multiset<R>): multiset<R> {
    if s == {} then multiset{}
    else
      var k :| k in s;
      f(k) + Tally(s - {k}, f)
  }

  /** Any element can be taken out first. */
  lemma {:induction false} TallyTake<K(!new), R(!new)>(s: set<K>, k: K, f: K -> multiset<R>)
    requires k in s
    ensures Tally(s, f) == f(k) + Tally(s - {k}, f)
    decreases |s|
  {
    var first :| first in s && Tally(s, f) == f(first) + Tally(s - {first}, f);
    if first != k {
      TallyTake(s - {first}, k, f);
      TallyTake(s - {k}, first, f);
      assert s - {first} - {k} == s - {k} - {first};
    }
  }

  /** Functions that agree on the set add up to the same. */
  lemma {:induction false} TallySame<K(!new), R(!new)>(s: set<K>, f: K -> multiset<R>, g: K -> multiset<R>)
    requires forall k :: k in s ==> f(k) == g(k)
    ensures Tally(s, f) == Tally(s, g)
    decreases |s|
  {
    if s != {} {
      var k :| k in s && Tally(s, f) == f(k) + Tally(s - {k}, f);
      TallySame(s - {k}, f, g);
      TallyTake(s, k, g);
    }
  }
}
