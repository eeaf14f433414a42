/** Sums of a natural-valued function over a finite set, used for counting and for measures. */
module Sums {

  ghost function Total<K(!new)>(s: set<K>, f: K -> nat): nat
    decreases |s|
  {
    if s == {} then 0 else var k :| k in s; f(k) + Total(s - {k}, f)
  }

  /** The sum does not depend on which element is taken out first. */
  lemma {:induction false} TotalPick<K(!new)>(s: set<K>, f: K -> nat, k: K)
    requires k in s
    ensures Total(s, f) == f(k) + Total(s - {k}, f)
    decreases |s|
  {
    var j :| j in s && Total(s, f) == f(j) + Total(s - {j}, f);
    if j != k {
      TotalPick(s - {j}, f, k);
      TotalPick(s - {k}, f, j);
      assert s - {j} - {k} == s - {k} - {j};
    }
  }

  lemma {:induction false} TotalAgree<K(!new)>(s: set<K>, f: K -> nat, g: K -> nat)
    requires forall k :: k in s ==> f(k) == g(k)
    ensures Total(s, f) == Total(s, g)
    decreases |s|
  {
    if s != {} {
      var k :| k in s;
      TotalPick(s, f, k);
      TotalPick(s, g, k);
      TotalAgree(s - {k}, f, g);
    }
  }

  lemma {:induction false} TotalAtMost<K(!new)>(s: set<K>, f: K -> nat, g: K -> nat)
    requires forall k :: k in s ==> f(k) <= g(k)
    ensures Total(s, f) <= Total(s, g)
    decreases |s|
  {
    if s != {} {
      var k :| k in s;
      TotalPick(s, f, k);
      TotalPick(s, g, k);
      TotalAtMost(s - {k}, f, g);
    }
  }

  /** A subset has no more elements; a proper one has fewer. */
  lemma SubsetSize<K>(a: set<K>, b: set<K>)
    requires a <= b
    ensures |a| <= |b| && (a != b ==> |a| < |b|)
  {
    assert b == a + (b - a);
  }
}
