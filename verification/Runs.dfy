/** Runs of a state machine given by its step relation. */
module Runs {
  /** Taking the steps in order is possible and leads from s to s'. */
  ghost predicate Leads<S(!new), E>(next: (S, E, S) -> bool, s: S, es: seq<E>, s': S)
    decreases |es|
  {
    if es == [] then s == s'
    else exists m :: next(s, es[0], m) && Leads(next, m, es[1..], s')
  }

  lemma {:induction false} Concat<S(!new), E>(next: (S, E, S) -> bool, s: S, es: seq<E>, m: S, es': seq<E>, s': S)
    requires Leads(next, s, es, m) && Leads(next, m, es', s')
    ensures Leads(next, s, es + es', s')
    decreases |es|
  {
    if es == [] {
      assert es + es' == es';
    } else {
      var n :| next(s, es[0], n) && Leads(next, n, es[1..], m);
      Concat(next, n, es[1..], m, es', s');
      assert (es + es')[1..] == es[1..] + es';
    }
  }

  lemma Single<S(!new), E>(next: (S, E, S) -> bool, s: S, e: E, s': S)
    requires next(s, e, s')
    ensures Leads(next, s, [e], s')
  {
    assert Leads(next, s', [e][1..], s');
  }

  /** What every step keeps, every run keeps. */
  lemma {:induction false} Keeps<S(!new), E(!new)>(next: (S, E, S) -> bool, allowed: E -> bool, inv: S -> bool,
                                   s: S, es: seq<E>, s': S)
    requires forall m, e, m' | inv(m) && allowed(e) && next(m, e, m') :: inv(m')
    requires forall i | 0 <= i < |es| :: allowed(es[i])
    requires inv(s) && Leads(next, s, es, s')
    ensures inv(s')
    decreases |es|
  {
    if es != [] {
      var m :| next(s, es[0], m) && Leads(next, m, es[1..], s');
      Keeps(next, allowed, inv, m, es[1..], s');
    }
  }
}
