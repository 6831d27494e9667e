/** Sequences of states in which each follows from the one before by one step function. */
module Chains {

  ghost predicate Link<S>(step: S -> S, tr: seq<S>, k: int)
    requires 0 <= k < |tr| - 1
  {
    step(tr[k]) == tr[k + 1]
  }

  ghost predicate IsChain<S>(step: S -> S, tr: seq<S>) {
    |tr| > 0 && forall k :: 0 <= k < |tr| - 1 ==> Link(step, tr, k)
  }

  /** n steps lead from a to b. */
  ghost predicate Leads<S(!new)>(step: S -> S, a: S, n: nat, b: S) {
    exists tr: seq<S> :: IsChain(step, tr) && |tr| == n + 1 && tr[0] == a && tr[n] == b
  }

  lemma Stays<S(!new)>(step: S -> S, a: S)
    ensures Leads(step, a, 0, a)
  {
    assert IsChain(step, [a]) && |[a]| == 1 && [a][0] == a;
  }

  lemma OneStep<S(!new)>(step: S -> S, a: S)
    ensures Leads(step, a, 1, step(a))
  {
    var tr := [a, step(a)];
    assert IsChain(step, tr) && |tr| == 2 && tr[0] == a && tr[1] == step(a);
  }

  lemma Join<S(!new)>(step: S -> S, a: S, n: nat, b: S, m: nat, c: S)
    requires Leads(step, a, n, b) && Leads(step, b, m, c)
    ensures Leads(step, a, n + m, c)
  {
    var one: seq<S> :| IsChain(step, one) && |one| == n + 1 && one[0] == a && one[n] == b;
    var two: seq<S> :| IsChain(step, two) && |two| == m + 1 && two[0] == b && two[m] == c;
    var tr := one + two[1..];
    forall k | 0 <= k < |tr| - 1 ensures Link(step, tr, k) {
      if k < n {
        assert Link(step, one, k);
      } else {
        assert Link(step, two, k - n);
      }
    }
    assert IsChain(step, tr) && |tr| == n + m + 1 && tr[0] == a && tr[n + m] == c;
  }
}
