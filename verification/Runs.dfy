/** Induction over the states of a run. */
module Runs {
  /** What the first state has and every step keeps, every state has. */
  lemma {:induction false} Invariant<S(!new)>(run: seq<S>, p: S -> bool, j: nat)
    requires j < |run| && p(run[0])
    requires forall k | 0 <= k < |run| - 1 && p(run[k]) :: p(run[k + 1])
    ensures p(run[j])
  {
    if j > 0 {
      Invariant(run, p, j - 1);
      assert p(run[j - 1 + 1]);
    }
  }

  /** A preorder between consecutive states orders all states of the run. */
  lemma {:induction false} Preorder<S(!new)>(run: seq<S>, r: (S, S) -> bool, i: nat, j: nat)
    requires i <= j < |run|
    requires forall k | 0 <= k < |run| :: r(run[k], run[k])
    requires forall k | 0 <= k < |run| - 1 :: r(run[k], run[k + 1])
    requires forall a, b, c | r(a, b) && r(b, c) :: r(a, c)
    ensures r(run[i], run[j])
  {
    if i == j {
      assert r(run[i], run[i]);
    } else {
      Preorder(run, r, i, j - 1);
      assert r(run[j - 1], run[j - 1 + 1]);
    }
  }
}
