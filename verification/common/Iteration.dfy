/** Repeating a step until it no longer applies, for at most a number of times. */
module Iteration {

  /** t is reached from s by n steps, or by fewer when a state is reached that halts. */
  ghost predicate Iterates<S(!new)>(step: (S, S) -> bool, halts: S -> bool, s: S, t: S, n: nat) {
    if n == 0 then t == s
    else (halts(s) && t == s) || exists u :: step(s, u) && Iterates(step, halts, u, t, n - 1)
  }

  /** t is reached from s by exactly n steps. */
  ghost predicate Trail<S(!new)>(step: (S, S) -> bool, s: S, t: S, n: nat) {
    if n == 0 then t == s else exists u :: step(s, u) && Trail(step, u, t, n - 1)
  }

  /** With a deterministic step that never applies to a halting state there is one outcome. */
  lemma {:induction false} IteratesUnique<S(!new)>(step: (S, S) -> bool, halts: S -> bool, s: S, t: S, u: S, n: nat)
    requires forall a, b, c :: step(a, b) && step(a, c) ==> b == c
    requires forall a, b :: step(a, b) ==> !halts(a)
    requires Iterates(step, halts, s, t, n) && Iterates(step, halts, s, u, n)
    ensures t == u
    decreases n
  {
    if n > 0 && !halts(s) {
      var x :| step(s, x) && Iterates(step, halts, x, t, n - 1);
      var y :| step(s, y) && Iterates(step, halts, y, u, n - 1);
      IteratesUnique(step, halts, x, t, u, n - 1);
    }
  }

  /** With a deterministic step the number of steps determines the outcome. */
  lemma {:induction false} TrailUnique<S(!new)>(step: (S, S) -> bool, s: S, t: S, u: S, n: nat)
    requires forall a, b, c :: step(a, b) && step(a, c) ==> b == c
    requires Trail(step, s, t, n) && Trail(step, s, u, n)
    ensures t == u
    decreases n
  {
    if n > 0 {
      var x :| step(s, x) && Trail(step, x, t, n - 1);
      var y :| step(s, y) && Trail(step, y, u, n - 1);
      TrailUnique(step, x, t, u, n - 1);
    }
  }

  lemma {:induction false} OneMoreStep<S(!new)>(step: (S, S) -> bool, s: S, t: S, u: S, n: nat)
    requires Trail(step, s, t, n) && step(t, u)
    ensures Trail(step, s, u, n + 1)
    decreases n
  {
    if n == 0 {
      assert Trail(step, u, u, 0);
    } else {
      var x :| step(s, x) && Trail(step, x, t, n - 1);
      OneMoreStep(step, x, t, u, n - 1);
    }
  }

  lemma {:induction false} TrailEnds<S(!new)>(step: (S, S) -> bool, halts: S -> bool, s: S, t: S, k: nat, n: nat)
    requires Trail(step, s, t, k) && k <= n && (k == n || halts(t))
    ensures Iterates(step, halts, s, t, n)
    decreases k
  {
    if k > 0 {
      var u :| step(s, u) && Trail(step, u, t, k - 1);
      TrailEnds(step, halts, u, t, k - 1, n - 1);
    }
  }
}
