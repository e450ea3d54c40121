/**
 * Running a test screen second by second: the state after `k` ticks of a
 * one-second step function, shared by the three timed tests.
 */
module Machine {

  /** The state after `k` applications of `step`. */
  function Steps<S>(step: S -> S, s: S, k: nat): S
    decreases k
  {
    if k == 0 then s else Steps(step, step(s), k - 1)
  }

  /** Running `a` seconds and then `b` more is running `a + b` seconds. */
  lemma {:induction false} StepsAdd<S>(step: S -> S, s: S, a: nat, b: nat)
    ensures Steps(step, s, a + b) == Steps(step, Steps(step, s, a), b)
    decreases a
  {
    if a > 0 {
      StepsAdd(step, step(s), a - 1, b);
    }
  }
}
