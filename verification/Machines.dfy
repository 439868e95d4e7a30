/** Machines that advance one step at a time and emit one value per step. */
module Machines {

  /** The state after `n` steps. */
  function Iterate<S>(step: S -> S, s: S, n: nat): S
    decreases n
  {
    if n == 0 then s else Iterate(step, step(s), n - 1)
  }

  /** The values emitted by `n` steps. */
  function Trace<S, P>(step: S -> S, output: S -> P, s: S, n: nat): (values: seq<P>)
    ensures |values| == n
    decreases n
  {
    if n == 0 then [] else [output(s)] + Trace(step, output, step(s), n - 1)
  }

  lemma {:induction false} IterateSplits<S>(step: S -> S, s: S, a: nat, b: nat)
    ensures Iterate(step, s, a + b) == Iterate(step, Iterate(step, s, a), b)
    decreases a
  {
    if a > 0 {
      IterateSplits(step, step(s), a - 1, b);
    }
  }

  lemma {:induction false} TraceSplits<S, P>(step: S -> S, output: S -> P, s: S, a: nat, b: nat)
    ensures Trace(step, output, s, a + b)
         == Trace(step, output, s, a) + Trace(step, output, Iterate(step, s, a), b)
    decreases a
  {
    if a > 0 {
      TraceSplits(step, output, step(s), a - 1, b);
    }
  }
}
