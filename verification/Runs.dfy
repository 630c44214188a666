/** Runs of a transition system, shared by every protocol of the project. */
module Runs {

  /** A finite run: it starts in an initial state and every two neighbours are related by a step. */
  ghost predicate IsRun<S(!new)>(init: S -> bool, next: (S, S) -> bool, run: seq<S>) {
    && |run| > 0
    && init(run[0])
    && forall i :: 0 <= i < |run| - 1 ==> next(run[i], run[i + 1])
  }

  /** What holds initially and is kept by every step holds in every state of every run. */
  lemma {:induction false} Invariant<S(!new)>(init: S -> bool, next: (S, S) -> bool, inv: S -> bool, run: seq<S>, n: nat)
    requires IsRun(init, next, run) && n < |run|
    requires forall s :: init(s) ==> inv(s)
    requires forall s, s' :: inv(s) && next(s, s') ==> inv(s')
    ensures inv(run[n])
  {
    if n > 0 {
      Invariant(init, next, inv, run, n - 1);
      assert next(run[n - 1], run[n - 1 + 1]);
    }
  }

  /** A run goes on with any step from its last state. */
  lemma Grows<S(!new)>(init: S -> bool, next: (S, S) -> bool, run: seq<S>, s: S)
    requires IsRun(init, next, run) && next(run[|run| - 1], s)
    ensures IsRun(init, next, run + [s])
  {
    var run' := run + [s];
    forall i | 0 <= i < |run'| - 1 ensures next(run'[i], run'[i + 1]) {
      assert i < |run| - 1 ==> next(run[i], run[i + 1]);
    }
  }
}
