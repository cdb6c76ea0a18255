/** Paths of a machine given by its steps: what every protocol of the project runs on. */
module Runs {
  ghost predicate StepAt<S, A>(next: (S, A, S) -> bool, states: seq<S>, steps: seq<A>, i: nat)
    requires |states| == |steps| + 1 && i < |steps|
  {
    next(states[i], steps[i], states[i + 1])
  }

  /** `states` lists the states of a path, one more than its steps. */
  ghost predicate IsPath<S, A>(next: (S, A, S) -> bool, states: seq<S>, steps: seq<A>) {
    && |states| == |steps| + 1
    && forall i {:trigger StepAt(next, states, steps, i)} :: 0 <= i < |steps| ==> StepAt(next, states, steps, i)
  }

  /** One more step at the end. */
  lemma Longer<S, A>(next: (S, A, S) -> bool, states: seq<S>, steps: seq<A>, a: A, t: S)
    requires IsPath(next, states, steps) && next(states[|steps|], a, t)
    ensures IsPath(next, states + [t], steps + [a])
  {
    var more, all := states + [t], steps + [a];
    forall i: nat | i < |all| ensures StepAt(next, more, all, i) {
      if i < |steps| { assert StepAt(next, states, steps, i); }
    }
  }
}
