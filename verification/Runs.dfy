/** Finite histories of a step system. */
module Runs {

  datatype Run<S, P> = Run(states: seq<S>, steps: seq<P>)

  /** The state the history has arrived at. */
  ghost function Now<S, P>(r: Run<S, P>): S
    requires r.states != []
  {
    r.states[|r.states| - 1]
  }

  /** `r'` has everything of `r` and perhaps more. */
  ghost predicate Prolongs<S, P>(r: Run<S, P>, r': Run<S, P>) {
    r.states <= r'.states && r.steps <= r'.steps
  }
}
