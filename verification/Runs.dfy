/** Runs of a step machine: what several of the interleaving models share. */
module Runs {
  import opened Common

  /** The state after these steps, in this order; None if some step was not possible. */
  ghost function Run<S(!new), A(!new)>(step: (S, A) -> Option<S>, s: S, actions: seq<A>): Option<S> {
    if actions == [] then Some(s)
    else
      var before := Run(step, s, actions[..|actions| - 1]);
      if before.None? then None else step(before.value, actions[|actions| - 1])
  }

  /** One more step at the end. */
  lemma Next<S(!new), A(!new)>(step: (S, A) -> Option<S>, s: S, actions: seq<A>, now: S, a: A)
    requires Run(step, s, actions) == Some(now)
    ensures Run(step, s, actions + [a]) == step(now, a)
  {
    assert (actions + [a])[..|actions|] == actions;
  }

  /** One run after another. */
  lemma {:induction false} Append<S(!new), A(!new)>(step: (S, A) -> Option<S>, s: S, xs: seq<A>, ys: seq<A>)
    requires Run(step, s, xs).Some?
    ensures Run(step, s, xs + ys) == Run(step, Run(step, s, xs).value, ys)
    decreases |ys|
  {
    if ys == [] {
      assert xs + ys == xs;
    } else {
      Append(step, s, xs, ys[..|ys| - 1]);
      assert (xs + ys)[..|xs + ys| - 1] == xs + ys[..|ys| - 1];
    }
  }
}
