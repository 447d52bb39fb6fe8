/** Runs of a step system: a step is either refused or gives the next state. A system's
    concurrent clients appear as interleaved steps of one run. */
module Runs {
  import opened Outcomes

  ghost function Run<S, E>(next: (S, E) -> Option<S>, start: S, steps: seq<E>): Option<S> {
    if steps == [] then Some(start)
    else
      var before := Run(next, start, steps[..|steps| - 1]);
      if before.None? then None else next(before.value, steps[|steps| - 1])
  }

  /** Every single step keeps the property. */
  ghost predicate Inductive<S(!new), E(!new)>(next: (S, E) -> Option<S>, inv: S -> bool) {
    forall s, e :: inv(s) && next(s, e).Some? ==> inv(next(s, e).value)
  }

  /** What every step keeps holds after every run. */
  lemma {:induction false} Kept<S(!new), E(!new)>(next: (S, E) -> Option<S>, inv: S -> bool, start: S, steps: seq<E>)
    requires inv(start) && Inductive(next, inv) && Run(next, start, steps).Some?
    ensures inv(Run(next, start, steps).value)
  {
    if steps != [] {
      Kept(next, inv, start, steps[..|steps| - 1]);
      var s := Run(next, start, steps[..|steps| - 1]).value;
      assert inv(s) && next(s, steps[|steps| - 1]).Some?;
    }
  }

  lemma Extend<S, E>(next: (S, E) -> Option<S>, start: S, steps: seq<E>, e: E)
    ensures Run(next, start, steps + [e]) ==
            if Run(next, start, steps).None? then None else next(Run(next, start, steps).value, e)
  {
    assert (steps + [e])[..|steps|] == steps;
  }

  /** The same for a property that also looks at the steps taken so far. */
  ghost predicate InductiveAlong<S(!new), E(!new)>(next: (S, E) -> Option<S>, inv: (seq<E>, S) -> bool) {
    forall steps, s, e :: inv(steps, s) && next(s, e).Some? ==> inv(steps + [e], next(s, e).value)
  }

  lemma {:induction false} KeptAlong<S(!new), E(!new)>(next: (S, E) -> Option<S>, inv: (seq<E>, S) -> bool, start: S, steps: seq<E>)
    requires inv([], start) && InductiveAlong(next, inv) && Run(next, start, steps).Some?
    ensures inv(steps, Run(next, start, steps).value)
  {
    if steps != [] {
      var front, last := steps[..|steps| - 1], steps[|steps| - 1];
      KeptAlong(next, inv, start, front);
      assert next(Run(next, start, front).value, last).Some?;
      assert steps == front + [last];
    }
  }
}
