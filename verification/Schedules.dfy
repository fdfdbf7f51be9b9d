/** Runs of a machine whose step function says what a step leads to, or that it cannot be taken. */
module Schedules {
  import opened Common

  /** The state after a schedule, or None when some step of it cannot be taken. */
  function Run<S, T>(next: (S, T) -> Option<S>, s: S, steps: seq<T>): Option<S>
    decreases |steps|
  {
    if steps == [] then Some(s)
    else
      var t := next(s, steps[0]);
      if t.None? then None else Run(next, t.value, steps[1..])
  }

  lemma {:induction false} RunAppend<S, T>(next: (S, T) -> Option<S>, s: S, a: seq<T>, b: seq<T>)
    requires Run(next, s, a).Some?
    ensures Run(next, s, a + b) == Run(next, Run(next, s, a).value, b)
    decreases |a|
  {
    if a == [] {
      assert a + b == b;
    } else {
      assert (a + b)[1..] == a[1..] + b;
      RunAppend(next, next(s, a[0]).value, a[1..], b);
    }
  }

  lemma RunThen<S, T>(next: (S, T) -> Option<S>, s: S, a: seq<T>, step: T)
    requires Run(next, s, a).Some?
    ensures Run(next, s, a + [step]) == next(Run(next, s, a).value, step)
  {
    RunAppend(next, s, a, [step]);
  }
}
