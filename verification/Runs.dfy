/**
 Runs of a protocol. A protocol is an initial state and a function that gives the state after a step, or None
 where the step is not enabled; what holds initially and is kept by every step holds in every reachable state.
 */
module Runs {
  import opened Options

  /** The steps lead from one state to another, each of them enabled where it is taken. */
  predicate Run<S(==), T>(next: (S, T) -> Option<S>, s: S, steps: seq<T>, s': S)
    decreases |steps|
  {
    if steps == [] then s' == s
    else next(s, steps[0]).Some? && Run(next, next(s, steps[0]).value, steps[1..], s')
  }

  ghost predicate Reachable<S, T(!new)>(next: (S, T) -> Option<S>, initial: S, s: S) {
    exists steps: seq<T> :: Run(next, initial, steps, s)
  }

  lemma Initially<S, T(!new)>(next: (S, T) -> Option<S>, initial: S)
    ensures Reachable(next, initial, initial)
  {
    assert Run(next, initial, [], initial);
  }

  lemma {:induction false} Extend<S, T>(next: (S, T) -> Option<S>, s: S, steps: seq<T>, s': S, step: T)
    requires Run(next, s, steps, s') && next(s', step).Some?
    ensures Run(next, s, steps + [step], next(s', step).value)
    decreases |steps|
  {
    if steps == [] {
      assert steps + [step] == [step];
    } else {
      assert (steps + [step])[1..] == steps[1..] + [step];
      Extend(next, next(s, steps[0]).value, steps[1..], s', step);
    }
  }

  /** A step from a reachable state leads to a reachable state. */
  lemma Further<S, T(!new)>(next: (S, T) -> Option<S>, initial: S, s: S, step: T)
    requires Reachable(next, initial, s) && next(s, step).Some?
    ensures Reachable(next, initial, next(s, step).value)
  {
    var steps :| Run(next, initial, steps, s);
    Extend(next, initial, steps, s, step);
  }

  lemma {:induction false} RunKeeps<S(!new), T(!new)>(next: (S, T) -> Option<S>, s: S, steps: seq<T>, s': S, inv: S -> bool)
    requires inv(s) && Run(next, s, steps, s')
    requires forall t, step :: inv(t) && next(t, step).Some? ==> inv(next(t, step).value)
    ensures inv(s')
    decreases |steps|
  {
    if steps != [] {
      RunKeeps(next, next(s, steps[0]).value, steps[1..], s', inv);
    }
  }

  /** The principle by which every invariant here is proved. */
  lemma Invariant<S(!new), T(!new)>(next: (S, T) -> Option<S>, initial: S, s: S, inv: S -> bool)
    requires inv(initial) && Reachable(next, initial, s)
    requires forall t, step :: inv(t) && next(t, step).Some? ==> inv(next(t, step).value)
    ensures inv(s)
  {
    var steps :| Run(next, initial, steps, s);
    RunKeeps(next, initial, steps, s, inv);
  }
}
