/**
 Runs of a transition system. `next` maps a state and a step label to the next
 state; a label that is not enabled leaves the state alone. An interleaving of
 concurrent handlers is a sequence of labels, so a fact about every run is a
 fact about every interleaving.
 */
module Runs {

  /** The state reached from `s` by the steps `es`, in order. */
  function Run<S, E>(next: (S, E) -> S, s: S, es: seq<E>): S
  {
    if es == [] then s else next(Run(next, s, es[..|es| - 1]), es[|es| - 1])
  }

  ghost predicate Preserves<S(!new), E(!new)>(next: (S, E) -> S, inv: S -> bool)
  {
    forall s: S, e: E :: inv(s) ==> inv(next(s, e))
  }

  lemma {:induction false} RunConcat<S, E>(next: (S, E) -> S, s: S, es: seq<E>, fs: seq<E>)
    ensures Run(next, s, es + fs) == Run(next, Run(next, s, es), fs)
    decreases |fs|
  {
    if fs == [] {
      assert es + fs == es;
    } else {
      var n := |fs| - 1;
      assert (es + fs)[..|es + fs| - 1] == es + fs[..n];
      RunConcat(next, s, es, fs[..n]);
    }
  }

  /** One more step at the end of a run. */
  lemma RunStep<S, E>(next: (S, E) -> S, s: S, es: seq<E>, e: E)
    ensures Run(next, s, es + [e]) == next(Run(next, s, es), e)
  {
    assert (es + [e])[..|es|] == es;
  }

  /** What the steps of this run keep, though other steps may not, holds after it. */
  lemma {:induction false} KeptByRun<S(!new), E(!new)>(next: (S, E) -> S, inv: S -> bool, s: S, es: seq<E>)
    requires inv(s) && forall x: S, e: E | inv(x) && e in es :: inv(next(x, e))
    ensures inv(Run(next, s, es))
    decreases |es|
  {
    if es != [] {
      KeptByRun(next, inv, s, es[..|es| - 1]);
      assert es[|es| - 1] in es;
    }
  }

  /** The step is one that others make in some gap. */
  ghost predicate InEnv<E>(env: seq<seq<E>>, e: E) { exists k | 0 <= k < |env| :: e in env[k] }

  lemma GapIsInEnv<E>(env: seq<seq<E>>, others: seq<E>)
    requires others == [] || others in env
    ensures forall e <- others :: InEnv(env, e)
  {
    if others != [] {
      var k :| 0 <= k < |env| && env[k] == others;
      forall e <- others ensures InEnv(env, e) { assert e in env[k]; }
    }
  }

  /** What does not hold at first and is entered exactly by certain steps, for good, holds iff one of them was taken. */
  lemma {:induction false} EnteredIff(holds: nat -> bool, enters: nat -> bool, n: nat)
    requires !holds(0) && forall i: nat | i < n :: holds(i + 1) <==> holds(i) || enters(i)
    ensures holds(n) <==> exists k: nat | k < n :: enters(k)
  {
    if n > 0 {
      EnteredIff(holds, enters, n - 1);
      assert holds(n - 1 + 1) <==> holds(n - 1) || enters(n - 1);
    }
  }

  /** What holds at first and is lost by a step exactly when the step is bad holds throughout iff no step is bad. */
  lemma {:induction false} KeptIffNeverBad(kept: nat -> bool, bad: nat -> bool, i: nat, j: nat)
    requires i <= j && kept(i) && forall k: nat | i <= k < j :: kept(k) ==> (kept(k + 1) <==> !bad(k))
    ensures (forall k: nat | i <= k <= j :: kept(k)) <==> (forall k: nat | i <= k < j :: !bad(k))
    decreases j
  {
    if i < j {
      KeptIffNeverBad(kept, bad, i, j - 1);
      assert kept(j - 1) ==> (kept(j - 1 + 1) <==> !bad(j - 1));
    }
  }

  lemma {:induction false} InvariantHolds<S(!new), E(!new)>(next: (S, E) -> S, inv: S -> bool, s: S, es: seq<E>)
    requires inv(s) && Preserves(next, inv)
    ensures inv(Run(next, s, es))
    decreases |es|
  {
    if es != [] {
      InvariantHolds(next, inv, s, es[..|es| - 1]);
    }
  }

  /** The state before step `i` of the run, or the final state when `i` is its length. */
  function At<S, E>(next: (S, E) -> S, s: S, es: seq<E>, i: nat): S
    requires i <= |es|
  {
    Run(next, s, es[..i])
  }

  lemma AtStep<S, E>(next: (S, E) -> S, s: S, es: seq<E>, i: nat)
    requires i < |es|
    ensures At(next, s, es, i + 1) == next(At(next, s, es, i), es[i])
  {
    assert es[..i + 1][..i] == es[..i];
  }

  /** What holds at one point of a run and is kept by every step holds at every later point. */
  lemma {:induction false} HoldsLater<S(!new), E(!new)>(
      next: (S, E) -> S, inv: S -> bool, s: S, es: seq<E>, i: nat, j: nat)
    requires i <= j <= |es|
    requires inv(At(next, s, es, i)) && Preserves(next, inv)
    ensures inv(At(next, s, es, j))
  {
    assert es[..j] == es[..i] + es[i..j];
    RunConcat(next, s, es[..i], es[i..j]);
    InvariantHolds(next, inv, At(next, s, es, i), es[i..j]);
  }
}
