/** Induction along a run, stated over any invariant so that nothing about the states is in the way. */
module Runs {
  /** The step behind i keeps the invariant. */
  ghost predicate Keeps<T(!new)>(run: seq<T>, inv: T -> bool, i: nat)
    requires i + 1 < |run|
  {
    inv(run[i]) ==> inv(run[i + 1])
  }

  /** What holds at m and is kept by every step from there on holds from there on. */
  lemma {:induction false} Throughout<T(!new)>(run: seq<T>, inv: T -> bool, m: nat, i: nat)
    requires m <= i < |run| && inv(run[m]) && forall j :: m <= j && j + 1 < |run| && inv(run[j]) ==> Keeps(run, inv, j)
    ensures inv(run[i])
  {
    if m < i {
      Throughout(run, inv, m, i - 1);
      assert Keeps(run, inv, i - 1);
    }
  }

  /** One more step makes a longer run. */
  lemma Longer<T(!new)>(run: seq<T>, step: (T, T) -> bool, next: T)
    requires |run| > 0 && step(run[|run| - 1], next) && forall i :: 0 <= i && i + 1 < |run| ==> step(run[i], run[i + 1])
    ensures forall i :: 0 <= i && i + 1 < |run + [next]| ==> step((run + [next])[i], (run + [next])[i + 1])
  {
  }
}
