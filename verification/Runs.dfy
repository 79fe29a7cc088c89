/** Runs of a state machine: from an initial state, one move after the other. */
module Runs {

  /** states[i + 1] follows from states[i] by steps[i]. */
  ghost predicate IsRun<S(!new), T(!new)>(initial: S -> bool, moves: (S, T, S) -> bool, states: seq<S>, steps: seq<T>) {
    && |states| == |steps| + 1 && initial(states[0])
    && forall i {:trigger steps[i]} :: 0 <= i < |steps| ==> moves(states[i], steps[i], states[i + 1])
  }

  ghost predicate Reachable<S(!new), T(!new)>(initial: S -> bool, moves: (S, T, S) -> bool, s: S) {
    exists states: seq<S>, steps: seq<T> :: IsRun(initial, moves, states, steps) && states[|steps|] == s
  }

  ghost predicate Inductive<S(!new), T(!new)>(initial: S -> bool, moves: (S, T, S) -> bool, inv: S -> bool) {
    && (forall s :: initial(s) ==> inv(s))
    && forall s, t, s' :: inv(s) && moves(s, t, s') ==> inv(s')
  }

  /** What starts out and is kept by every move holds at every point of every run. */
  lemma {:induction false} RunKeeps<S(!new), T(!new)>(initial: S -> bool, moves: (S, T, S) -> bool, inv: S -> bool,
                                                      states: seq<S>, steps: seq<T>, k: nat)
    requires Inductive(initial, moves, inv) && IsRun(initial, moves, states, steps) && k <= |steps|
    ensures inv(states[k])
  {
    if k > 0 {
      RunKeeps(initial, moves, inv, states, steps, k - 1);
      assert moves(states[k - 1], steps[k - 1], states[k]);
    }
  }

  lemma ReachableKeeps<S(!new), T(!new)>(initial: S -> bool, moves: (S, T, S) -> bool, inv: S -> bool, s: S)
    requires Inductive(initial, moves, inv) && Reachable(initial, moves, s)
    ensures inv(s)
  {
    var states: seq<S>, steps: seq<T> :| IsRun(initial, moves, states, steps) && states[|steps|] == s;
    RunKeeps(initial, moves, inv, states, steps, |steps|);
  }

  lemma InitialIsReachable<S(!new), T(!new)>(initial: S -> bool, moves: (S, T, S) -> bool, s: S)
    requires initial(s)
    ensures Reachable(initial, moves, s)
  {
    var steps: seq<T> := [];
    assert IsRun(initial, moves, [s], steps);
  }

  lemma NextIsReachable<S(!new), T(!new)>(initial: S -> bool, moves: (S, T, S) -> bool, s: S, step: T, s': S)
    requires Reachable(initial, moves, s) && moves(s, step, s')
    ensures Reachable(initial, moves, s')
  {
    var states: seq<S>, steps: seq<T> :| IsRun(initial, moves, states, steps) && states[|steps|] == s;
    var states', steps' := states + [s'], steps + [step];
    forall i | 0 <= i < |steps'| ensures moves(states'[i], steps'[i], states'[i + 1]) {
      if i < |steps| {
        assert steps'[i] == steps[i];
      }
    }
    assert IsRun(initial, moves, states', steps') && states'[|steps'|] == s';
  }
}
