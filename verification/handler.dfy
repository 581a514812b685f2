// The scene-update handler of the RBF solvers (RBFNodes/core/handler.py):
// a throttle on the refresh rate, and the choice of the solvers that are
// evaluated on a refresh.

module RbfHandler {
  import opened Wrappers

  /** The minimum time between two refreshes, in seconds. */
  const Interval: real := 0.01

  /** The state of an RBF node the handler reads. */
  datatype SolverState = SolverState(active: bool, mute: bool)

  /** Whether node n of tree t is evaluated on a refresh. */
  predicate Evaluated(trees: seq<seq<SolverState>>, t: nat, n: nat)
  {
    t < |trees| && n < |trees[t]| && trees[t][n].active && !trees[t][n].mute
  }

  /** Tree-major order of (tree, node) positions. */
  predicate Before(a: (nat, nat), b: (nat, nat))
  {
    a.0 < b.0 || (a.0 == b.0 && a.1 < b.1)
  }

  /** The solvers a refresh evaluates (`rbf.getPoseWeights`), as
    * (tree, node) positions in scan order: exactly the active, unmuted
    * RBF nodes of all RBF trees. */
  method EvaluatedSolvers(trees: seq<seq<SolverState>>) returns (r: seq<(nat, nat)>)
    ensures forall t: nat, n: nat :: (t, n) in r <==> Evaluated(trees, t, n)
    ensures forall a, b :: 0 <= a < b < |r| ==> Before(r[a], r[b])
  {
    r := [];
    var t := 0;
    while t < |trees|
      invariant 0 <= t <= |trees|
      invariant forall u: nat, n: nat :: (u, n) in r <==> u < t && Evaluated(trees, u, n)
      invariant forall a, b :: 0 <= a < b < |r| ==> Before(r[a], r[b])
      invariant forall a :: 0 <= a < |r| ==> r[a].0 < t
    {
      var n := 0;
      while n < |trees[t]|
        invariant 0 <= n <= |trees[t]|
        invariant forall u: nat, m: nat :: (u, m) in r <==> (u < t && Evaluated(trees, u, m)) || (u == t && m < n && Evaluated(trees, u, m))
        invariant forall a, b :: 0 <= a < b < |r| ==> Before(r[a], r[b])
        invariant forall a :: 0 <= a < |r| ==> r[a].0 < t || (r[a].0 == t && r[a].1 < n)
      {
        if trees[t][n].active && !trees[t][n].mute {
          r := r + [(t, n)];
        }
        n := n + 1;
      }
      t := t + 1;
    }
  }

  /** `updateTimer`: the time of the last refresh, if any. */
  class RefreshTimer {
    var start: Option<real>

    constructor ()
      ensures start.None?
    {
      start := None;
    }

    /** `refresh` at time `now` (one reading of the clock): the first call
      * and every call more than `Interval` after the last refresh
      * refresh and restart the timer; the others do nothing. */
    method Refresh(now: real, trees: seq<seq<SolverState>>) returns (evaluated: seq<(nat, nat)>)
      modifies this
      ensures var due := old(start).None? || now - old(start).value > Interval;
              (due ==> start == Some(now) && forall t: nat, n: nat :: (t, n) in evaluated <==> Evaluated(trees, t, n)) &&
              (!due ==> start == old(start) && evaluated == [])
    {
      evaluated := [];
      if start.None? || now - start.value > Interval {
        start := Some(now);
        evaluated := EvaluatedSolvers(trees);
      }
    }
  }
}
