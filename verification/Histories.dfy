/** Runs with the actions that make them up, from any reachable state on. */
module Histories {
  import opened Memory
  import opened Protocol
  import opened Invariant
  import opened Runs
  import opened Propagation

  /** The run starts in a reachable state, and each action leads from one of its states to the next. */
  ghost predicate Performs(run: seq<Sys>, acts: seq<Action>) {
    && |run| == |acts| + 1 && Reachable(run[0])
    && forall i :: 0 <= i < |acts| ==> Enabled(run[i], acts[i]) && run[i + 1] == Apply(run[i], acts[i])
  }

  /** Every run is made up of actions. */
  lemma {:induction false} RunPerforms(run: seq<Sys>) returns (acts: seq<Action>)
    requires IsRun(run)
    ensures Performs(run, acts)
    decreases |run|
  {
    hide Init, Enabled, Apply;
    if |run| == 1 {
      acts := [];
      assert IsRun(run) && Last(run) == run[0];
    } else {
      var k := |run| - 1;
      var before := run[..k];
      forall i | 0 <= i < k - 1 ensures Next(before[i], before[i + 1]) { assert Next(run[i], run[i + 1]); }
      acts := RunPerforms(before);
      assert Next(run[k - 1], run[k - 1 + 1]);
      var action :| Enabled(run[k - 1], action) && run[k] == Apply(run[k - 1], action);
      var was := acts;
      acts := acts + [action];
      forall i | 0 <= i < |acts| ensures Enabled(run[i], acts[i]) && run[i + 1] == Apply(run[i], acts[i]) {
        if i < k - 1 { assert before[i + 1] == Apply(before[i], was[i]); }
      }
      assert Reachable(before[0]);
    }
  }

  lemma {:induction false} AllReachable(run: seq<Sys>, acts: seq<Action>, i: nat)
    requires Performs(run, acts) && i <= |acts|
    ensures Reachable(run[i])
  {
    hide Reachable, Enabled, Apply;
    if i > 0 {
      AllReachable(run, acts, i - 1);
      assert run[i - 1 + 1] == Apply(run[i - 1], acts[i - 1]);
      assert Next(run[i - 1], run[i]);
      ReachableNext(run[i - 1], run[i]);
    }
  }

  lemma InvAt(run: seq<Sys>, acts: seq<Action>, i: nat)
    requires Performs(run, acts) && i <= |acts|
    ensures Inv(run[i])
  {
    hide Reachable, Inv, Enabled, Apply;
    AllReachable(run, acts, i);
    ReachableInv(run[i]);
  }

  /** One step of the run. */
  lemma StepAt(run: seq<Sys>, acts: seq<Action>, i: nat)
    requires Performs(run, acts) && i < |acts|
    ensures Enabled(run[i], acts[i]) && run[i + 1] == Apply(run[i], acts[i])
    ensures Inv(run[i]) && Inv(run[i + 1]) && Evolves(run[i].nodes, run[i + 1].nodes)
  {
    hide Reachable, Inv, Enabled, Apply, Evolves;
    InvAt(run, acts, i);
    InvStep(run[i], acts[i]);
  }

  /** What is below and what has stopped stays so. */
  lemma {:induction false} NodesLast(run: seq<Sys>, acts: seq<Action>, i: nat, j: nat, a: nat, n: nat)
    requires Performs(run, acts) && i <= j <= |acts| && Within(run[i].nodes, a, n)
    ensures Within(run[j].nodes, a, n)
    decreases j
  {
    hide Inv, Enabled, Apply, Evolves, Reachable;
    if i < j {
      NodesLast(run, acts, i, j - 1, a, n);
      StepAt(run, acts, j - 1);
      WithinLasts(run[j - 1].nodes, run[j].nodes, a, n);
    }
  }

  lemma {:induction false} StoppedLasts(run: seq<Sys>, acts: seq<Action>, i: nat, j: nat, n: nat)
    requires Performs(run, acts) && i <= j <= |acts| && n < |run[i].nodes| && run[i].nodes[n].word.stopped
    ensures n < |run[j].nodes| && run[j].nodes[n].word.stopped
    decreases j
  {
    hide Inv, Enabled, Apply, Evolves, Reachable;
    if i < j {
      StoppedLasts(run, acts, i, j - 1, n);
      StepAt(run, acts, j - 1);
      EvolvesAt(run[j - 1].nodes, run[j].nodes, n);
    }
  }

  /** The action is a step of thread `t`'s call. */
  predicate Moves(action: Action, t: nat) {
    action.Run? && action.t == t
  }

  /** The run goes from just before an action of thread `t` to the moment when the call that the action
      began is over. */
  ghost predicate WholeCall(run: seq<Sys>, acts: seq<Action>, t: nat) {
    && Performs(run, acts) && |acts| > 0 && t < |run[0].threads|
    && (forall i :: 0 < i < |acts| ==> t < |run[i].threads| && run[i].threads[t] != [])
    && t < |run[|acts|].threads| && run[|acts|].threads[t] == []
  }
}
