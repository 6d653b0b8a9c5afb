/** The invariant holds in every reachable state. */
module Runs {
  import opened Protocol
  import opened Ledger
  import opened LedgerSteps
  import opened Invariant
  import opened MemorySteps
  import opened StackSteps
  import opened DutySteps
  import opened LifeSteps
  import opened WaiterSteps

  lemma InitInv(sys: Sys)
    requires Init(sys)
    ensures Inv(sys)
  {
    QuiescentHoldsNothing(sys);
  }

  lemma BalanceFacts(sys: Sys)
    requires Inv(sys)
    ensures Stacks(sys.nodes, sys.threads) && Balanced(sys.nodes, sys.guards, ThreadTokens(sys.threads))
  {
  }

  /** Every transition keeps the invariant. */
  lemma InvStep(sys: Sys, action: Action)
    requires Inv(sys) && Enabled(sys, action)
    ensures Inv(Apply(sys, action)) && Evolves(sys.nodes, Apply(sys, action).nodes)
  {
    hide Enabled, Apply, ThreadTokens, Balanced, Words, Latches, Registries, Stacks, Lives, Departures, Duties;
    hide Waiters, Evolves;
    MemoryStep(sys, action);
    StacksStep(sys, action);
    BalanceFacts(sys);
    BalancedStep(sys, action);
    DutiesStep(sys, action);
    WaitersStep(sys, action);
    LivesStep(sys, action);
  }

  /** The invariant holds throughout every run. */
  lemma {:induction false} RunInv(run: seq<Sys>, i: nat)
    requires IsRun(run) && i < |run|
    ensures Inv(run[i])
  {
    hide Init, Inv, Enabled, Apply;
    if i == 0 {
      InitInv(run[0]);
    } else {
      RunInv(run, i - 1);
      assert Next(run[i - 1], run[i - 1 + 1]);
      var action :| Enabled(run[i - 1], action) && run[i] == Apply(run[i - 1], action);
      InvStep(run[i - 1], action);
    }
  }

  lemma ReachableInv(sys: Sys)
    requires Reachable(sys)
    ensures Inv(sys)
  {
    hide Init, Inv, Next;
    var run :| IsRun(run) && Last(run) == sys;
    RunInv(run, |run| - 1);
  }

  lemma ReachableNext(sys: Sys, sys': Sys)
    requires Reachable(sys) && Next(sys, sys')
    ensures Reachable(sys')
  {
    hide Next, Init;
    var run :| IsRun(run) && Last(run) == sys;
    var longer := run + [sys'];
    assert forall i :: 0 <= i < |run| ==> longer[i] == run[i];
    assert IsRun(longer) && Last(longer) == sys';
  }
}
