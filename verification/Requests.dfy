/** What requests come to: a node that was asked to stop is stopped, or a call is about to stop it; and
    a root whose last handle has dropped was asked to. At quiescence, then, the stopped live nodes are
    exactly those that were asked, or that have an ancestor which was. */
module Requests {
  import opened Memory
  import opened Protocol
  import opened Ledger
  import opened Invariant
  import opened StackSteps
  import opened Runs
  import opened Propagation
  import opened Safety
  import opened Obligations
  import opened Handles

  /** The node has stopped, or a call is about to stop it. */
  ghost predicate Heeded(sys: Sys, n: nat) {
    n < |sys.nodes| && (sys.nodes[n].word.stopped || InProgress(sys, Stop(n, Begin)))
  }

  ghost predicate RequestsOk(sys: Sys) {
    && (forall n :: n in sys.requested ==> Heeded(sys, n))
    && (forall n: nat :: n < |sys.nodes| && sys.nodes[n].link.Root? && sys.nodes[n].handles == 0 ==> n in sys.requested)
  }

  /** A call that is about to stop a node keeps its frame until it does. */
  lemma StopStays(sys: Sys, t: nat, ch: Choice, n: nat)
    requires Enabled(sys, Run(t, ch)) && InProgress(sys, Stop(n, Begin)) && n < |Advance(sys, t, ch).nodes|
    ensures Heeded(Advance(sys, t, ch), n)
  {
    hide Perform, Safe, Allowed;
    var u, k :| 0 <= u < |sys.threads| && 0 <= k < |sys.threads[u]| && sys.threads[u][k] == Stop(n, Begin);
    var sys', stack := Advance(sys, t, ch), sys.threads[t];
    if u == t && k == |stack| - 1 {
      BeginStops(sys, n, ch);
    } else {
      assert sys'.threads[u][k] == Stop(n, Begin);
    }
  }

  /** Frames never take a handle away. */
  lemma HandlesGrow(sys: Sys, f: Frame, ch: Choice, n: nat)
    requires Safe(sys.nodes, f) && Allowed(sys.nodes, f, ch) && Evolves(sys.nodes, Perform(sys, f, ch).nodes)
    requires var nodes' := Perform(sys, f, ch).nodes; n < |nodes'| && nodes'[n].link.Root? && nodes'[n].handles == 0
    ensures n < |sys.nodes| && sys.nodes[n].link.Root? && sys.nodes[n].handles == 0
  {
    hide Safe, Allowed, Perform, Evolves, LinkEvolves;
    RunHandles(sys, f, ch, n);
    if n < |sys.nodes| {
      LinksLast(sys.nodes, Perform(sys, f, ch).nodes, n);
      LinkStaysChild(sys.nodes[n].link, Perform(sys, f, ch).nodes[n].link);
    } else {
      AllocIsChild(sys, f, ch);
    }
  }

  lemma RunRequests(sys: Sys, t: nat, ch: Choice)
    requires Inv(sys) && RequestsOk(sys) && Enabled(sys, Run(t, ch)) && Evolves(sys.nodes, Advance(sys, t, ch).nodes)
    ensures RequestsOk(Advance(sys, t, ch))
  {
    hide Inv, Perform, Safe, Allowed, Evolves, FrameOk, StackOk, InProgress, Uses, Registries, Balanced, Latches;
    hide Words, CollectsOwed;
    var sys' := Advance(sys, t, ch);
    TopFacts(sys, t);
    forall n | n in sys'.requested ensures Heeded(sys', n) {
      assert Heeded(sys, n);
      EvolvesAt(sys.nodes, sys'.nodes, n);
      if InProgress(sys, Stop(n, Begin)) { StopStays(sys, t, ch, n); }
    }
    forall n: nat | n < |sys'.nodes| && sys'.nodes[n].link.Root? && sys'.nodes[n].handles == 0 ensures n in sys'.requested {
      HandlesGrow(sys, Last(sys.threads[t]), ch, n);
    }
  }

  /** A call that starts leaves the others alone, and stops what it is asked to. */
  lemma StartHeeds(sys: Sys, action: Action, n: nat)
    requires Enabled(sys, action) && !action.Run? && (n in sys.requested ==> Heeded(sys, n)) && n in Apply(sys, action).requested
    ensures Heeded(Apply(sys, action), n)
  {
    hide Unpinned, StepWaiter, NewNode, Plus;
    var sys' := Apply(sys, action);
    if n in sys.requested && InProgress(sys, Stop(n, Begin)) {
      var t, k :| 0 <= t < |sys.threads| && 0 <= k < |sys.threads[t]| && sys.threads[t][k] == Stop(n, Begin);
      assert sys'.threads[t] == sys.threads[t];
    }
    if n !in sys.requested { assert sys'.threads[action.t][0] == Stop(n, Begin); }
  }

  lemma StartRoots(sys: Sys, action: Action, n: nat)
    requires Enabled(sys, action) && !action.Run?
    requires var sys' := Apply(sys, action); n < |sys'.nodes| && sys'.nodes[n].link.Root? && sys'.nodes[n].handles == 0
    ensures n in Apply(sys, action).requested || (n < |sys.nodes| && sys.nodes[n].link.Root? && sys.nodes[n].handles == 0)
    ensures sys.requested <= Apply(sys, action).requested
  {
    hide Unpinned, StepWaiter;
  }

  lemma RequestsStep(sys: Sys, action: Action)
    requires Inv(sys) && RequestsOk(sys) && Enabled(sys, action) && Evolves(sys.nodes, Apply(sys, action).nodes)
    ensures RequestsOk(Apply(sys, action))
  {
    hide Inv, Heeded, Evolves, Perform, Safe, Allowed, Unpinned, StepWaiter, SetShard, SetLife, SetHandles;
    if action.Run? {
      RunRequests(sys, action.t, action.ch);
    } else {
      var sys' := Apply(sys, action);
      forall n | n in sys'.requested ensures Heeded(sys', n) { StartHeeds(sys, action, n); }
      forall n: nat | n < |sys'.nodes| && sys'.nodes[n].link.Root? && sys'.nodes[n].handles == 0 ensures n in sys'.requested {
        StartRoots(sys, action, n);
      }
    }
  }

  lemma {:induction false} RunsRequests(run: seq<Sys>, i: nat)
    requires IsRun(run) && i < |run|
    ensures RequestsOk(run[i])
  {
    hide Inv, Enabled, Apply, Evolves, Heeded;
    if i > 0 {
      RunsRequests(run, i - 1);
      RunInv(run, i - 1);
      assert Next(run[i - 1], run[i - 1 + 1]);
      var action :| Enabled(run[i - 1], action) && run[i] == Apply(run[i - 1], action);
      InvStep(run[i - 1], action);
      RequestsStep(run[i - 1], action);
    }
  }

  /** In every reachable state, a root whose last handle has dropped was asked to stop, and whatever was
      asked to stop is stopped or about to be. */
  lemma RequestsHeeded(sys: Sys, n: nat)
    requires Reachable(sys) && n < |sys.nodes|
    ensures sys.nodes[n].link.Root? && sys.nodes[n].handles == 0 ==> n in sys.requested
    ensures n in sys.requested ==> sys.nodes[n].word.stopped || InProgress(sys, Stop(n, Begin))
  {
    hide Next, Init, InProgress;
    var run :| IsRun(run) && Last(run) == sys;
    RunsRequests(run, |run| - 1);
    assert n in sys.requested ==> Heeded(sys, n);
  }

  lemma {:induction false} WithinValid(nodes: seq<Node>, a: nat, n: nat)
    requires Within(nodes, a, n)
    ensures a < |nodes|
    decreases n
  {
    if a != n { WithinValid(nodes, a, nodes[n].link.parent); }
  }

  /** With no call in progress, a live node is stopped exactly when it or an ancestor was asked to stop. */
  lemma QuiescentStopped(sys: Sys, n: nat)
    requires Reachable(sys) && Quiescent(sys) && ValidNode(sys.nodes, n) && sys.nodes[n].life.Live?
    ensures sys.nodes[n].word.stopped <==> exists a: nat :: a in sys.requested && Within(sys.nodes, a, n)
  {
    hide Reachable, Inv;
    StopFlowsDown(sys, n);
    if a: nat :| a in sys.requested && Within(sys.nodes, a, n) {
      WithinValid(sys.nodes, a, n);
      RequestsHeeded(sys, a);
      QuiescentStopReaches(sys, a, n);
    }
  }
}
