/** Where stops come from: over every run, stop bits never clear, and a node stops only if it or an
    ancestor was asked to. */
module Propagation {
  import opened Memory
  import opened Protocol
  import opened Ledger
  import opened Invariant
  import opened StackSteps
  import opened DutySteps
  import opened Runs

  // ---- Stops come from requests -----------------------------------------------------------------------

  /** The node or one of its ancestors was asked to stop. */
  ghost predicate Governed(nodes: seq<Node>, requested: set<nat>, n: nat) {
    exists a: nat :: a in requested && Within(nodes, a, n)
  }

  ghost predicate StopsGoverned(sys: Sys) {
    && (forall n: nat :: ValidNode(sys.nodes, n) && sys.nodes[n].word.stopped ==> Governed(sys.nodes, sys.requested, n))
    && (forall t, k :: 0 <= t < |sys.threads| && 0 <= k < |sys.threads[t]| && sys.threads[t][k].Stop? ==>
          Governed(sys.nodes, sys.requested, sys.threads[t][k].n))
  }

  lemma {:induction false} WithinLasts(nodes: seq<Node>, nodes': seq<Node>, a: nat, n: nat)
    requires Evolves(nodes, nodes') && Within(nodes, a, n)
    ensures Within(nodes', a, n)
    decreases n
  {
    hide Listed;
    assert NodeEvolves(nodes[n], nodes'[n]);
    if a != n { WithinLasts(nodes, nodes', a, nodes[n].link.parent); }
  }

  lemma GovernedLasts(nodes: seq<Node>, nodes': seq<Node>, requested: set<nat>, requested': set<nat>, n: nat)
    requires Evolves(nodes, nodes') && Governed(nodes, requested, n) && requested <= requested'
    ensures Governed(nodes', requested', n)
  {
    hide Evolves;
    var a: nat :| a in requested && Within(nodes, a, n);
    WithinLasts(nodes, nodes', a, n);
  }

  lemma GovernedChild(nodes: seq<Node>, requested: set<nat>, p: nat, c: nat)
    requires Governed(nodes, requested, p) && IsChild(nodes, c) && nodes[c].link.parent == p && p < c
    ensures Governed(nodes, requested, c)
  {
    var a: nat :| a in requested && Within(nodes, a, p);
    assert Within(nodes, a, c);
  }

  /** Only the first step of a stop sets a node's stop bit. */
  lemma StoppedByStop(sys: Sys, f: Frame, ch: Choice, n: nat)
    requires Safe(sys.nodes, f) && Allowed(sys.nodes, f, ch)
    requires var nodes' := Perform(sys, f, ch).nodes; ValidNode(nodes', n) && nodes'[n].word.stopped
    ensures ValidNode(sys.nodes, n) && (sys.nodes[n].word.stopped || f == Stop(n, Begin))
  {
    hide LiveChildren, NotifyAll;
  }

  lemma BeginStops(sys: Sys, n: nat, ch: Choice)
    requires Safe(sys.nodes, Stop(n, Begin)) && Allowed(sys.nodes, Stop(n, Begin), ch)
    ensures var nodes' := Perform(sys, Stop(n, Begin), ch).nodes; n < |nodes'| && nodes'[n].word.stopped
  {
  }

  /** Where the stops that a frame calls come from. */
  ghost predicate StopSource(sys: Sys, f: Frame, g: Frame) {
    g.Stop? ==>
      || (f.Stop? && g.n == f.n)
      || (f.Stop? && f.stpc.Descend? && g.n in f.stpc.work)
      || (f.NewChild? && f.cpc.Check? && g.n == f.cpc.child && f.parent < |sys.nodes| && sys.nodes[f.parent].word.stopped)
  }

  lemma StopsPushed(sys: Sys, f: Frame, ch: Choice)
    requires Safe(sys.nodes, f) && Allowed(sys.nodes, f, ch)
    ensures forall g :: g in Perform(sys, f, ch).push ==> StopSource(sys, f, g)
  {
    hide LiveChildren, NotifyAll, SetShard, SetNode, Registered, SetLife, SetChildren;
  }

  /** A stop called by a governed frame is governed. */
  lemma PushedGoverned(sys: Sys, f: Frame, g: Frame)
    requires FrameOk(sys.nodes, f) && Forest(sys.nodes) && g.Stop? && StopSource(sys, f, g)
    requires f.Stop? ==> Governed(sys.nodes, sys.requested, f.n)
    requires forall n: nat :: ValidNode(sys.nodes, n) && sys.nodes[n].word.stopped ==> Governed(sys.nodes, sys.requested, n)
    ensures Governed(sys.nodes, sys.requested, g.n)
  {
    hide Governed;
    if f.Stop? {
      if g.n != f.n { GovernedChild(sys.nodes, sys.requested, f.n, g.n); }
    } else {
      GovernedChild(sys.nodes, sys.requested, f.parent, g.n);
    }
  }

  lemma FramesFrom(sys: Sys, t: nat, ch: Choice, k: nat)
    requires Enabled(sys, Run(t, ch)) && k < |Advance(sys, t, ch).threads[t]| && Advance(sys, t, ch).threads[t][k].Stop?
    ensures var stack', o := Advance(sys, t, ch).threads[t], Perform(sys, Last(sys.threads[t]), ch);
            stack'[k] in o.push || (k < |sys.threads[t]| && sys.threads[t][k] == stack'[k])
  {
    hide Perform, Safe, Allowed;
  }

  lemma RunGoverned(sys: Sys, t: nat, ch: Choice)
    requires Inv(sys) && StopsGoverned(sys) && Enabled(sys, Run(t, ch)) && Evolves(sys.nodes, Advance(sys, t, ch).nodes)
    ensures StopsGoverned(Advance(sys, t, ch))
  {
    hide Inv, Perform, Safe, Allowed, Evolves, Governed, FrameOk, StackOk, Latches, Registries, Balanced;
    hide CollectsOwed, Uses, StopSource;
    var sys', f := Advance(sys, t, ch), Last(sys.threads[t]);
    TopFacts(sys, t);
    StopsPushed(sys, f, ch);
    var top := |sys.threads[t]| - 1;
    assert f == sys.threads[t][top];
    forall n: nat | ValidNode(sys'.nodes, n) && sys'.nodes[n].word.stopped ensures Governed(sys'.nodes, sys'.requested, n) {
      StoppedByStop(sys, f, ch, n);
      GovernedLasts(sys.nodes, sys'.nodes, sys.requested, sys.requested, n);
    }
    forall u: nat, k: nat | u < |sys'.threads| && k < |sys'.threads[u]| && sys'.threads[u][k].Stop?
      ensures Governed(sys'.nodes, sys'.requested, sys'.threads[u][k].n)
    {
      var g := sys'.threads[u][k];
      if u == t { FramesFrom(sys, t, ch, k); }
      if u == t && g in Perform(sys, f, ch).push {
        PushedGoverned(sys, f, g);
      } else {
        assert g == sys.threads[u][k];
      }
      GovernedLasts(sys.nodes, sys'.nodes, sys.requested, sys.requested, g.n);
    }
  }

  lemma StartedStops(sys: Sys, action: Action, u: nat, k: nat)
    requires Enabled(sys, action) && !action.Run? && u < |sys.threads|
    requires k < |Apply(sys, action).threads[u]| && Apply(sys, action).threads[u][k].Stop?
    ensures (k < |sys.threads[u]| && Apply(sys, action).threads[u][k] == sys.threads[u][k])
            || (Apply(sys, action).threads[u][k].n in Apply(sys, action).requested && Apply(sys, action).threads[u][k].n < |sys.nodes|)
  {
    hide Unpinned, SetShard, SetLife, SetHandles, StepWaiter, NewNode, Plus, ValidShard;
  }

  lemma RequestedGoverned(nodes: seq<Node>, requested: set<nat>, n: nat)
    requires n in requested && n < |nodes|
    ensures Governed(nodes, requested, n)
  {
    assert Within(nodes, n, n);
  }

  lemma StartThreads(sys: Sys, action: Action)
    requires Enabled(sys, action) && !action.Run?
    ensures |Apply(sys, action).threads| == |sys.threads| && sys.requested <= Apply(sys, action).requested
  {
    hide Unpinned, SetShard, SetLife, StepWaiter;
  }

  lemma StartWordsStopped(sys: Sys, action: Action, n: nat)
    requires Enabled(sys, action) && !action.Run? && ValidNode(Apply(sys, action).nodes, n) && Apply(sys, action).nodes[n].word.stopped
    ensures ValidNode(sys.nodes, n) && sys.nodes[n].word.stopped && sys.requested <= Apply(sys, action).requested
  {
    hide Unpinned, StepWaiter;
  }

  lemma StartGoverned(sys: Sys, action: Action)
    requires StopsGoverned(sys) && Enabled(sys, action) && !action.Run? && Evolves(sys.nodes, Apply(sys, action).nodes)
    ensures StopsGoverned(Apply(sys, action))
  {
    hide Perform, Safe, Allowed, Evolves, Governed, Enabled, Apply;
    var sys' := Apply(sys, action);
    forall n: nat | ValidNode(sys'.nodes, n) && sys'.nodes[n].word.stopped ensures Governed(sys'.nodes, sys'.requested, n) {
      StartWordsStopped(sys, action, n);
      GovernedLasts(sys.nodes, sys'.nodes, sys.requested, sys'.requested, n);
    }
    StartThreads(sys, action);
    forall u: nat, k: nat | u < |sys'.threads| && k < |sys'.threads[u]| && sys'.threads[u][k].Stop?
      ensures Governed(sys'.nodes, sys'.requested, sys'.threads[u][k].n)
    {
      StartedStops(sys, action, u, k);
      if k < |sys.threads[u]| && sys'.threads[u][k] == sys.threads[u][k] {
        GovernedLasts(sys.nodes, sys'.nodes, sys.requested, sys'.requested, sys'.threads[u][k].n);
      } else {
        RequestedGoverned(sys.nodes, sys'.requested, sys'.threads[u][k].n);
        GovernedLasts(sys.nodes, sys'.nodes, sys'.requested, sys'.requested, sys'.threads[u][k].n);
      }
    }
  }

  lemma GovernedStep(sys: Sys, action: Action)
    requires Inv(sys) && StopsGoverned(sys) && Enabled(sys, action) && Evolves(sys.nodes, Apply(sys, action).nodes)
    ensures StopsGoverned(Apply(sys, action))
  {
    hide Inv, StopsGoverned, Evolves, Perform, Safe, Allowed;
    if action.Run? { RunGoverned(sys, action.t, action.ch); } else { StartGoverned(sys, action); }
  }

  lemma {:induction false} RunsGoverned(run: seq<Sys>, i: nat)
    requires IsRun(run) && i < |run|
    ensures StopsGoverned(run[i])
  {
    hide Inv, Enabled, Apply, Evolves;
    if i > 0 {
      RunsGoverned(run, i - 1);
      RunInv(run, i - 1);
      assert Next(run[i - 1], run[i - 1 + 1]);
      var action :| Enabled(run[i - 1], action) && run[i] == Apply(run[i - 1], action);
      InvStep(run[i - 1], action);
      GovernedStep(run[i - 1], action);
    }
  }

  lemma LatchesHold(sys: Sys)
    requires Inv(sys)
    ensures Latches(sys.nodes)
  {
  }

  /** A node is stopped only if it or an ancestor was asked to stop, by `shut_down` or by the last
      handle of a root; a shard is stopped only if its node is stopped or being collected. */
  lemma StopFlowsDown(sys: Sys, n: nat)
    requires Reachable(sys) && ValidNode(sys.nodes, n)
    ensures sys.nodes[n].word.stopped ==> exists a: nat :: a in sys.requested && Within(sys.nodes, a, n)
    ensures forall s: nat :: s < |sys.nodes[n].shards| && sys.nodes[n].shards[s].word.stopped ==>
              sys.nodes[n].word.stopped || !sys.nodes[n].life.Live?
  {
    hide Next, Init, Inv;
    var run :| IsRun(run) && Last(run) == sys;
    RunsGoverned(run, |run| - 1);
    ReachableInv(sys);
    LatchesHold(sys);
  }

  // ---- Stop bits never clear ----------------------------------------------------------------------------

  /** Throughout a run, neither a node's stop bit nor a shard's ever clears. */
  lemma {:induction false} StopBitsNeverClear(run: seq<Sys>, i: nat, j: nat, n: nat, s: nat)
    requires IsRun(run) && i <= j < |run| && ValidShard(run[i].nodes, n, s)
    ensures ValidShard(run[j].nodes, n, s)
    ensures run[i].nodes[n].word.stopped ==> run[j].nodes[n].word.stopped
    ensures run[i].nodes[n].shards[s].word.stopped ==> run[j].nodes[n].shards[s].word.stopped
    decreases j
  {
    hide Inv, Enabled, Apply, Init, Listed;
    if i < j {
      StopBitsNeverClear(run, i, j - 1, n, s);
      RunInv(run, j - 1);
      assert Next(run[j - 1], run[j - 1 + 1]);
      var action :| Enabled(run[j - 1], action) && run[j] == Apply(run[j - 1], action);
      InvStep(run[j - 1], action);
      assert NodeEvolves(run[j - 1].nodes[n], run[j].nodes[n]);
    }
  }

  lemma EvolvesAt(nodes: seq<Node>, nodes': seq<Node>, n: nat)
    requires Evolves(nodes, nodes') && n < |nodes|
    ensures n < |nodes'| && (nodes[n].word.stopped ==> nodes'[n].word.stopped)
  {
    assert NodeEvolves(nodes[n], nodes'[n]);
  }

  lemma ReleaseFacts(sys: Sys, t: nat, k: nat)
    requires Inv(sys) && t < |sys.threads| && k < |sys.threads[t]| && sys.threads[t][k].Release?
    ensures var f := sys.threads[t][k]; f.n < |sys.nodes| && (f.left.stopped || !sys.nodes[f.n].life.Live?)
  {
    hide ThreadTokens, Words, Latches, Registries, Balanced, Duties, Waiters, Lives, Departures;
    assert StackOk(sys.nodes, sys.threads[t]);
    assert FrameOk(sys.nodes, sys.threads[t][k]);
  }

  /** Nothing stops a node that is being collected. */
  lemma UnstoppedWhileDying(sys: Sys, action: Action, n: nat)
    requires Inv(sys) && Enabled(sys, action) && n < |sys.nodes| && !sys.nodes[n].life.Live?
    requires n < |Apply(sys, action).nodes| && Apply(sys, action).nodes[n].word.stopped
    ensures sys.nodes[n].word.stopped
  {
    hide Inv, Perform, Unpinned, StepWaiter, SetShard, ThreadTokens, StackOk, FrameOk, Uses, CollectsOwed;
    hide Registries, Balanced, Latches, Words;
    match action
    case Run(t, ch) =>
      TopFacts(sys, t);
      StoppedByStop(sys, Last(sys.threads[t]), ch, n);
      if Last(sys.threads[t]).Stop? { StopIsLive(sys, t); }
    case _ => StartWordsStopped(sys, action, n);
  }

  /** While a call is about to release a child from its parent shard, whatever changes the child's
      word leaves its stop bit alone: the exchange can lose to arrivals and departures only. */
  lemma ReleaseNeverRacesStop(sys: Sys, action: Action, t: nat, k: nat)
    requires Reachable(sys) && Enabled(sys, action)
    requires t < |sys.threads| && k < |sys.threads[t]| && sys.threads[t][k].Release?
    requires var f := sys.threads[t][k]; ValidNode(sys.nodes, f.n) && sys.nodes[f.n].word == f.left
    ensures var n, nodes' := sys.threads[t][k].n, Apply(sys, action).nodes;
            n < |nodes'| && nodes'[n].word.stopped == sys.nodes[n].word.stopped
  {
    hide Reachable, Inv, Enabled, Apply, Evolves;
    ReachableInv(sys);
    var n := sys.threads[t][k].n;
    ReleaseFacts(sys, t, k);
    InvStep(sys, action);
    EvolvesAt(sys.nodes, Apply(sys, action).nodes, n);
    if !sys.nodes[n].life.Live? && Apply(sys, action).nodes[n].word.stopped { UnstoppedWhileDying(sys, action, n); }
  }
}
