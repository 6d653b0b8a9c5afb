/** What asking comes to, told by the actions of a run alone: `shut_down` on any node, and the drop of a root's
    last handle, stop the node and everything below it, and nothing else stops a node. */
module Shutdowns {
  import opened Memory
  import opened Protocol
  import opened Invariant
  import opened Propagation
  import opened Safety
  import opened Obligations
  import opened Requests
  import opened Histories
  import opened GuardCalls

  /** The action asks the node to stop: `shut_down` does, and the drop of a root's last handle. */
  predicate Asks(sys: Sys, action: Action, n: nat) {
    match action
    case StartStop(_, m) => m == n
    case DropHandle(_, m) => m == n && n < |sys.nodes| && sys.nodes[n].link.Root? && sys.nodes[n].handles == 1
    case _ => false
  }

  /** One of the first `i` actions asked the node to stop. */
  ghost predicate Asked(run: seq<Sys>, acts: seq<Action>, i: nat, n: nat) {
    exists k :: 0 <= k < i && k < |run| && k < |acts| && Asks(run[k], acts[k], n)
  }

  /** The model's record of requests gains exactly what the action asks. */
  lemma RequestedStep(sys: Sys, action: Action, n: nat)
    requires Enabled(sys, action)
    ensures n in Apply(sys, action).requested <==> n in sys.requested || Asks(sys, action, n)
  {
    hide Unpinned, StepWaiter, SetShard, SetLife, SetHandles, NewNode, Plus, ValidShard, Perform, Safe, Allowed;
  }

  lemma AskStarts(sys: Sys, action: Action, n: nat)
    requires Enabled(sys, action) && Asks(sys, action, n)
    ensures exists t :: 0 <= t < |Apply(sys, action).threads| && Apply(sys, action).threads[t] == [Stop(n, Begin)]
    ensures n < |Apply(sys, action).nodes|
  {
    assert Apply(sys, action).threads[action.t] == [Stop(n, Begin)];
  }

  /** Asking a node to stop starts a call that is about to stop it. */
  lemma AskHeeded(sys: Sys, action: Action, n: nat)
    requires Enabled(sys, action) && Asks(sys, action, n)
    ensures n < |Apply(sys, action).nodes| && InProgress(Apply(sys, action), Stop(n, Begin))
  {
    hide Enabled, Apply, Asks;
    AskStarts(sys, action, n);
    var sys' := Apply(sys, action);
    var t :| 0 <= t < |sys'.threads| && sys'.threads[t] == [Stop(n, Begin)];
    FrameInProgress(sys', t, 0);
  }

  lemma RunIsAdvance(sys: Sys, t: nat, ch: Choice)
    requires Enabled(sys, Run(t, ch))
    ensures Apply(sys, Run(t, ch)) == Advance(sys, t, ch)
  {
  }

  lemma HeededStep(sys: Sys, action: Action, n: nat)
    requires Heeded(sys, n) && Enabled(sys, action) && Evolves(sys.nodes, Apply(sys, action).nodes)
    ensures Heeded(Apply(sys, action), n)
  {
    hide Evolves, Apply, Unpinned, Safe, Allowed;
    var sys' := Apply(sys, action);
    EvolvesAt(sys.nodes, sys'.nodes, n);
    if InProgress(sys, Stop(n, Begin)) {
      if action.Run? {
        RunIsAdvance(sys, action.t, action.ch);
        StopStays(sys, action.t, action.ch, n);
      } else {
        var u, k :| 0 <= u < |sys.threads| && 0 <= k < |sys.threads[u]| && sys.threads[u][k] == Stop(n, Begin);
        OthersLeave(sys, action, u);
        FrameInProgress(sys', u, k);
      }
    }
  }

  /** From the asking on, the node is stopped, or a call is about to stop it. */
  lemma {:induction false} AskedIsHeeded(run: seq<Sys>, acts: seq<Action>, i: nat, j: nat, n: nat)
    requires Performs(run, acts) && i < j <= |acts| && Asks(run[i], acts[i], n)
    ensures n < |run[j].nodes| && (run[j].nodes[n].word.stopped || InProgress(run[j], Stop(n, Begin)))
    decreases j
  {
    hide Inv, Enabled, Apply, Evolves, Reachable, InProgress;
    StepAt(run, acts, j - 1);
    if i == j - 1 {
      AskHeeded(run[i], acts[i], n);
    } else {
      AskedIsHeeded(run, acts, i, j - 1, n);
      HeededStep(run[j - 1], acts[j - 1], n);
    }
  }

  lemma NothingAtRest(sys: Sys, f: Frame)
    requires Quiescent(sys)
    ensures !InProgress(sys, f)
  {
  }

  /** `shut_down` on any node, and the drop of a root's last handle, have stopped every live node at and
      below it whenever no call is in progress later. */
  lemma AskReaches(run: seq<Sys>, acts: seq<Action>, i: nat, j: nat, n: nat, m: nat)
    requires Performs(run, acts) && i < j <= |acts| && Asks(run[i], acts[i], n) && Quiescent(run[j])
    requires Within(run[j].nodes, n, m) && run[j].nodes[m].life.Live?
    ensures run[j].nodes[m].word.stopped
  {
    hide Enabled, Apply, Reachable, Asks, InProgress, Quiescent;
    AskedIsHeeded(run, acts, i, j, n);
    NothingAtRest(run[j], Stop(n, Begin));
    AllReachable(run, acts, j);
    QuiescentStopReaches(run[j], n, m);
  }

  /** Since the start of everything, the requests on record are what was asked. */
  lemma {:induction false} RequestedIffAsked(run: seq<Sys>, acts: seq<Action>, i: nat, n: nat)
    requires Performs(run, acts) && Init(run[0]) && i <= |acts|
    ensures n in run[i].requested <==> Asked(run, acts, i, n)
  {
    hide Enabled, Apply, Reachable, Asks;
    if i > 0 {
      RequestedIffAsked(run, acts, i - 1, n);
      assert run[i - 1 + 1] == Apply(run[i - 1], acts[i - 1]);
      RequestedStep(run[i - 1], acts[i - 1], n);
      assert Asked(run, acts, i, n) <==> Asked(run, acts, i - 1, n) || Asks(run[i - 1], acts[i - 1], n);
    }
  }

  /** A node is stopped only if it or an ancestor was asked to: nothing else stops a node, and in particular
      no other drop of a handle does. */
  lemma StoppedWasAsked(run: seq<Sys>, acts: seq<Action>, i: nat, n: nat)
    requires Performs(run, acts) && Init(run[0]) && i <= |acts| && n < |run[i].nodes| && run[i].nodes[n].word.stopped
    ensures exists a: nat :: Within(run[i].nodes, a, n) && Asked(run, acts, i, a)
  {
    hide Enabled, Apply, Reachable, Asked, Init;
    AllReachable(run, acts, i);
    StopFlowsDown(run[i], n);
    var a: nat :| a in run[i].requested && Within(run[i].nodes, a, n);
    RequestedIffAsked(run, acts, i, a);
  }

  /** With no call in progress, a live node is stopped if and only if one of the actions so far asked it or
      an ancestor to stop. */
  lemma QuiescentStoppedIffAsked(run: seq<Sys>, acts: seq<Action>, i: nat, n: nat)
    requires Performs(run, acts) && Init(run[0]) && i <= |acts| && Quiescent(run[i])
    requires n < |run[i].nodes| && run[i].nodes[n].life.Live?
    ensures run[i].nodes[n].word.stopped <==> exists a: nat :: Within(run[i].nodes, a, n) && Asked(run, acts, i, a)
  {
    hide Enabled, Apply, Reachable, Init, Quiescent, Asks;
    if run[i].nodes[n].word.stopped { StoppedWasAsked(run, acts, i, n); }
    if a: nat :| Within(run[i].nodes, a, n) && Asked(run, acts, i, a) {
      var k :| 0 <= k < i && k < |run| && k < |acts| && Asks(run[k], acts[k], a);
      AskReaches(run, acts, k, i, a, n);
    }
  }

  // ---- The call itself --------------------------------------------------------------------------------------

  lemma BeginMoves(sys: Sys, t: nat, ch: Choice, n: nat)
    requires Enabled(sys, Run(t, ch)) && sys.threads[t] == [Stop(n, Begin)]
    ensures n < |Apply(sys, Run(t, ch)).nodes| && Apply(sys, Run(t, ch)).nodes[n].word.stopped
  {
  }

  lemma {:induction false} BeginEnds(run: seq<Sys>, acts: seq<Action>, t: nat, n: nat, i: nat)
    requires WholeCall(run, acts, t) && 0 < i < |acts| && run[i].threads[t] == [Stop(n, Begin)]
    ensures n < |run[|acts|].nodes| && run[|acts|].nodes[n].word.stopped
    decreases |acts| - i
  {
    hide Inv, Enabled, Apply, Reachable, Evolves;
    StepAt(run, acts, i);
    if Moves(acts[i], t) {
      BeginMoves(run[i], t, acts[i].ch, n);
      StoppedLasts(run, acts, i + 1, |acts|, n);
    } else {
      OthersLeave(run[i], acts[i], t);
      BeginEnds(run, acts, t, n, i + 1);
    }
  }

  lemma ShutDownStarts(sys: Sys, t: nat, n: nat)
    requires Enabled(sys, StartStop(t, n))
    ensures Apply(sys, StartStop(t, n)).threads[t] == [Stop(n, Begin)]
  {
  }

  /** When `shut_down` returns, the node is stopped. */
  lemma ShutDownCall(run: seq<Sys>, acts: seq<Action>, t: nat, n: nat)
    requires WholeCall(run, acts, t) && acts[0] == StartStop(t, n)
    ensures n < |run[|acts|].nodes| && run[|acts|].nodes[n].word.stopped
  {
    hide Inv, Enabled, Apply, Reachable, Evolves;
    StepAt(run, acts, 0);
    ShutDownStarts(run[0], t, n);
    BeginEnds(run, acts, t, n, 1);
  }
}
