/** Children of a stopped parent: `new_child` returns only once its child is stopped, if its check found
    the parent stopped; and it does find that, if the parent had stopped before the child existed. */
module Creation {
  import opened Memory
  import opened Protocol
  import opened Invariant
  import opened StackSteps
  import opened Runs
  import opened Propagation

  predicate Finishes(f: Frame) {
    f.NewChild? && f.cpc.Finish?
  }

  /** A creation that found its parent stopped has stopped its child, or is about to. */
  ghost predicate LateOk(nodes: seq<Node>, stack: seq<Frame>, k: nat)
    requires k < |stack|
  {
    Finishes(stack[k]) && stack[k].cpc.late ==>
      var c := stack[k].cpc.child;
      c < |nodes| && (nodes[c].word.stopped || (k + 1 < |stack| && stack[k + 1] == Stop(c, Begin)))
  }

  ghost predicate LatesOk(sys: Sys) {
    forall t: nat, k: nat :: t < |sys.threads| && k < |sys.threads[t]| ==> LateOk(sys.nodes, sys.threads[t], k)
  }

  /** A creation is about to finish only after its check, which decides whether it is late. */
  ghost predicate Checked(sys: Sys, f: Frame, push: seq<Frame>, j: nat)
    requires j < |push| && Finishes(push[j])
  {
    var g := push[j];
    && j == 0 && f.NewChild? && f.cpc == Check(g.cpc.child) && f.parent == g.parent
    && g.cpc.child < |sys.nodes| && g.parent < |sys.nodes| && g.cpc.late == sys.nodes[g.parent].word.stopped
    && (g.cpc.late ==> |push| == 2 && push[1] == Stop(g.cpc.child, Begin))
  }

  lemma CheckDecides(sys: Sys, f: Frame, ch: Choice)
    requires Safe(sys.nodes, f) && Allowed(sys.nodes, f, ch)
    ensures var push := Perform(sys, f, ch).push; forall j: nat :: j < |push| && Finishes(push[j]) ==> Checked(sys, f, push, j)
  {
    hide NotifyAll, LiveChildren, SetShard, SetNode, SetLife, SetHandles, SetChildren, Registered;
  }

  lemma LateLasts(nodes: seq<Node>, nodes': seq<Node>, stack: seq<Frame>, k: nat)
    requires k < |stack| && LateOk(nodes, stack, k) && Evolves(nodes, nodes')
    ensures LateOk(nodes', stack, k)
  {
    hide Evolves;
    if Finishes(stack[k]) && stack[k].cpc.late { EvolvesAt(nodes, nodes', stack[k].cpc.child); }
  }

  /** The moving thread's stack, below the frames that are pushed. */
  lemma BaseLate(sys: Sys, t: nat, ch: Choice, k: nat)
    requires LatesOk(sys) && Enabled(sys, Run(t, ch)) && Evolves(sys.nodes, Advance(sys, t, ch).nodes)
    requires k < |sys.threads[t]| - 1 && k < |Advance(sys, t, ch).threads[t]|
    ensures LateOk(Advance(sys, t, ch).nodes, Advance(sys, t, ch).threads[t], k)
  {
    hide Perform, Safe, Allowed, Evolves;
    var stack, stack', nodes' := sys.threads[t], Advance(sys, t, ch).threads[t], Advance(sys, t, ch).nodes;
    assert LateOk(sys.nodes, stack, k);
    assert stack'[k] == stack[k] || stack'[k] == Resume(stack[k]);
    if Finishes(stack'[k]) && stack'[k].cpc.late {
      var c := stack[k].cpc.child;
      assert stack'[k] == stack[k];
      EvolvesAt(sys.nodes, nodes', c);
      if !sys.nodes[c].word.stopped {
        if k + 1 == |stack| - 1 {
          BeginStops(sys, c, ch);
        } else {
          assert stack'[k + 1] == stack[k + 1];
        }
      }
    }
  }

  lemma PushedLate(sys: Sys, t: nat, ch: Choice, k: nat)
    requires Enabled(sys, Run(t, ch)) && |sys.threads[t]| - 1 <= k < |Advance(sys, t, ch).threads[t]|
    requires Evolves(sys.nodes, Advance(sys, t, ch).nodes)
    ensures LateOk(Advance(sys, t, ch).nodes, Advance(sys, t, ch).threads[t], k)
  {
    hide Perform, Safe, Allowed, Evolves;
    var stack, o := sys.threads[t], Perform(sys, Last(sys.threads[t]), ch);
    CheckDecides(sys, Last(stack), ch);
    EvolvesGrows(sys.nodes, o.nodes);
    var j := k - (|stack| - 1);
    assert Advance(sys, t, ch).threads[t][k] == o.push[j];
    assert j + 1 < |o.push| ==> Advance(sys, t, ch).threads[t][k + 1] == o.push[j + 1];
  }

  lemma RunLates(sys: Sys, t: nat, ch: Choice)
    requires LatesOk(sys) && Enabled(sys, Run(t, ch)) && Evolves(sys.nodes, Advance(sys, t, ch).nodes)
    ensures LatesOk(Advance(sys, t, ch))
  {
    hide Perform, Safe, Allowed, Evolves, LateOk, Checked, Finishes;
    var sys', stack, push := Advance(sys, t, ch), sys.threads[t], Perform(sys, Last(sys.threads[t]), ch).push;
    CheckDecides(sys, Last(stack), ch);
    forall u: nat, k: nat | u < |sys'.threads| && k < |sys'.threads[u]| ensures LateOk(sys'.nodes, sys'.threads[u], k) {
      if u != t {
        LateLasts(sys.nodes, sys'.nodes, sys.threads[u], k);
      } else if k < |stack| - 1 {
        BaseLate(sys, t, ch, k);
      } else {
        PushedLate(sys, t, ch, k);
      }
    }
  }

  lemma StartedNotLate(sys: Sys, action: Action, u: nat, k: nat)
    requires Enabled(sys, action) && !action.Run? && u < |Apply(sys, action).threads| && k < |Apply(sys, action).threads[u]|
    ensures u < |sys.threads|
    ensures Apply(sys, action).threads[u] == sys.threads[u]
            || (!Finishes(Apply(sys, action).threads[u][k]) && LateOk(Apply(sys, action).nodes, Apply(sys, action).threads[u], k))
  {
    hide Unpinned, SetShard, SetLife, StepWaiter;
  }

  lemma StartLates(sys: Sys, action: Action)
    requires LatesOk(sys) && Enabled(sys, action) && !action.Run? && Evolves(sys.nodes, Apply(sys, action).nodes)
    ensures LatesOk(Apply(sys, action))
  {
    hide Evolves, LateOk, Enabled, Apply;
    var sys' := Apply(sys, action);
    forall u: nat, k: nat | u < |sys'.threads| && k < |sys'.threads[u]| ensures LateOk(sys'.nodes, sys'.threads[u], k) {
      StartedNotLate(sys, action, u, k);
      if u < |sys.threads| && sys'.threads[u] == sys.threads[u] {
        LateLasts(sys.nodes, sys'.nodes, sys.threads[u], k);
      }
    }
  }

  lemma LatesStep(sys: Sys, action: Action)
    requires LatesOk(sys) && Enabled(sys, action) && Evolves(sys.nodes, Apply(sys, action).nodes)
    ensures LatesOk(Apply(sys, action))
  {
    hide LatesOk, Evolves, Perform, Safe, Allowed;
    if action.Run? { RunLates(sys, action.t, action.ch); } else { StartLates(sys, action); }
  }

  lemma {:induction false} RunsLates(run: seq<Sys>, i: nat)
    requires IsRun(run) && i < |run|
    ensures LatesOk(run[i])
  {
    hide Inv, Enabled, Apply, Evolves;
    if i > 0 {
      RunsLates(run, i - 1);
      RunInv(run, i - 1);
      assert Next(run[i - 1], run[i - 1 + 1]);
      var action :| Enabled(run[i - 1], action) && run[i] == Apply(run[i - 1], action);
      InvStep(run[i - 1], action);
      LatesStep(run[i - 1], action);
    }
  }

  /** A creation whose check found the parent stopped hands out a stopped child, whichever call it was
      that stopped it. */
  lemma LateChildIsStopped(sys: Sys, t: nat)
    requires Reachable(sys) && t < |sys.threads| && |sys.threads[t]| > 0
    requires var f := Last(sys.threads[t]); Finishes(f) && f.cpc.late
    ensures var c := Last(sys.threads[t]).cpc.child; c < |sys.nodes| && sys.nodes[c].word.stopped
  {
    hide Next, Init;
    var run :| IsRun(run) && Last(run) == sys;
    RunsLates(run, |run| - 1);
    assert LateOk(sys.nodes, sys.threads[t], |sys.threads[t]| - 1);
  }

  // ---- Over a run -----------------------------------------------------------------------------------------

  predicate InTime(f: Frame, p: nat, first: nat) {
    Finishes(f) && f.parent == p && f.cpc.child >= first && !f.cpc.late
  }

  /** Creations below `p` of nodes from `first` on are late. */
  ghost predicate AllLate(sys: Sys, p: nat, first: nat) {
    && p < |sys.nodes| && sys.nodes[p].word.stopped
    && forall t: nat, k: nat :: t < |sys.threads| && k < |sys.threads[t]| ==> !InTime(sys.threads[t][k], p, first)
  }

  lemma StacksHold(sys: Sys)
    requires Inv(sys)
    ensures Stacks(sys.nodes, sys.threads)
  {
  }

  lemma NoneYet(sys: Sys, p: nat)
    requires Inv(sys) && p < |sys.nodes| && sys.nodes[p].word.stopped
    ensures AllLate(sys, p, |sys.nodes|)
  {
    hide Inv;
    StacksHold(sys);
    forall t: nat, k: nat | t < |sys.threads| && k < |sys.threads[t]| ensures !InTime(sys.threads[t][k], p, |sys.nodes|) {
      assert StackOk(sys.nodes, sys.threads[t]);
      assert FrameOk(sys.nodes, sys.threads[t][k]);
    }
  }

  lemma StartInTime(sys: Sys, action: Action, p: nat, first: nat, u: nat, k: nat)
    requires AllLate(sys, p, first) && Enabled(sys, action) && !action.Run?
    requires u < |Apply(sys, action).threads| && k < |Apply(sys, action).threads[u]|
    ensures !InTime(Apply(sys, action).threads[u][k], p, first)
  {
    hide Enabled, Apply, LateOk;
    StartedNotLate(sys, action, u, k);
  }

  lemma RunInTime(sys: Sys, t: nat, ch: Choice, p: nat, first: nat, u: nat, k: nat)
    requires AllLate(sys, p, first) && Enabled(sys, Run(t, ch))
    requires u < |Apply(sys, Run(t, ch)).threads| && k < |Apply(sys, Run(t, ch)).threads[u]|
    ensures !InTime(Apply(sys, Run(t, ch)).threads[u][k], p, first)
  {
    hide Perform, Safe, Allowed;
    var sys', stack, push := Advance(sys, t, ch), sys.threads[t], Perform(sys, Last(sys.threads[t]), ch).push;
    CheckDecides(sys, Last(stack), ch);
    if u == t && k >= |stack| - 1 {
      assert sys'.threads[t][k] == push[k - (|stack| - 1)];
    } else if u == t {
      assert sys'.threads[t][k] == stack[k] || sys'.threads[t][k] == Resume(stack[k]);
      assert !InTime(stack[k], p, first);
    } else {
      assert !InTime(sys.threads[u][k], p, first);
    }
  }

  lemma AllLateStep(sys: Sys, action: Action, p: nat, first: nat)
    requires AllLate(sys, p, first) && Enabled(sys, action) && Evolves(sys.nodes, Apply(sys, action).nodes)
    ensures AllLate(Apply(sys, action), p, first)
  {
    hide Evolves, Enabled, Apply, InTime;
    var sys' := Apply(sys, action);
    EvolvesAt(sys.nodes, sys'.nodes, p);
    forall u: nat, k: nat | u < |sys'.threads| && k < |sys'.threads[u]| ensures !InTime(sys'.threads[u][k], p, first) {
      if action.Run? {
        RunInTime(sys, action.t, action.ch, p, first, u, k);
      } else {
        StartInTime(sys, action, p, first, u, k);
      }
    }
  }

  lemma {:induction false} AllLateFrom(run: seq<Sys>, i: nat, j: nat, p: nat)
    requires IsRun(run) && i <= j < |run| && p < |run[i].nodes| && run[i].nodes[p].word.stopped
    ensures AllLate(run[j], p, |run[i].nodes|)
    decreases j
  {
    hide Inv, Enabled, Apply, Evolves, AllLate;
    if i == j {
      RunInv(run, i);
      NoneYet(run[i], p);
    } else {
      AllLateFrom(run, i, j - 1, p);
      RunInv(run, j - 1);
      assert Next(run[j - 1], run[j - 1 + 1]);
      var action :| Enabled(run[j - 1], action) && run[j] == Apply(run[j - 1], action);
      InvStep(run[j - 1], action);
      AllLateStep(run[j - 1], action, p, |run[i].nodes|);
    }
  }

  /** A child that is created after its parent has stopped is stopped when its creation returns it. */
  lemma CreatedStopped(run: seq<Sys>, i: nat, j: nat, t: nat)
    requires IsRun(run) && i <= j < |run| && t < |run[j].threads| && |run[j].threads[t]| > 0
    requires var f := Last(run[j].threads[t]);
             Finishes(f) && f.parent < |run[i].nodes| && run[i].nodes[f.parent].word.stopped && f.cpc.child >= |run[i].nodes|
    ensures var c := Last(run[j].threads[t]).cpc.child; c < |run[j].nodes| && run[j].nodes[c].word.stopped
  {
    hide Next, Init;
    var f, k := Last(run[j].threads[t]), |run[j].threads[t]| - 1;
    AllLateFrom(run, i, j, f.parent);
    assert !InTime(run[j].threads[t][k], f.parent, |run[i].nodes|);
    RunsLates(run, j);
    assert LateOk(run[j].nodes, run[j].threads[t], k);
  }
}
