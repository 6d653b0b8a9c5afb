/** Calls that run alone: in every reachable state, whatever calls other threads have left unfinished, a user who
    holds a handle can make a guard or a child, or stop the node, without any step of another thread. */
module Alone {
  import opened Memory
  import opened Protocol
  import opened Invariant
  import opened Runs
  import opened Termination
  import opened MemorySteps
  import opened Histories
  import opened GuardCalls
  import opened Handles
  import opened Shutdowns
  import opened Waits

  /** Thread `t` is in a call. */
  predicate Busy(sys: Sys, t: nat) {
    t < |sys.threads| && sys.threads[t] != []
  }

  lemma StepReachable(sys: Sys, action: Action)
    requires Reachable(sys) && Enabled(sys, action)
    ensures Reachable(Apply(sys, action)) && Next(sys, Apply(sys, action))
  {
    hide Reachable, Enabled, Apply;
    ReachableNext(sys, Apply(sys, action));
  }

  /** The state after thread `t` has taken `i` steps while the others take none. */
  ghost function Solo(sys: Sys, t: nat, i: nat): (s: Sys)
    requires Reachable(sys)
    ensures Reachable(s)
  {
    if i == 0 then sys else
    var s := Solo(sys, t, i - 1);
    if !Busy(s, t) then s else
    NeverStuck(s, t);
    var ch :| Enabled(s, Run(t, ch)) && !ch.spurious;
    StepReachable(s, Run(t, ch));
    Apply(s, Run(t, ch))
  }

  lemma SoloStep(sys: Sys, t: nat, i: nat) returns (ch: Choice)
    requires Reachable(sys) && Busy(Solo(sys, t, i), t)
    ensures var s := Solo(sys, t, i); Enabled(s, Run(t, ch)) && !ch.spurious && Solo(sys, t, i + 1) == Apply(s, Run(t, ch))
  {
    hide Reachable, Enabled, Apply;
    var s := Solo(sys, t, i);
    NeverStuck(s, t);
    ch :| Enabled(s, Run(t, ch)) && !ch.spurious && Solo(sys, t, i + 1) == Apply(s, Run(t, ch));
  }

  lemma {:induction false} FirstIdle(sys: Sys, t: nat, bound: nat) returns (i: nat)
    requires Reachable(sys) && !Busy(Solo(sys, t, bound), t)
    ensures !Busy(Solo(sys, t, i), t) && forall j :: 0 <= j < i ==> Busy(Solo(sys, t, j), t)
  {
    hide Reachable, Solo, Busy;
    if j :| 0 <= j < bound && !Busy(Solo(sys, t, j), t) { i := FirstIdle(sys, t, j); } else { i := bound; }
  }

  /** A thread that runs alone finishes its call. */
  lemma SoloEnds(sys: Sys, t: nat) returns (i: nat)
    requires Reachable(sys)
    ensures !Busy(Solo(sys, t, i), t) && forall j :: 0 <= j < i ==> Busy(Solo(sys, t, j), t)
  {
    hide Reachable, Enabled, Apply, Solo, Busy;
    var run := (i: nat) => Solo(sys, t, i);
    var done := (i: nat) => !Busy(Solo(sys, t, i), t);
    assert Solo(sys, t, 0) == run(0);
    forall i: nat | !done(i) ensures Works(run(i), run(i + 1)) {
      var ch := SoloStep(sys, t, i);
      assert Steps(run(i), run(i + 1));
    }
    WorkEnds(run, done);
    var bound: nat :| done(bound);
    i := FirstIdle(sys, t, bound);
  }

  /** The steps that the thread takes. */
  lemma {:induction false} SoloRun(sys: Sys, t: nat, i: nat) returns (run: seq<Sys>, acts: seq<Action>)
    requires Reachable(sys) && forall j :: 0 <= j < i ==> Busy(Solo(sys, t, j), t)
    ensures Performs(run, acts) && |acts| == i && run[0] == sys && run[i] == Solo(sys, t, i)
    ensures forall j :: 0 <= j < i ==> Moves(acts[j], t) && Busy(run[j], t)
  {
    hide Reachable, Enabled, Apply, Busy;
    if i == 0 {
      run, acts := [sys], [];
    } else {
      var before, steps := SoloRun(sys, t, i - 1);
      var ch := SoloStep(sys, t, i - 1);
      run, acts := before + [Solo(sys, t, i)], steps + [Run(t, ch)];
      forall j | 0 <= j < i ensures Enabled(run[j], acts[j]) && run[j + 1] == Apply(run[j], acts[j]) {
        if j < i - 1 { assert before[j + 1] == Apply(before[j], steps[j]); }
      }
    }
  }

  lemma SameThreads(sys: Sys, action: Action)
    requires Enabled(sys, action)
    ensures |Apply(sys, action).threads| == |sys.threads|
  {
    hide Enabled, Apply;
    if action.Run? { RunOthers(sys, action.t, action.ch, action.t + 1); } else { StartShape(sys, action, 0); }
  }

  lemma {:induction false} ThreadsLast(run: seq<Sys>, acts: seq<Action>, i: nat)
    requires Performs(run, acts) && i <= |acts|
    ensures |run[i].threads| == |run[0].threads|
  {
    hide Reachable, Enabled, Apply;
    if i > 0 {
      ThreadsLast(run, acts, i - 1);
      assert Enabled(run[i - 1], acts[i - 1]) && run[i - 1 + 1] == Apply(run[i - 1], acts[i - 1]);
      SameThreads(run[i - 1], acts[i - 1]);
    }
  }

  /** The thread takes all steps of the run after the first. */
  predicate AllMoves(acts: seq<Action>, t: nat) {
    forall k :: 0 < k < |acts| ==> Moves(acts[k], t)
  }

  /** A call that begins and runs alone comes to its end. */
  lemma CallAlone(sys: Sys, action: Action, t: nat) returns (run: seq<Sys>, acts: seq<Action>)
    requires Reachable(sys) && Enabled(sys, action) && t < |sys.threads| && Busy(Apply(sys, action), t)
    ensures WholeCall(run, acts, t) && run[0] == sys && acts[0] == action && AllMoves(acts, t)
  {
    hide Reachable, Enabled, Apply, Solo;
    StepReachable(sys, action);
    SameThreads(sys, action);
    var first := Apply(sys, action);
    var i := SoloEnds(first, t);
    var rest, steps := SoloRun(first, t, i);
    ThreadsLast(rest, steps, i);
    run, acts := [sys] + rest, [action] + steps;
    forall j | 0 <= j < |acts| ensures Enabled(run[j], acts[j]) && run[j + 1] == Apply(run[j], acts[j]) {
      if j > 0 {
        assert Enabled(rest[j - 1], steps[j - 1]) && rest[j - 1 + 1] == Apply(rest[j - 1], steps[j - 1]);
        assert run[j] == rest[j - 1] && run[j + 1] == rest[j] && acts[j] == steps[j - 1];
      }
    }
    forall j | 0 < j < |acts| ensures t < |run[j].threads| && run[j].threads[t] != [] { assert Busy(rest[j - 1], t); }
    forall j | 0 < j < |acts| ensures Moves(acts[j], t) { assert Moves(steps[j - 1], t); }
    assert run[|acts|] == rest[i];
  }

  lemma {:induction false} GuardsKept(run: seq<Sys>, acts: seq<Action>, t: nat, i: nat)
    requires WholeCall(run, acts, t) && AllMoves(acts, t) && MakesNone(run, acts, t, 1, |acts| - 1) && 0 < i < |acts|
    ensures run[i].guards == run[1].guards
  {
    hide Performs;
    if i > 1 {
      GuardsKept(run, acts, t, i - 1);
      assert Moves(acts[i - 1], t);
    }
  }

  /** A user who holds a handle can make a guard on any shard of the node, also on a stopped node. */
  lemma GuardCanBeMade(sys: Sys, t: nat, n: nat, s: nat) returns (run: seq<Sys>, acts: seq<Action>)
    requires Reachable(sys) && IdleThread(sys, t) && Held(sys, n) && ValidShard(sys.nodes, n, s)
    ensures WholeCall(run, acts, t) && run[0] == sys && acts[0] == StartGuard(t, n, s) && AllMoves(acts, t)
    ensures run[|acts|].guards == sys.guards + multiset{Home(n, s)}
  {
    hide Reachable, Performs;
    GuardStarts(sys, t, n, s);
    run, acts := CallAlone(sys, StartGuard(t, n, s), t);
    GuardCall(run, acts, t, n, s);
    GuardsKept(run, acts, t, |acts| - 1);
  }

  lemma ChildBegins(sys: Sys, t: nat, n: nat, s: nat)
    requires IdleThread(sys, t) && Held(sys, n) && ValidShard(sys.nodes, n, s)
    ensures Enabled(sys, StartChild(t, n, s)) && Busy(Apply(sys, StartChild(t, n, s)), t)
  {
  }

  /** A user who holds a handle can make a child on any shard of the node. */
  lemma ChildCanBeMade(sys: Sys, t: nat, n: nat, s: nat) returns (run: seq<Sys>, acts: seq<Action>, c: nat)
    requires Reachable(sys) && IdleThread(sys, t) && Held(sys, n) && ValidShard(sys.nodes, n, s)
    ensures WholeCall(run, acts, t) && run[0] == sys && acts[0] == StartChild(t, n, s) && AllMoves(acts, t)
    ensures c >= |sys.nodes| && HandsOut(run, acts, t, n, s, c)
  {
    hide Reachable, Enabled, Apply, HandsOut;
    ChildBegins(sys, t, n, s);
    run, acts := CallAlone(sys, StartChild(t, n, s), t);
    var k := ChildCall(run, acts, t, n, s);
    c := |run[k].nodes|;
  }

  /** A user who holds a handle can stop the node. */
  lemma NodeCanBeStopped(sys: Sys, t: nat, n: nat) returns (run: seq<Sys>, acts: seq<Action>)
    requires Reachable(sys) && IdleThread(sys, t) && Held(sys, n)
    ensures WholeCall(run, acts, t) && run[0] == sys && acts[0] == StartStop(t, n) && AllMoves(acts, t)
    ensures n < |run[|acts|].nodes| && run[|acts|].nodes[n].word.stopped
  {
    hide Reachable, Performs;
    ShutDownStarts(sys, t, n);
    run, acts := CallAlone(sys, StartStop(t, n), t);
    ShutDownCall(run, acts, t, n);
  }

  lemma ProbeBegins(sys: Sys, t: nat, n: nat, s: nat)
    requires IdleThread(sys, t) && ValidShard(sys.nodes, n, s)
    ensures Enabled(sys, StartProbe(t, n, s)) && Busy(Apply(sys, StartProbe(t, n, s)), t)
  {
  }

  /** An interrupt can try for a guard, also once its node is gone. */
  lemma ProbeCanRun(sys: Sys, t: nat, n: nat, s: nat) returns (run: seq<Sys>, acts: seq<Action>, made: Option<nat>)
    requires Reachable(sys) && IdleThread(sys, t) && ValidShard(sys.nodes, n, s)
    ensures WholeCall(run, acts, t) && run[0] == sys && acts[0] == StartProbe(t, n, s) && AllMoves(acts, t)
    ensures ProbeEnds(run, acts, t, n, s, made)
  {
    hide Reachable, Enabled, Apply, ProbeEnds;
    ProbeBegins(sys, t, n, s);
    run, acts := CallAlone(sys, StartProbe(t, n, s), t);
    made := ProbeCall(run, acts, t, n, s);
  }

  /** Whoever holds a guard can clone it and drop it, and whoever waits can poll, in every reachable state. */
  lemma HoldersCanAct(sys: Sys, t: nat, h: Home, w: nat)
    requires Reachable(sys) && IdleThread(sys, t)
    ensures h in sys.guards ==> Enabled(sys, CloneGuard(h)) && Enabled(sys, DropGuard(t, h))
    ensures w < |sys.waiters| ==> Enabled(sys, RunWaiter(w))
  {
    hide Reachable, Inv;
    ReachableInv(sys);
    if h in sys.guards { GuardedShard(sys, h); }
    if w < |sys.waiters| { WaiterNode(sys, w); }
  }
}
