/** What every schedule comes to: a quiescent state, in which every completion of an empty stopped
    node resolves when it is polled. */
module Liveness {
  import opened Protocol
  import opened Invariant
  import opened Runs
  import opened Safety
  import opened Obligations
  import opened Termination

  lemma WorkIsNext(sys: Sys, sys': Sys)
    requires Works(sys, sys')
    ensures Next(sys, sys')
  {
    hide Enabled, Apply;
  }

  lemma {:induction false} ScheduleReachable(run: nat -> Sys, i: nat)
    requires Reachable(run(0)) && Schedule(run) && forall j :: 0 <= j < i ==> !Quiescent(run(j))
    ensures Reachable(run(i))
  {
    hide Reachable, Works, Quiescent;
    if i > 0 {
      ScheduleReachable(run, i - 1);
      assert Works(run(i - 1), run(i - 1 + 1));
      WorkIsNext(run(i - 1), run(i));
      ReachableNext(run(i - 1), run(i));
    }
  }

  lemma {:induction false} FirstQuiescent(run: nat -> Sys, bound: nat) returns (i: nat)
    requires Quiescent(run(bound))
    ensures Quiescent(run(i)) && forall j :: 0 <= j < i ==> !Quiescent(run(j))
  {
    hide Quiescent;
    if j :| 0 <= j < bound && Quiescent(run(j)) { i := FirstQuiescent(run, j); } else { i := bound; }
  }

  /** The waiter's node is alive, stopped and, if it waits for completion, without guards. */
  ghost predicate Due(sys: Sys, w: Waiter) {
    && !w.pc.Gone? && w.node < |sys.nodes| && sys.nodes[w.node].life.Live? && sys.nodes[w.node].word.stopped
    && (w.event == ZeroEvent ==> SubtreeIdle(sys, w.node))
  }

  lemma DueHappened(sys: Sys, w: Waiter)
    requires Reachable(sys) && Quiescent(sys) && Due(sys, w)
    ensures Happened(sys.nodes, w)
  {
    hide Reachable, Quiescent, SubtreeIdle;
    CompleteIffIdle(sys, w.node);
  }

  /** Eventual completion: if no new call begins, every schedule reaches a state in which no call is in
      progress, and in which every completion and every stop listener that is due resolves within
      three steps of its own. */
  lemma EventualCompletion(run: nat -> Sys)
    requires Reachable(run(0)) && Schedule(run)
    ensures exists i :: Quiescent(run(i)) && forall k :: 0 <= k < |run(i).waiters| && Due(run(i), run(i).waiters[k]) ==>
              Polled(run(i).nodes, run(i).waiters[k], 3).pc.Ready?
  {
    hide Reachable, Quiescent, Schedule, Polled, Happened, Asleep;
    EveryScheduleEnds(run);
    var bound: nat :| Quiescent(run(bound));
    var i := FirstQuiescent(run, bound);
    ScheduleReachable(run, i);
    forall k | 0 <= k < |run(i).waiters| && Due(run(i), run(i).waiters[k]) ensures Polled(run(i).nodes, run(i).waiters[k], 3).pc.Ready? {
      DueHappened(run(i), run(i).waiters[k]);
      QuiescentWaiterResolves(run(i), k);
    }
  }
}
