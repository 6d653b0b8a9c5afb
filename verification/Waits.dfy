/** What waiters come to, from the action that makes them on: each waits for the event that it was made for,
    becomes ready only once that has happened, and does not sleep through it. */
module Waits {
  import opened Memory
  import opened Protocol
  import opened Ledger
  import opened Invariant
  import opened Safety
  import opened Obligations
  import opened Histories

  // ---- One action ---------------------------------------------------------------------------------------------

  lemma RunWaiters(sys: Sys, f: Frame, ch: Choice, w: nat)
    requires Safe(sys.nodes, f) && Allowed(sys.nodes, f, ch)
    ensures var waiters' := Perform(sys, f, ch).waiters;
            && |waiters'| == |sys.waiters|
            && (w < |sys.waiters| ==> waiters'[w] == sys.waiters[w]
                                      || (sys.waiters[w].listener.Some? && waiters'[w] == sys.waiters[w].(listener := Some(true))))
  {
    hide LiveChildren, SetShard, SetNode, SetLife, SetHandles, SetChildren, Registered, Plus, Minus, NewNode;
  }

  /** No action changes what a waiter waits for, only its own steps make it ready, and only its drop ends it. */
  ghost predicate Keeps(sys: Sys, action: Action, sys': Sys, w: nat)
    requires w < |sys.waiters| && w < |sys'.waiters|
  {
    var a, b := sys.waiters[w], sys'.waiters[w];
    && b.node == a.node && b.event == a.event
    && (b.pc.Gone? <==> a.pc.Gone? || action == DropWaiter(w))
    && (a.pc.Ready? ==> b.pc.Ready? || b.pc.Gone?)
    && (b.pc != a.pc ==> action == RunWaiter(w) || action == DropWaiter(w))
    && (a.listener.Some? ==> b.listener.Some? || action == RunWaiter(w) || action == DropWaiter(w))
  }

  lemma RunKeeps(sys: Sys, t: nat, ch: Choice, w: nat)
    requires Enabled(sys, Run(t, ch)) && w < |sys.waiters|
    ensures w < |Apply(sys, Run(t, ch)).waiters| && Keeps(sys, Run(t, ch), Apply(sys, Run(t, ch)), w)
  {
    hide Perform, Safe, Allowed;
    RunWaiters(sys, Last(sys.threads[t]), ch, w);
  }

  lemma SameWaiters(sys: Sys, action: Action)
    requires Enabled(sys, action) && !action.Run? && !action.RunWaiter? && !action.StartWait? && !action.DropWaiter?
    ensures Apply(sys, action).waiters == sys.waiters
  {
    hide Unpinned, StepWaiter, SetShard, SetLife, SetHandles, NewNode, Plus, ValidShard;
  }

  lemma StartKeeps(sys: Sys, action: Action, w: nat)
    requires Enabled(sys, action) && !action.Run? && !action.RunWaiter? && w < |sys.waiters|
    ensures w < |Apply(sys, action).waiters| && Keeps(sys, action, Apply(sys, action), w)
  {
    hide Unpinned, StepWaiter, SetShard, SetLife, SetHandles, NewNode, Plus, ValidShard, Spawn, IdleThread, Held;
    if !action.StartWait? && !action.DropWaiter? { SameWaiters(sys, action); }
  }

  lemma PollKeeps(sys: Sys, v: nat, w: nat)
    requires Enabled(sys, RunWaiter(v)) && w < |sys.waiters|
    ensures w < |Apply(sys, RunWaiter(v)).waiters| && Keeps(sys, RunWaiter(v), Apply(sys, RunWaiter(v)), w)
  {
  }

  lemma WaiterKept(sys: Sys, action: Action, w: nat)
    requires Enabled(sys, action) && w < |sys.waiters|
    ensures w < |Apply(sys, action).waiters| && Keeps(sys, action, Apply(sys, action), w)
  {
    hide Enabled, Apply, Keeps;
    match action
    case Run(t, ch) => RunKeeps(sys, t, ch, w);
    case RunWaiter(v) => PollKeeps(sys, v, w);
    case _ => StartKeeps(sys, action, w);
  }

  /** A new waiter waits on the node for the event, and has not been polled. */
  lemma WaitStarts(sys: Sys, n: nat, event: Event)
    requires Enabled(sys, StartWait(n, event))
    ensures var waiters', w := Apply(sys, StartWait(n, event)).waiters, |sys.waiters|;
            && |waiters'| == w + 1 && waiters'[..w] == sys.waiters
            && waiters'[w].node == n && waiters'[w].event == event && waiters'[w].pc.Idle?
  {
  }

  // ---- Over a run ---------------------------------------------------------------------------------------------

  /** The `i`th action makes the waiter `w`, which waits on the node for the event. */
  ghost predicate Waits(run: seq<Sys>, acts: seq<Action>, i: nat, n: nat, event: Event, w: nat) {
    Performs(run, acts) && i < |acts| && acts[i] == StartWait(n, event) && w == |run[i].waiters|
  }

  /** The waiter was dropped between the two instants. */
  predicate DroppedBetween(acts: seq<Action>, i: nat, j: nat, w: nat) {
    exists k :: i < k < j && k < |acts| && acts[k] == DropWaiter(w)
  }

  predicate PolledBetween(acts: seq<Action>, i: nat, j: nat, w: nat) {
    exists k :: i < k < j && k < |acts| && acts[k] == RunWaiter(w)
  }

  /** A waiter keeps its node and its event, and is gone exactly once it has been dropped. */
  lemma {:induction false} WaiterOver(run: seq<Sys>, acts: seq<Action>, i: nat, j: nat, n: nat, event: Event, w: nat)
    requires Waits(run, acts, i, n, event, w) && i < j <= |acts|
    ensures w < |run[j].waiters| && run[j].waiters[w].node == n && run[j].waiters[w].event == event
    ensures run[j].waiters[w].pc.Gone? <==> DroppedBetween(acts, i, j, w)
    decreases j
  {
    hide Inv, Enabled, Apply, Evolves, Reachable;
    StepAt(run, acts, j - 1);
    if i == j - 1 {
      WaitStarts(run[i], n, event);
    } else {
      WaiterOver(run, acts, i, j - 1, n, event, w);
      WaiterKept(run[j - 1], acts[j - 1], w);
      assert DroppedBetween(acts, i, j, w) <==> DroppedBetween(acts, i, j - 1, w) || acts[j - 1] == DropWaiter(w);
    }
  }

  lemma WaiterNode(sys: Sys, w: nat)
    requires Inv(sys) && w < |sys.waiters|
    ensures WaiterShape(sys.nodes, sys.waiters[w])
  {
    hide ThreadTokens, Words, Latches, Registries, Stacks, Departures, Balanced, Duties, Lives, Happened;
  }

  /** A completion becomes ready only by a poll of its own, at an instant when its node is stopped and no guard
      is homed at or below it; a stop listener, when its node is stopped. */
  lemma ReadyTruthfully(run: seq<Sys>, acts: seq<Action>, i: nat, k: nat, n: nat, event: Event, w: nat)
    requires Waits(run, acts, i, n, event, w) && i < k < |acts| && w < |run[k].waiters| && w < |run[k + 1].waiters|
    requires !run[k].waiters[w].pc.Ready? && run[k + 1].waiters[w].pc.Ready?
    ensures acts[k] == RunWaiter(w) && n < |run[k].nodes| && run[k].nodes[n].word.stopped
    ensures event == ZeroEvent ==> run[k].nodes[n].word.count == 0 && SubtreeIdle(run[k], n)
  {
    hide Inv, Enabled, Apply, Evolves, Reachable, SubtreeIdle;
    StepAt(run, acts, k);
    WaiterOver(run, acts, i, k, n, event, w);
    WaiterKept(run[k], acts[k], w);
    AllReachable(run, acts, k);
    ResolvesTruthfully(run[k], w);
    WaiterNode(run[k], w);
  }

  /** A resolved waiter stays resolved until it is dropped. */
  lemma {:induction false} ReadyStays(run: seq<Sys>, acts: seq<Action>, i: nat, j: nat, w: nat)
    requires Performs(run, acts) && i <= j <= |acts| && w < |run[i].waiters| && run[i].waiters[w].pc.Ready?
    ensures w < |run[j].waiters| && (run[j].waiters[w].pc.Ready? || run[j].waiters[w].pc.Gone?)
    decreases j
  {
    hide Inv, Enabled, Apply, Evolves, Reachable;
    if i < j {
      ReadyStays(run, acts, i, j - 1, w);
      StepAt(run, acts, j - 1);
      WaiterKept(run[j - 1], acts[j - 1], w);
    }
  }

  /** A poll that returns Pending leaves a listener behind. */
  lemma PendingListens(sys: Sys, w: nat)
    requires Inv(sys) && Enabled(sys, RunWaiter(w)) && Apply(sys, RunWaiter(w)).waiters[w].pc.Idle?
    ensures Apply(sys, RunWaiter(w)).waiters[w].listener.Some?
  {
    hide Inv;
    WaiterNode(sys, w);
  }

  lemma {:induction false} PendingHasListener(run: seq<Sys>, acts: seq<Action>, i: nat, j: nat, n: nat, event: Event, w: nat)
    requires Waits(run, acts, i, n, event, w) && i < j <= |acts| && PolledBetween(acts, i, j, w)
    ensures w < |run[j].waiters| && (run[j].waiters[w].pc.Idle? ==> run[j].waiters[w].listener.Some?)
    decreases j
  {
    hide Inv, Enabled, Apply, Evolves, Reachable;
    WaiterOver(run, acts, i, j, n, event, w);
    if i < j - 1 {
      StepAt(run, acts, j - 1);
      WaiterOver(run, acts, i, j - 1, n, event, w);
      WaiterKept(run[j - 1], acts[j - 1], w);
      if acts[j - 1] == RunWaiter(w) {
        if run[j].waiters[w].pc.Idle? { PendingListens(run[j - 1], w); }
      } else {
        assert PolledBetween(acts, i, j - 1, w);
        PendingHasListener(run, acts, i, j - 1, n, event, w);
      }
    }
  }

  lemma AwakeListener(w: Waiter)
    requires !Asleep(w) && w.pc.Idle? && w.listener.Some?
    ensures w.listener == Some(true)
  {
    match w.listener
    case Some(notified) => assert notified != false;
  }

  /** No completion and no stop listener sleeps through its event: with no call in progress, once the event has
      happened, a waiter that was not dropped has been notified if its latest poll returned Pending,
      and resolves within three of its own steps. */
  lemma WaiterWoken(run: seq<Sys>, acts: seq<Action>, i: nat, j: nat, n: nat, event: Event, w: nat)
    requires Waits(run, acts, i, n, event, w) && i < j <= |acts| && Quiescent(run[j]) && !DroppedBetween(acts, i, j, w)
    requires n < |run[j].nodes| && run[j].nodes[n].word.stopped && (event == ZeroEvent ==> run[j].nodes[n].word.count == 0)
    ensures w < |run[j].waiters|
    ensures PolledBetween(acts, i, j, w) && run[j].waiters[w].pc.Idle? ==> run[j].waiters[w].listener == Some(true)
    ensures run[j].waiters[w].node == n && Polled(run[j].nodes, run[j].waiters[w], 3).pc.Ready?
  {
    hide Inv, Enabled, Apply, Evolves, Reachable, Quiescent, PolledBetween, DroppedBetween, Polled;
    WaiterOver(run, acts, i, j, n, event, w);
    AllReachable(run, acts, j);
    QuiescentWaiterResolves(run[j], w);
    if PolledBetween(acts, i, j, w) && run[j].waiters[w].pc.Idle? {
      PendingHasListener(run, acts, i, j, n, event, w);
      AwakeListener(run[j].waiters[w]);
    }
  }

  lemma NotifiedNode(sys: Sys, w: nat)
    requires Inv(sys) && w < |sys.waiters| && sys.waiters[w].listener == Some(true)
    ensures sys.waiters[w].node < |sys.nodes| && sys.nodes[sys.waiters[w].node].word.stopped
  {
    hide Inv, Happened;
    WaiterNode(sys, w);
  }

  /** No waiter is notified before its node has stopped. */
  lemma NotifiedAfterStop(run: seq<Sys>, acts: seq<Action>, i: nat, j: nat, n: nat, event: Event, w: nat)
    requires Waits(run, acts, i, n, event, w) && i < j <= |acts| && w < |run[j].waiters| && run[j].waiters[w].listener == Some(true)
    ensures n < |run[j].nodes| && run[j].nodes[n].word.stopped
  {
    hide Inv, Enabled, Apply, Reachable;
    WaiterOver(run, acts, i, j, n, event, w);
    InvAt(run, acts, j);
    NotifiedNode(run[j], w);
  }
}
