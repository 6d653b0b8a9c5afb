/** What is collected: once everything has settled, exactly the nodes are alive that something still needs. */
module Collections {
  import opened Memory
  import opened Protocol
  import opened Ledger
  import opened Invariant
  import opened Runs
  import opened Safety
  import opened Termination
  import opened Census

  /** A handle, a waiter or the guard of a child refers to the node. */
  ghost predicate Referenced(sys: Sys, m: nat) {
    && m < |sys.nodes|
    && (|| sys.nodes[m].handles > 0
        || (exists w :: 0 <= w < |sys.waiters| && sys.waiters[w].node == m && !sys.waiters[w].pc.Gone?)
        || (sys.nodes[m].link.Child? && exists h :: h in sys.guards && h.node == m))
  }

  lemma LivesHold(sys: Sys)
    requires Inv(sys)
    ensures Lives(sys.nodes, sys.guards) && Forest(sys.nodes)
    ensures forall w :: 0 <= w < |sys.waiters| ==> WaiterShape(sys.nodes, sys.waiters[w])
  {
    hide ThreadTokens, Latches, Registries, Stacks, Departures, Balanced, Duties, WaiterShape, Happened;
  }

  /** What refers to a node keeps it alive. */
  lemma ReferencedLive(sys: Sys, m: nat)
    requires Inv(sys) && Referenced(sys, m)
    ensures sys.nodes[m].life.Live?
  {
    hide Inv, Happened;
    LivesHold(sys);
    if w :| 0 <= w < |sys.waiters| && sys.waiters[w].node == m && !sys.waiters[w].pc.Gone? { assert WaiterShape(sys.nodes, sys.waiters[w]); }
  }

  lemma NoneDropping(sys: Sys, n: nat)
    requires Inv(sys) && Quiescent(sys) && n < |sys.nodes|
    ensures !sys.nodes[n].life.Dropping?
  {
    hide ThreadTokens, Latches, Registries, Stacks, Departures, Balanced, Waiters, Lives, Words, Quiescent;
    QuiescentHoldsNothing(sys);
    assert ThreadTokens(sys.threads)[Collecting(n)] == One(NeedsCollect(sys.nodes, n));
  }

  /** A live node that is not referenced has an unfreed child, once there is nothing left to collect. */
  lemma KeptByChild(sys: Sys, n: nat) returns (c: nat)
    requires Settled(sys) && |sys.threads| > 0 && n < |sys.nodes| && sys.nodes[n].life.Live? && !Referenced(sys, n)
    ensures IsChild(sys.nodes, c) && sys.nodes[c].link.parent == n && !sys.nodes[c].life.Freed?
  {
    assert !Enabled(sys, StartCollect(0, n));
    assert IdleThread(sys, 0) && ValidNode(sys.nodes, n);
    assert !Unpinned(sys, n);
    c :| 0 <= c < |sys.nodes| && sys.nodes[c].link.Child? && sys.nodes[c].link.parent == n && !sys.nodes[c].life.Freed?;
  }

  lemma SettledIsQuiet(sys: Sys)
    requires Settled(sys)
    ensures Quiescent(sys)
  {
  }

  lemma WithinParent(nodes: seq<Node>, c: nat)
    requires Forest(nodes) && IsChild(nodes, c)
    ensures nodes[c].link.parent < c && Within(nodes, nodes[c].link.parent, c)
  {
    assert Within(nodes, nodes[c].link.parent, nodes[c].link.parent);
  }

  lemma {:induction false} LiveHasReference(sys: Sys, n: nat) returns (m: nat)
    requires Inv(sys) && Settled(sys) && |sys.threads| > 0 && n < |sys.nodes| && sys.nodes[n].life.Live?
    ensures Within(sys.nodes, n, m) && Referenced(sys, m)
    decreases |sys.nodes| - n
  {
    hide Inv, Settled, Referenced;
    if Referenced(sys, n) {
      m := n;
    } else {
      var c := KeptByChild(sys, n);
      LivesHold(sys);
      SettledIsQuiet(sys);
      NoneDropping(sys, c);
      m := LiveHasReference(sys, c);
      WithinParent(sys.nodes, c);
      WithinTransitive(sys.nodes, n, c, m);
    }
  }

  /** No leak and no early collection: once no call is in progress and no destructor can start, a node is alive
      if and only if a handle, a waiter or a child's guard refers to it or to a node below it. */
  lemma LiveIffReferenced(sys: Sys, n: nat)
    requires Reachable(sys) && Settled(sys) && |sys.threads| > 0 && n < |sys.nodes|
    ensures sys.nodes[n].life.Live? <==> exists m :: Within(sys.nodes, n, m) && Referenced(sys, m)
  {
    hide Reachable, Inv, Settled, Referenced;
    ReachableInv(sys);
    if sys.nodes[n].life.Live? { var m := LiveHasReference(sys, n); }
    if m :| Within(sys.nodes, n, m) && Referenced(sys, m) {
      ReferencedLive(sys, m);
      LiveUpTo(sys, n, m);
    }
  }
}
